/**
 * The two calls to the Stack Exchange API: get_stack_questions (a bounded retry loop whose
 * successful response is filtered against the dedup set) and the result logic of post_answer.
 * The HTTP requests themselves are inputs: what each attempt returned or raised.
 */
module StackApi {
  import opened Wrappers
  import opened Config
  import opened Questions

  /**
   * What one attempt of the question request produced: an exception anywhere in the attempt
   * (the request, the JSON decoding, a question lacking its id), or a response with its status
   * code and its "items" array (None when the key is absent).
   */
  datatype FetchOutcome =
    | FetchRaised
    | FetchResponse(status: int, items: Option<seq<Question>>)

  predicate Succeeded(o: FetchOutcome) {
    o.FetchResponse? && o.status == 200
  }

  /** data.get('items', []). */
  function ItemsOf(o: FetchOutcome): seq<Question>
    requires o.FetchResponse?
  {
    if o.items.Some? then o.items.value else []
  }

  /** The items whose str(question_id) is not in `seen`, in the order the API returned them. */
  function Unseen(items: seq<Question>, seen: set<string>): (r: seq<Question>)
    ensures |r| <= |items|
  {
    if items == [] then []
    else
      var last := items[|items| - 1];
      Unseen(items[..|items| - 1], seen) + (if IdKey(last) in seen then [] else [last])
  }

  /** Filtering distributes over concatenation, so it keeps the API's order. */
  lemma {:induction false} UnseenAppend(a: seq<Question>, b: seq<Question>, seen: set<string>)
    ensures Unseen(a + b, seen) == Unseen(a, seen) + Unseen(b, seen)
    decreases |b|
  {
    if b == [] {
      assert a + b == a;
    } else {
      var b' := b[..|b| - 1];
      assert (a + b)[..|a + b| - 1] == a + b';
      UnseenAppend(a, b', seen);
    }
  }

  /** A question is kept exactly when it is among the items and its key is not in `seen`. */
  lemma {:induction false} UnseenMembers(items: seq<Question>, seen: set<string>, q: Question)
    ensures q in Unseen(items, seen) <==> q in items && IdKey(q) !in seen
  {
    if items != [] {
      var init := items[..|items| - 1];
      UnseenMembers(init, seen, q);
      assert items == init + [items[|items| - 1]];
    }
  }

  /** The pause after attempt `a`: 30 seconds after an exception, except after the last attempt. */
  function PauseAfter(o: FetchOutcome, a: nat): nat {
    if o.FetchRaised? && a < MaxRetries - 1 then FetchRetrySleep else 0
  }

  /** The comprehension that drops the questions already in `seen`, one item at a time. */
  method FilterUnseen(items: seq<Question>, seen: set<string>) returns (all: seq<Question>)
    ensures all == Unseen(items, seen)
  {
    all := [];
    for k := 0 to |items|
      invariant all == Unseen(items[..k], seen)
    {
      if IdKey(items[k]) !in seen {
        all := all + [items[k]];
      }
      assert items[..k + 1] == items[..k] + [items[k]];
    }
    assert items[..|items|] == items;
  }

  /** What get_stack_questions returns, and the time it slept after each attempt it made. */
  datatype Fetched = Fetched(result: Option<seq<Question>>, pauses: seq<nat>)

  /**
   * The attempts of get_stack_questions from attempt `a` on: the first 200 response gives the
   * unseen items; any other outcome pauses and tries again, until the third attempt.
   */
  function FetchFrom(respond: nat -> FetchOutcome, seen: set<string>, a: nat): Fetched
    decreases MaxRetries - a
  {
    if a >= MaxRetries then Fetched(None, [])
    else if Succeeded(respond(a)) then Fetched(Some(Unseen(ItemsOf(respond(a)), seen)), [0])
    else
      var rest := FetchFrom(respond, seen, a + 1);
      Fetched(rest.result, [PauseAfter(respond(a), a)] + rest.pauses)
  }

  /** get_stack_questions as a function of what its attempts produce. */
  function Fetch(respond: nat -> FetchOutcome, seen: set<string>): Fetched {
    FetchFrom(respond, seen, 0)
  }

  /** get_stack_questions resumed at attempt `a`, with `pauses` already slept. */
  function Resume(respond: nat -> FetchOutcome, seen: set<string>, a: nat, pauses: seq<nat>): Fetched {
    var rest := FetchFrom(respond, seen, a);
    Fetched(rest.result, pauses + rest.pauses)
  }

  /** A failed attempt pauses and moves on to the next one. */
  lemma ResumeFailed(respond: nat -> FetchOutcome, seen: set<string>, a: nat, pauses: seq<nat>)
    requires a < MaxRetries && !Succeeded(respond(a))
    ensures Resume(respond, seen, a, pauses)
         == Resume(respond, seen, a + 1, pauses + [PauseAfter(respond(a), a)])
  {
    var rest := FetchFrom(respond, seen, a + 1);
    assert pauses + ([PauseAfter(respond(a), a)] + rest.pauses)
        == (pauses + [PauseAfter(respond(a), a)]) + rest.pauses;
  }

  /**
   * The attempts from `a` on: at least one is made, every one but the last failed, and the pause
   * after each is 30 seconds after an exception, unless it was the last attempt.
   */
  lemma {:induction false} FetchFromPauses(respond: nat -> FetchOutcome, seen: set<string>, a: nat)
    requires a <= MaxRetries
    ensures var f := FetchFrom(respond, seen, a);
      && (a < MaxRetries ==> 1 <= |f.pauses|)
      && |f.pauses| <= MaxRetries - a
      && (forall b :: a <= b < a + |f.pauses| - 1 ==> !Succeeded(respond(b)))
      && (forall b :: a <= b < a + |f.pauses| ==> f.pauses[b - a] == PauseAfter(respond(b), b))
    decreases MaxRetries - a
  {
    if a < MaxRetries && !Succeeded(respond(a)) {
      FetchFromPauses(respond, seen, a + 1);
      var rest := FetchFrom(respond, seen, a + 1);
      var f := FetchFrom(respond, seen, a);
      assert f.pauses == [PauseAfter(respond(a), a)] + rest.pauses;
      forall b | a <= b < a + |f.pauses| ensures f.pauses[b - a] == PauseAfter(respond(b), b) {
        if b > a { assert f.pauses[b - a] == rest.pauses[b - (a + 1)]; }
      }
    }
  }

  /**
   * The attempts from `a` on give None exactly when none of them succeeds, after all of them were
   * made; otherwise the unseen items of the last attempt, which succeeded.
   */
  lemma {:induction false} FetchFromResult(respond: nat -> FetchOutcome, seen: set<string>, a: nat)
    requires a <= MaxRetries
    ensures var f := FetchFrom(respond, seen, a);
      && (f.result.None? <==> forall b :: a <= b < MaxRetries ==> !Succeeded(respond(b)))
      && (f.result.None? ==> |f.pauses| == MaxRetries - a)
      && (f.result.Some? ==>
            Succeeded(respond(a + |f.pauses| - 1))
            && f.result.value == Unseen(ItemsOf(respond(a + |f.pauses| - 1)), seen))
    decreases MaxRetries - a
  {
    if a < MaxRetries && !Succeeded(respond(a)) {
      FetchFromResult(respond, seen, a + 1);
    }
  }

  /** The fetch makes one to three attempts, every one but the last failed, and it pauses after each as the attempt requires. */
  lemma FetchPauses(respond: nat -> FetchOutcome, seen: set<string>,
                    result: Option<seq<Question>>, pauses: seq<nat>)
    requires Fetched(result, pauses) == Fetch(respond, seen)
    ensures 1 <= |pauses| <= MaxRetries
    ensures forall a :: 0 <= a < |pauses| - 1 ==> !Succeeded(respond(a))
    ensures forall a :: 0 <= a < |pauses| ==> pauses[a] == PauseAfter(respond(a), a)
  {
    FetchFromPauses(respond, seen, 0);
  }

  /**
   * The fetch gives None exactly when none of the three attempts succeeds, after all three;
   * otherwise the unseen items of its last attempt, which succeeded.
   */
  lemma FetchResult(respond: nat -> FetchOutcome, seen: set<string>,
                    result: Option<seq<Question>>, pauses: seq<nat>)
    requires Fetched(result, pauses) == Fetch(respond, seen)
    ensures result.None? <==> forall a :: 0 <= a < MaxRetries ==> !Succeeded(respond(a))
    ensures result.None? ==> |pauses| == MaxRetries
    ensures result.Some? ==>
      Succeeded(respond(|pauses| - 1)) && result.value == Unseen(ItemsOf(respond(|pauses| - 1)), seen)
  {
    FetchFromResult(respond, seen, 0);
  }

  /**
   * get_stack_questions. `respond(a)` is what attempt `a` produced; `pauses[a]` is the time slept
   * after attempt `a`. What the function Fetch gives; FetchPauses and FetchResult say what that is.
   */
  method GetStackQuestions(respond: nat -> FetchOutcome, seen: set<string>)
    returns (result: Option<seq<Question>>, attempts: nat, pauses: seq<nat>)
    ensures Fetched(result, pauses) == Fetch(respond, seen) && |pauses| == attempts
  {
    pauses := [];
    attempts := 0;
    assert [] + FetchFrom(respond, seen, 0).pauses == FetchFrom(respond, seen, 0).pauses;
    while attempts < MaxRetries
      invariant attempts <= MaxRetries && |pauses| == attempts
      invariant Fetch(respond, seen) == Resume(respond, seen, attempts, pauses)
    {
      var outcome := respond(attempts);
      if outcome.FetchResponse? && outcome.status == 200 {
        var all := FilterUnseen(if outcome.items.Some? then outcome.items.value else [], seen);
        pauses := pauses + [0];
        return Some(all), attempts + 1, pauses;
      }
      var pause := 0;
      if outcome.FetchRaised? && attempts < MaxRetries - 1 {
        pause := FetchRetrySleep;
      }
      ResumeFailed(respond, seen, attempts, pauses);
      pauses := pauses + [pause];
      attempts := attempts + 1;
    }
    result := None;
    assert pauses + [] == pauses;
  }

  /** One element of the "items" array of the answer response: its answer_id, when present. */
  datatype AnswerItem = AnswerItem(answerId: Option<nat>)

  /** What the answer request produced: an exception, or a response with its status and "items". */
  datatype PostOutcome =
    | PostRaised
    | PostResponse(status: int, items: Option<seq<AnswerItem>>)

  /** post_answer: the answer_id of the first item of a 200 response with a non-empty "items"; None otherwise. */
  function PostAnswer(o: PostOutcome): (r: Option<nat>)
    ensures r.Some? <==>
      && o.PostResponse? && o.status == 200
      && o.items.Some? && |o.items.value| > 0
      && o.items.value[0].answerId.Some?
    ensures r.Some? ==> r == o.items.value[0].answerId
  {
    match o
    case PostRaised => None
    case PostResponse(status, items) =>
      if status == 200 then
        if items.Some? && |items.value| > 0 then items.value[0].answerId
        else None
      else None
  }
}
