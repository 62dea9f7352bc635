/**
 * One cycle of the bot's main loop: the daily-quota gate, the site list, the dedup set, and for
 * each site the fetch and the per-question handling (filter, dedup check, generation, posting,
 * recording, pacing). What the outside world answers is an Env; what the cycle does is a trace
 * of events, and the history file it leaves behind.
 */
module Orchestrator {
  import opened Wrappers
  import opened Text
  import opened Timestamps
  import opened Config
  import opened Questions
  import opened History
  import opened StackApi
  import opened Sites

  /** What random.randint(min_sleep_seconds, max_sleep_seconds) can return. */
  type PaceSeconds = d: nat | MinSleepSeconds <= d <= MaxSleepSeconds witness 3600

  /** What get_chatgpt_answer produced: an exception with its message, or the completion's content (None for a null). */
  datatype GenOutcome = GenRaised(message: string) | Completion(content: Option<string>)

  /**
   * The answers of the outside world during one cycle, indexed by the position of the site in
   * the site list and by the attempt (for the fetch) or by the position of the question in the
   * fetched list (for everything else).
   */
  datatype Env = Env(
    fetch: (nat, nat) -> FetchOutcome,
    generate: (nat, nat, string) -> GenOutcome,
    post: (nat, nat) -> PostOutcome,
    clock: (nat, nat) -> Timestamp,
    canWrite: (nat, nat) -> bool,
    pace: (nat, nat) -> PaceSeconds,
    backoffFails: (nat, nat) -> bool)

  /** What the cycle does that the outside world can see. */
  datatype Event =
    | Slept(seconds: nat)
    | Posted(site: string, question: Question, text: string, answerId: Option<nat>)
    | Saved(record: Record, written: bool)

  /** A post that `if answer_id:` treats as done. */
  predicate Answered(e: Event) {
    e.Posted? && e.answerId.Some? && e.answerId.value != 0
  }

  /** The keys the cycle adds to commented_questions: those of the answered posts. */
  function SuccessKeys(t: seq<Event>): set<string> {
    if t == [] then {}
    else
      var e := t[|t| - 1];
      SuccessKeys(t[..|t| - 1]) + (if Answered(e) then {IdKey(e.question)} else {})
  }

  /** The records the cycle appended to the history file: those whose write succeeded. */
  function Written(t: seq<Event>): seq<Record> {
    if t == [] then []
    else
      var e := t[|t| - 1];
      Written(t[..|t| - 1]) + (if e.Saved? && e.written then [e.record] else [])
  }

  /** The record save_comment_link writes for an answered post: its site, its question's title, its answer link. */
  predicate RecordFor(p: Event, r: Record)
    requires Answered(p)
  {
    r.site == p.site && p.question.title == Some(r.title) && r.link == AnswerLink(p.site, p.answerId.value)
  }

  /**
   * The rules each event keeps with the events before it: a post is made only for an eligible
   * question whose key is neither in the initial dedup set nor answered earlier, with a non-empty
   * text; a record is saved exactly right after an answered post, and is that post's record; the
   * step after a record is the pacing sleep.
   */
  predicate Step(seen0: set<string>, before: seq<Event>, e: Event) {
    var last := if before == [] then None else Some(before[|before| - 1]);
    && (e.Posted? ==> IsValidQuestion(e.question) && IdKey(e.question) !in seen0 + SuccessKeys(before) && e.text != [])
    && (e.Saved? <==> last.Some? && Answered(last.value))
    && (e.Saved? ==> RecordFor(last.value, e.record))
    && (last.Some? && last.value.Saved? ==> e.Slept? && MinSleepSeconds <= e.seconds <= MaxSleepSeconds)
  }

  /** Every event of `t` keeps the rules with the events before it, starting from the dedup set `seen0`. */
  predicate Trace(seen0: set<string>, t: seq<Event>) {
    t == [] || (Trace(seen0, t[..|t| - 1]) && Step(seen0, t[..|t| - 1], t[|t| - 1]))
  }

  /** No answered post is waiting for its record, and no record for its pacing sleep. */
  predicate Settled(t: seq<Event>) {
    t == [] || (!Answered(t[|t| - 1]) && !t[|t| - 1].Saved?)
  }

  // ---------------------------------------------------------------------------
  // Algebra of traces
  // ---------------------------------------------------------------------------

  lemma {:induction false} SuccessKeysAppend(a: seq<Event>, b: seq<Event>)
    ensures SuccessKeys(a + b) == SuccessKeys(a) + SuccessKeys(b)
    decreases |b|
  {
    if b == [] {
      assert a + b == a;
    } else {
      assert (a + b)[..|a + b| - 1] == a + b[..|b| - 1];
      SuccessKeysAppend(a, b[..|b| - 1]);
    }
  }

  lemma {:induction false} WrittenAppend(a: seq<Event>, b: seq<Event>)
    ensures Written(a + b) == Written(a) + Written(b)
    decreases |b|
  {
    if b == [] {
      assert a + b == a;
    } else {
      assert (a + b)[..|a + b| - 1] == a + b[..|b| - 1];
      WrittenAppend(a, b[..|b| - 1]);
    }
  }

  lemma TraceExtend(seen0: set<string>, t: seq<Event>, e: Event)
    ensures Trace(seen0, t + [e]) <==> Trace(seen0, t) && Step(seen0, t, e)
  {
    assert (t + [e])[..|t|] == t;
  }

  /**
   * A settled trace from `seen0` followed by a trace from the dedup set it leads to is a trace
   * from `seen0`: the cycle's pieces compose.
   */
  lemma {:induction false} TraceConcat(seen0: set<string>, a: seq<Event>, b: seq<Event>)
    requires Trace(seen0, a) && Settled(a)
    requires Trace(seen0 + SuccessKeys(a), b)
    ensures Trace(seen0, a + b)
    ensures Settled(b) ==> Settled(a + b)
    decreases |b|
  {
    if b == [] {
      assert a + b == a;
    } else {
      var b', e := b[..|b| - 1], b[|b| - 1];
      assert a + b == (a + b') + [e];
      TraceConcat(seen0, a, b');
      SuccessKeysAppend(a, b');
      assert Step(seen0 + SuccessKeys(a), b', e);
      if b' == [] {
        assert a + b' == a;
      } else {
        assert (a + b')[|a + b'| - 1] == b'[|b'| - 1];
      }
      TraceExtend(seen0, a + b', e);
    }
  }

  /** Sleeps alone make a settled trace that answers and writes nothing. */
  lemma {:induction false} SleepsTrace(seen0: set<string>, t: seq<Event>)
    requires forall k :: 0 <= k < |t| ==> t[k].Slept?
    ensures Trace(seen0, t) && Settled(t) && SuccessKeys(t) == {} && Written(t) == []
    decreases |t|
  {
    if t != [] {
      var t' := t[..|t| - 1];
      SleepsTrace(seen0, t');
    }
  }

  /** Every prefix of a trace is a trace, and the event after it keeps the rules with it. */
  lemma {:induction false} TracePrefix(seen0: set<string>, t: seq<Event>, k: nat)
    requires Trace(seen0, t) && k < |t|
    ensures Trace(seen0, t[..k]) && Step(seen0, t[..k], t[k])
    decreases |t|
  {
    if k < |t| - 1 {
      var t' := t[..|t| - 1];
      TracePrefix(seen0, t', k);
      assert t'[..k] == t[..k] && t'[k] == t[k];
    }
  }

  /** The key of every answered post of `t` is among the success keys of `t`. */
  lemma {:induction false} SuccessKeysCover(t: seq<Event>, i: nat)
    requires i < |t| && Answered(t[i])
    ensures IdKey(t[i].question) in SuccessKeys(t)
    decreases |t|
  {
    if i < |t| - 1 {
      SuccessKeysCover(t[..|t| - 1], i);
    }
  }

  // ---------------------------------------------------------------------------
  // What a cycle guarantees
  // ---------------------------------------------------------------------------

  /** post_answer is called only for an eligible question that was not commented on, with a non-empty answer. */
  lemma PostsAreEligible(seen0: set<string>, t: seq<Event>, i: nat)
    requires Trace(seen0, t) && i < |t| && t[i].Posted?
    ensures IsValidQuestion(t[i].question) && IdKey(t[i].question) !in seen0 && t[i].text != []
  {
    TracePrefix(seen0, t, i);
  }

  /** An id whose post succeeded is never posted again in the same cycle. */
  lemma NoRepeatedAnswer(seen0: set<string>, t: seq<Event>, i: nat, k: nat)
    requires Trace(seen0, t) && i < k < |t|
    requires Answered(t[i]) && t[k].Posted?
    ensures t[i].question.id != t[k].question.id
  {
    TracePrefix(seen0, t, k);
    assert t[..k][i] == t[i];
    SuccessKeysCover(t[..k], i);
    IdKeyInjective(t[i].question, t[k].question);
  }

  /** A record is saved only right after an answered post, and it is that post's record. */
  lemma SavedOnlyAfterAnswer(seen0: set<string>, t: seq<Event>, i: nat)
    requires Trace(seen0, t) && i < |t| && t[i].Saved?
    ensures i > 0 && Answered(t[i - 1]) && RecordFor(t[i - 1], t[i].record)
  {
    TracePrefix(seen0, t, i);
  }

  /** Every answered post is followed by its record and then by a pause of one to two hours. */
  lemma AnswerIsRecordedAndPaced(seen0: set<string>, t: seq<Event>, i: nat)
    requires Trace(seen0, t) && Settled(t) && i < |t| && Answered(t[i])
    ensures i + 2 < |t|
    ensures t[i + 1].Saved? && RecordFor(t[i], t[i + 1].record)
    ensures t[i + 2].Slept? && MinSleepSeconds <= t[i + 2].seconds <= MaxSleepSeconds
  {
    TracePrefix(seen0, t, i + 1);
    assert t[..i + 1][i] == t[i];
    TracePrefix(seen0, t, i + 2);
    assert t[..i + 2][i + 1] == t[i + 1];
  }

  // ---------------------------------------------------------------------------
  // What the next cycle reads back
  // ---------------------------------------------------------------------------

  /** A post whose site and title excerpt stay on one line. */
  predicate PlainPost(e: Event)
    requires e.Posted?
  {
    '\n' !in e.site && (e.question.title.Some? ==> '\n' !in Take(e.question.title.value, 50))
  }

  predicate PlainPosts(t: seq<Event>) {
    forall k :: 0 <= k < |t| && t[k].Posted? ==> PlainPost(t[k])
  }

  /**
   * No post's site holds a '/', and no post's title excerpt holds one of the two question-link
   * patterns, which would make its title line read as a question link.
   */
  predicate LinkFreePosts(t: seq<Event>) {
    forall k :: 0 <= k < |t| && t[k].Posted? ==>
      '/' !in t[k].site
      && (t[k].question.title.Some? ==> !IsQuestionLinkLine(Take(t[k].question.title.value, 50)))
  }

  /** The records a trace writes are records of its answered, plain posts. */
  lemma {:induction false} WrittenSavable(seen0: set<string>, t: seq<Event>)
    requires Trace(seen0, t) && PlainPosts(t)
    ensures forall i :: 0 <= i < |Written(t)| ==> Savable(Written(t)[i])
    ensures LinkFreePosts(t) ==> forall i :: 0 <= i < |Written(t)| ==>
      '/' !in Written(t)[i].site && !IsQuestionLinkLine(Take(Written(t)[i].title, 50))
    decreases |t|
  {
    if t != [] {
      var init, e := t[..|t| - 1], t[|t| - 1];
      assert forall k :: 0 <= k < |init| ==> init[k] == t[k];
      WrittenSavable(seen0, init);
      if e.Saved? && e.written {
        var p := init[|init| - 1];
        assert p == t[|t| - 2];
        assert e.record.link == AnswerLink(e.record.site, p.answerId.value);
      }
    }
  }

  /**
   * The daily counter of the next cycle sees what it saw before this one, plus one line for each
   * record this cycle wrote with today's date.
   */
  lemma NextCycleCount(seen0: set<string>, history: HistoryFile, t: seq<Event>, today: Date)
    requires Trace(seen0, t) && PlainPosts(t) && EndsLine(Content(history))
    ensures EndsLine(Content(SaveAll(history, Written(t))))
    ensures CountToday(Lines(Content(SaveAll(history, Written(t)))), today)
      == CountToday(Lines(Content(history)), today) + TodayCount(Written(t), today)
  {
    WrittenSavable(seen0, t);
    SaveAllCount(history, Written(t), today);
  }

  /**
   * The saved links have the /a/ form, which load_commented_questions does not read: when no site
   * holds a '/' and no title excerpt a question-link pattern, the next cycle starts from the same
   * dedup set as this one.
   */
  lemma NextCycleForgets(seen0: set<string>, history: HistoryFile, t: seq<Event>)
    requires Trace(seen0, t) && PlainPosts(t) && LinkFreePosts(t) && EndsLine(Content(history))
    ensures DedupKeys(Lines(Content(SaveAll(history, Written(t))))) == DedupKeys(Lines(Content(history)))
  {
    WrittenSavable(seen0, t);
    SaveAllKeys(history, Written(t));
  }

  /** So a question answered in this cycle is not in the dedup set of the next one, and can be answered again. */
  lemma AnsweredIsForgotten(history: HistoryFile, t: seq<Event>, i: nat)
    requires Trace(DedupKeys(Lines(Content(history))), t) && PlainPosts(t) && LinkFreePosts(t)
    requires EndsLine(Content(history))
    requires i < |t| && Answered(t[i])
    ensures IdKey(t[i].question) !in DedupKeys(Lines(Content(SaveAll(history, Written(t)))))
  {
    PostsAreEligible(DedupKeys(Lines(Content(history))), t, i);
    NextCycleForgets(DedupKeys(Lines(Content(history))), history, t);
  }

  // ---------------------------------------------------------------------------
  // One question
  // ---------------------------------------------------------------------------

  /** The prompt built from the question's title and body. */
  function Prompt(q: Question): string
    requires q.title.Some? && q.body.Some?
  {
    "Question Title: " + q.title.value + "\n\nQuestion Body: " + q.body.value
  }

  /** "rate limit" in error_message.lower(). */
  predicate IsRateLimit(message: string) {
    Contains(Lower(message), "rate limit")
  }

  /** str(KeyError('body')): what the loop sees when the question has no body. */
  const MissingBodyMessage: string := "'body'"

  lemma MissingBodyIsNotRateLimit()
    ensures !IsRateLimit(MissingBodyMessage)
  {
    var l := Lower(MissingBodyMessage);
    assert |l| == 6;
    assert forall i :: 0 <= i ==> !OccursAt(l, "rate limit", i);
  }

  /** The outcome of handling one question: what it did, and the dedup set, history file and loop flag after it. */
  datatype Handled = Handled(events: seq<Event>, seen: set<string>, history: HistoryFile, stop: bool)

  /** Every post of `t` is on `site` and answers `q`. */
  predicate PostsFor(t: seq<Event>, site: string, q: Question) {
    forall k :: 0 <= k < |t| && t[k].Posted? ==> t[k].site == site && t[k].question == q
  }

  /** Every post of `t` is on one of `sites`. */
  predicate PostsOn(t: seq<Event>, sites: set<string>) {
    forall k :: 0 <= k < |t| && t[k].Posted? ==> t[k].site in sites
  }

  lemma PostsOnAppend(a: seq<Event>, b: seq<Event>, sites: set<string>)
    requires PostsOn(a, sites) && PostsOn(b, sites)
    ensures PostsOn(a + b, sites)
  {
    forall k | 0 <= k < |a + b| && (a + b)[k].Posted?
      ensures (a + b)[k].site in sites
    {
      if k >= |a| {
        assert (a + b)[k] == b[k - |a|];
      }
    }
  }

  /**
   * The except branch of the question loop. handle_rate_limit returns False only when its try
   * block raises, in its warning log or in its sleep; `backoffFails` says whether it does.
   */
  function OnError(env: Env, s: nat, j: nat, message: string, seen: set<string>, history: HistoryFile): (h: Handled)
    ensures h.stop <==> IsRateLimit(message) && env.backoffFails(s, j)
    ensures h.stop ==> h.events == []
    ensures !IsRateLimit(message) ==> h.events == [Slept(ErrorSleep)]
    ensures IsRateLimit(message) && !h.stop ==> h.events == [Slept(RateLimitSleep)]
    ensures h.seen == seen && h.history == history
  {
    if IsRateLimit(message) then
      if env.backoffFails(s, j) then Handled([], seen, history, true)
      else Handled([Slept(RateLimitSleep)], seen, history, false)
    else Handled([Slept(ErrorSleep)], seen, history, false)
  }

  /** The except branch for the KeyError of a question without a body: the one-minute error sleep. */
  function OnMissingBody(seen: set<string>, history: HistoryFile): (h: Handled)
    ensures h.events == [Slept(ErrorSleep)] && !h.stop && h.seen == seen && h.history == history
  {
    Handled([Slept(ErrorSleep)], seen, history, false)
  }

  /** It is the except branch run on the message of that KeyError, which is not a rate-limit message. */
  lemma MissingBodyIsError(env: Env, s: nat, j: nat, seen: set<string>, history: HistoryFile)
    ensures OnMissingBody(seen, history) == OnError(env, s, j, MissingBodyMessage, seen, history)
  {
    MissingBodyIsNotRateLimit();
  }

  /**
   * After a non-empty answer was generated: post it, and when the post returns a non-zero
   * answer_id, save the record and pace the next answer.
   */
  function PostAndRecord(env: Env, s: nat, j: nat, site: string, q: Question, text: string, seen: set<string>, history: HistoryFile): (h: Handled)
    requires q.title.Some?
    ensures PostsFor(h.events, site, q)
    ensures !h.stop && h.events != [] && h.events[0].Posted?
  {
    var answerId := PostAnswer(env.post(s, j));
    var posted := Posted(site, q, text, answerId);
    if answerId.Some? && answerId.value != 0 then
      var r := Record(env.clock(s, j), site, q.title.value, AnswerLink(site, answerId.value));
      var w := env.canWrite(s, j);
      Handled([posted, Saved(r, w), Slept(env.pace(s, j))], seen + {IdKey(q)}, SaveCommentLink(history, r, w), false)
    else Handled([posted], seen, history, false)
  }

  /** The body of the question loop for the question at position `j` of site `s`. */
  function HandleQuestion(env: Env, s: nat, j: nat, site: string, q: Question, seen: set<string>, history: HistoryFile): (h: Handled)
    ensures PostsFor(h.events, site, q)
    ensures h.stop ==> h.events == [] && env.backoffFails(s, j)
  {
    if !IsValidQuestion(q) || IdKey(q) in seen then Handled([], seen, history, false)
    else if q.body.None? then OnMissingBody(seen, history)
    else
      match env.generate(s, j, Prompt(q))
      case GenRaised(message) => OnError(env, s, j, message, seen, history)
      case Completion(content) =>
        if content.None? || content.value == [] then Handled([], seen, history, false)
        else PostAndRecord(env, s, j, site, q, content.value, seen, history)
  }

  /**
   * The question loop breaks exactly when an eligible, unseen question with a body got a
   * rate-limit error from the answer generator and the backoff sleep then raised. A missing body
   * is an error too, but its message is not a rate-limit message.
   */
  lemma HandleQuestionStops(env: Env, s: nat, j: nat, site: string, q: Question, seen: set<string>, history: HistoryFile)
    ensures HandleQuestion(env, s, j, site, q, seen, history).stop <==>
      && IsValidQuestion(q) && IdKey(q) !in seen && q.body.Some?
      && env.generate(s, j, Prompt(q)).GenRaised?
      && IsRateLimit(env.generate(s, j, Prompt(q)).message) && env.backoffFails(s, j)
  {
  }

  /**
   * An eligible, unseen question with a body whose generation gives a non-empty text is posted
   * with that text. A non-zero answer_id then adds the record, the pacing sleep and the question's
   * key; any other answer_id leaves the post alone, and the dedup set and the file as they were.
   */
  lemma HandleQuestionPosts(env: Env, s: nat, j: nat, site: string, q: Question, seen: set<string>,
                            history: HistoryFile, text: string)
    requires IsValidQuestion(q) && IdKey(q) !in seen && q.body.Some?
    requires env.generate(s, j, Prompt(q)) == Completion(Some(text)) && text != []
    ensures var h := HandleQuestion(env, s, j, site, q, seen, history);
      && !h.stop && h.events != []
      && h.events[0] == Posted(site, q, text, PostAnswer(env.post(s, j)))
      && (Answered(h.events[0]) ==>
            && |h.events| == 3
            && h.events[1] == Saved(Record(env.clock(s, j), site, q.title.value,
                                           AnswerLink(site, h.events[0].answerId.value)), env.canWrite(s, j))
            && h.events[2] == Slept(env.pace(s, j))
            && h.seen == seen + {IdKey(q)}
            && h.history == SaveCommentLink(history, h.events[1].record, env.canWrite(s, j)))
      && (!Answered(h.events[0]) ==> |h.events| == 1 && h.seen == seen && h.history == history)
  {
    var h := HandleQuestion(env, s, j, site, q, seen, history);
    assert h == PostAndRecord(env, s, j, site, q, text, seen, history);
  }

  /** A single sleep, or a single post that was not answered, is a settled trace that answers and writes nothing. */
  lemma SingleEventTrace(seen: set<string>, e: Event)
    requires e.Slept? || (e.Posted? && !Answered(e) && IsValidQuestion(e.question) && IdKey(e.question) !in seen && e.text != [])
    ensures Trace(seen, [e]) && Settled([e]) && SuccessKeys([e]) == {} && Written([e]) == []
  {
    assert [] + [e] == [e];
    assert Step(seen, [], e);
    TraceExtend(seen, [], e);
    SuccessKeysAppend([], [e]);
    WrittenAppend([], [e]);
  }

  /** An answered post, its record and the pacing sleep make a settled trace that answers the post's question and writes the record when the write succeeds. */
  lemma AnsweredTrace(seen: set<string>, p: Event, r: Record, w: bool, d: PaceSeconds)
    requires Answered(p) && IsValidQuestion(p.question) && IdKey(p.question) !in seen && p.text != []
    requires RecordFor(p, r)
    ensures var t := [p, Saved(r, w), Slept(d)];
      && Trace(seen, t) && Settled(t)
      && SuccessKeys(t) == {IdKey(p.question)}
      && Written(t) == if w then [r] else []
  {
    var v, z := Saved(r, w), Slept(d);
    assert [] + [p] == [p] && [p] + [v] == [p, v] && [p, v] + [z] == [p, v, z];
    assert Step(seen, [], p);
    TraceExtend(seen, [], p);
    SuccessKeysAppend([], [p]);
    WrittenAppend([], [p]);
    assert Step(seen, [p], v);
    TraceExtend(seen, [p], v);
    SuccessKeysAppend([p], [v]);
    WrittenAppend([p], [v]);
    assert Step(seen, [p, v], z);
    TraceExtend(seen, [p, v], z);
    SuccessKeysAppend([p, v], [z]);
    WrittenAppend([p, v], [z]);
  }

  /** The except branch keeps the trace rules and changes neither the dedup set nor the file. */
  lemma OnErrorTrace(env: Env, s: nat, j: nat, message: string, seen: set<string>, history: HistoryFile)
    ensures var h := OnError(env, s, j, message, seen, history);
      && Trace(seen, h.events) && Settled(h.events)
      && h.seen == seen + SuccessKeys(h.events)
      && h.history == SaveAll(history, Written(h.events))
  {
    var h := OnError(env, s, j, message, seen, history);
    if h.events != [] {
      SingleEventTrace(seen, h.events[0]);
      assert h.events == [h.events[0]];
    }
  }

  /** Posting a non-empty answer to an eligible, unseen question keeps the trace rules. */
  lemma PostAndRecordTrace(env: Env, s: nat, j: nat, site: string, q: Question, text: string, seen: set<string>, history: HistoryFile)
    requires IsValidQuestion(q) && IdKey(q) !in seen && text != []
    ensures var h := PostAndRecord(env, s, j, site, q, text, seen, history);
      && Trace(seen, h.events) && Settled(h.events)
      && h.seen == seen + SuccessKeys(h.events)
      && h.history == SaveAll(history, Written(h.events))
  {
    var answerId := PostAnswer(env.post(s, j));
    var posted := Posted(site, q, text, answerId);
    if answerId.Some? && answerId.value != 0 {
      var r := Record(env.clock(s, j), site, q.title.value, AnswerLink(site, answerId.value));
      AnsweredTrace(seen, posted, r, env.canWrite(s, j), env.pace(s, j));
    } else {
      SingleEventTrace(seen, posted);
    }
  }

  /**
   * Handling one question keeps the trace rules from the current dedup set, leaves no pending
   * step, adds to the dedup set exactly the keys it answered, and appends to the history exactly
   * the records whose write succeeded.
   */
  lemma HandleQuestionTrace(env: Env, s: nat, j: nat, site: string, q: Question, seen: set<string>, history: HistoryFile)
    ensures var h := HandleQuestion(env, s, j, site, q, seen, history);
      && Trace(seen, h.events) && Settled(h.events)
      && h.seen == seen + SuccessKeys(h.events)
      && h.history == SaveAll(history, Written(h.events))
  {
    var h := HandleQuestion(env, s, j, site, q, seen, history);
    if !IsValidQuestion(q) || IdKey(q) in seen {
      assert h.events == [];
    } else if q.body.None? {
      assert h == OnMissingBody(seen, history);
      SingleEventTrace(seen, Slept(ErrorSleep));
    } else {
      match env.generate(s, j, Prompt(q))
      case GenRaised(message) =>
        assert h == OnError(env, s, j, message, seen, history);
        OnErrorTrace(env, s, j, message, seen, history);
      case Completion(content) =>
        if content.Some? && content.value != [] {
          assert h == PostAndRecord(env, s, j, site, q, content.value, seen, history);
          PostAndRecordTrace(env, s, j, site, q, content.value, seen, history);
        } else {
          assert h.events == [];
        }
    }
  }

  // ---------------------------------------------------------------------------
  // One site and one cycle
  // ---------------------------------------------------------------------------

  /**
   * Appending a settled piece run from the dedup set and file reached so far keeps the invariants
   * of the site and cycle loops.
   */
  lemma ExtendRun(seen0: set<string>, history0: HistoryFile, t: seq<Event>, seen: set<string>, history: HistoryFile,
                  u: seq<Event>, seen1: set<string>, history1: HistoryFile)
    requires Trace(seen0, t) && Settled(t) && seen == seen0 + SuccessKeys(t) && history == SaveAll(history0, Written(t))
    requires Trace(seen, u) && Settled(u) && seen1 == seen + SuccessKeys(u) && history1 == SaveAll(history, Written(u))
    ensures Trace(seen0, t + u) && Settled(t + u)
    ensures seen1 == seen0 + SuccessKeys(t + u)
    ensures history1 == SaveAll(history0, Written(t + u))
  {
    TraceConcat(seen0, t, u);
    SuccessKeysAppend(t, u);
    WrittenAppend(t, u);
    SaveAllAppend(history0, Written(t), Written(u));
  }

  /** The sleeps of the fetch step: one for each attempt that paused. */
  function FetchSleeps(pauses: seq<nat>): (t: seq<Event>)
    ensures forall k :: 0 <= k < |t| ==> t[k].Slept? && t[k].seconds > 0
  {
    if pauses == [] then []
    else
      var p := pauses[|pauses| - 1];
      FetchSleeps(pauses[..|pauses| - 1]) + (if p > 0 then [Slept(p)] else [])
  }

  /** The fetch for the site at position `s`: attempt `a` gets what the outside world answers it. */
  function SiteFetch(env: Env, s: nat): nat -> FetchOutcome {
    (a: nat) => env.fetch(s, a)
  }

  /** Events `t`, followed by what `r` did, ending where `r` ended. */
  function After(t: seq<Event>, r: Handled): Handled {
    Handled(t + r.events, r.seen, r.history, r.stop)
  }

  /** The body of `for question in questions`, given the position and the question, the dedup set and the file. */
  type Handler = (nat, Question, set<string>, HistoryFile) -> Handled

  /** The loop body for the questions of the site at position `s`. */
  function QuestionHandler(env: Env, s: nat, site: string): Handler {
    (j: nat, q: Question, seen: set<string>, history: HistoryFile) => HandleQuestion(env, s, j, site, q, seen, history)
  }

  /**
   * `for question in questions` from position `j` of `qs` on: each question is handled in turn,
   * from the dedup set and file the ones before it left, until the list ends or a handler breaks
   * the loop.
   */
  function QuestionLoop(handle: Handler, qs: seq<Question>, j: nat, seen: set<string>, history: HistoryFile): Handled
    requires j <= |qs|
    decreases |qs| - j
  {
    if j == |qs| then Handled([], seen, history, false)
    else
      var h := handle(j, qs[j], seen, history);
      if h.stop then h
      else After(h.events, QuestionLoop(handle, qs, j + 1, h.seen, h.history))
  }

  /** The body of `for site in sites`: the fetch's sleeps, then the question loop over what it returned. */
  function SiteRun(env: Env, s: nat, site: string, seen: set<string>, history: HistoryFile): Handled {
    var f := Fetch(SiteFetch(env, s), seen);
    if f.result.None? then Handled(FetchSleeps(f.pauses), seen, history, false)
    else After(FetchSleeps(f.pauses), QuestionLoop(QuestionHandler(env, s, site), f.result.value, 0, seen, history))
  }

  /** The body of `for site in sites`, given the position and the site, the dedup set and the file. */
  type SiteHandler = (nat, string, set<string>, HistoryFile) -> Handled

  /** The loop body for the sites of one cycle. */
  function SiteHandlerOf(env: Env): SiteHandler {
    (s: nat, site: string, seen: set<string>, history: HistoryFile) => SiteRun(env, s, site, seen, history)
  }

  /** `for site in sites` from position `s` on; a broken question loop moves on to the next site. */
  function SitesLoop(run: SiteHandler, sites: seq<string>, s: nat, seen: set<string>, history: HistoryFile): (h: Handled)
    requires s <= |sites|
    ensures !h.stop
    decreases |sites| - s
  {
    if s == |sites| then Handled([], seen, history, false)
    else
      var h := run(s, sites[s], seen, history);
      After(h.events, SitesLoop(run, sites, s + 1, h.seen, h.history))
  }

  /** The pause between two cycles. */
  const CycleSleepSeconds: nat := CycleSleepMinutes * 60

  /** What one cycle did, and the history file it left behind. */
  datatype Cycled = Cycled(events: seq<Event>, history: HistoryFile)

  /**
   * One pass of the main loop's try block. `history` and `sitesFile` are the texts of
   * comment_history.txt and sites.txt (None when missing); `today` is the date the daily counter
   * reads. The daily limit is checked here only, once, before any site is processed; `run` is the
   * body of `for site in sites` (SiteHandlerOf says which).
   */
  function Cycle(run: SiteHandler, history: HistoryFile, sitesFile: Option<string>, today: Date): Cycled {
    if CountToday(Lines(Content(history)), today) >= MaxDailyComments then Cycled([Slept(QuotaSleep)], history)
    else if sitesFile.None? then Cycled([Slept(CrashSleep)], history)
    else CycleRun(run, LoadSites(sitesFile.value), DedupKeys(Lines(Content(history))), history)
  }

  /** The sites of a cycle, from the dedup set `seen0`, then the pause before the next cycle. */
  function CycleRun(run: SiteHandler, sites: seq<string>, seen0: set<string>, history: HistoryFile): Cycled {
    var r := SitesLoop(run, sites, 0, seen0, history);
    Cycled(r.events + [Slept(CycleSleepSeconds)], r.history)
  }

  /** A settled trace from `seen`, ending at the dedup set and file it leads to from `seen` and `history`. */
  predicate Runs(seen: set<string>, history: HistoryFile, h: Handled) {
    && Trace(seen, h.events) && Settled(h.events)
    && h.seen == seen + SuccessKeys(h.events)
    && h.history == SaveAll(history, Written(h.events))
  }

  /**
   * The question loop keeps the trace rules, posts on its own site only, and breaks only after
   * the backoff sleep for one of its questions raised.
   */
  lemma {:induction false} QuestionLoopTrace(env: Env, s: nat, site: string, qs: seq<Question>, j: nat,
                                             seen: set<string>, history: HistoryFile)
    requires j <= |qs|
    ensures var r := QuestionLoop(QuestionHandler(env, s, site), qs, j, seen, history);
      && Runs(seen, history, r) && PostsOn(r.events, {site})
      && (r.stop ==> exists k :: j <= k < |qs| && env.backoffFails(s, k))
    decreases |qs| - j
  {
    if j < |qs| {
      var h := HandleQuestion(env, s, j, site, qs[j], seen, history);
      assert QuestionHandler(env, s, site)(j, qs[j], seen, history) == h;
      HandleQuestionTrace(env, s, j, site, qs[j], seen, history);
      assert PostsOn(h.events, {site});
      if !h.stop {
        QuestionLoopTrace(env, s, site, qs, j + 1, h.seen, h.history);
        var r := QuestionLoop(QuestionHandler(env, s, site), qs, j + 1, h.seen, h.history);
        ExtendRun(seen, history, h.events, h.seen, h.history, r.events, r.seen, r.history);
        PostsOnAppend(h.events, r.events, {site});
      }
    }
  }

  /** One site keeps the trace rules, posts on that site only, and breaks only after a failed backoff. */
  lemma SiteRunTrace(env: Env, s: nat, site: string, seen: set<string>, history: HistoryFile)
    ensures var r := SiteRun(env, s, site, seen, history);
      && Runs(seen, history, r) && PostsOn(r.events, {site})
      && (r.stop ==> exists k :: env.backoffFails(s, k))
  {
    var f := Fetch(SiteFetch(env, s), seen);
    var sleeps := FetchSleeps(f.pauses);
    SleepsTrace(seen, sleeps);
    if f.result.Some? {
      var qs := f.result.value;
      QuestionLoopTrace(env, s, site, qs, 0, seen, history);
      var r := QuestionLoop(QuestionHandler(env, s, site), qs, 0, seen, history);
      ExtendRun(seen, history, sleeps, seen, history, r.events, r.seen, r.history);
      PostsOnAppend(sleeps, r.events, {site});
    }
  }

  /** A site handler that keeps the trace rules for every site of `sites`, posting only on `siteSet`. */
  ghost predicate KeepsRules(run: SiteHandler, sites: seq<string>, siteSet: set<string>) {
    forall k: nat, seen: set<string>, history: HistoryFile :: k < |sites| ==>
      Runs(seen, history, run(k, sites[k], seen, history)) && PostsOn(run(k, sites[k], seen, history).events, siteSet)
  }

  /** The body of `for site in sites` keeps the rules, and posts only on the listed sites. */
  lemma SiteHandlerKeepsRules(env: Env, sites: seq<string>)
    ensures KeepsRules(SiteHandlerOf(env), sites, set x | x in sites)
  {
    forall k: nat, seen: set<string>, history: HistoryFile | k < |sites|
      ensures Runs(seen, history, SiteHandlerOf(env)(k, sites[k], seen, history))
      ensures PostsOn(SiteHandlerOf(env)(k, sites[k], seen, history).events, set x | x in sites)
    {
      SiteRunTrace(env, k, sites[k], seen, history);
    }
  }

  /** The site loop keeps the trace rules, each site starting where the one before it left off. */
  lemma {:induction false} SitesLoopTrace(run: SiteHandler, sites: seq<string>, s: nat, seen: set<string>,
                                          history: HistoryFile, siteSet: set<string>)
    requires s <= |sites| && KeepsRules(run, sites, siteSet)
    ensures var r := SitesLoop(run, sites, s, seen, history);
      Runs(seen, history, r) && PostsOn(r.events, siteSet)
    decreases |sites| - s
  {
    if s < |sites| {
      var h := run(s, sites[s], seen, history);
      SitesLoopTrace(run, sites, s + 1, h.seen, h.history, siteSet);
      var r := SitesLoop(run, sites, s + 1, h.seen, h.history);
      ExtendRun(seen, history, h.events, h.seen, h.history, r.events, r.seen, r.history);
      PostsOnAppend(h.events, r.events, siteSet);
    }
  }

  /** The pause that ends a cycle keeps the trace rules of the sites before it. */
  lemma PauseTrace(seen0: set<string>, history: HistoryFile, r: Handled, siteSet: set<string>)
    requires Runs(seen0, history, r) && PostsOn(r.events, siteSet)
    ensures var t := r.events + [Slept(CycleSleepSeconds)];
      && Trace(seen0, t) && Settled(t) && r.history == SaveAll(history, Written(t)) && PostsOn(t, siteSet)
  {
    var pause := [Slept(CycleSleepSeconds)];
    SleepsTrace(r.seen, pause);
    ExtendRun(seen0, history, r.events, r.seen, r.history, pause, r.seen, r.history);
    PostsOnAppend(r.events, pause, siteSet);
  }

  /**
   * The sites of a cycle, when the site loop body keeps the rules, and the pause after them keep
   * the trace rules from `seen0`, post only on the listed sites, and append exactly the written
   * records.
   */
  lemma CycleRunTrace(run: SiteHandler, sites: seq<string>, seen0: set<string>, history: HistoryFile)
    requires KeepsRules(run, sites, set x | x in sites)
    ensures var c := CycleRun(run, sites, seen0, history);
      && Trace(seen0, c.events) && Settled(c.events)
      && c.events != [] && c.events[|c.events| - 1] == Slept(CycleSleepSeconds)
      && c.history == SaveAll(history, Written(c.events))
      && PostsOn(c.events, set x | x in sites)
  {
    SitesLoopTrace(run, sites, 0, seen0, history, set x | x in sites);
    PauseTrace(seen0, history, SitesLoop(run, sites, 0, seen0, history), set x | x in sites);
  }

  /**
   * A cycle over the quota only sleeps an hour, and one whose site list is missing only sleeps as
   * after a crash; neither touches the history file.
   */
  lemma CycleGates(run: SiteHandler, history: HistoryFile, sitesFile: Option<string>, today: Date)
    ensures var c := Cycle(run, history, sitesFile, today);
      && (CountToday(Lines(Content(history)), today) >= MaxDailyComments ==>
            c.events == [Slept(QuotaSleep)] && c.history == history)
      && (CountToday(Lines(Content(history)), today) < MaxDailyComments && sitesFile.None? ==>
            c.events == [Slept(CrashSleep)] && c.history == history)
  {
  }

  /**
   * A cycle under the quota with a site list, whose site loop body keeps the rules (as
   * SiteHandlerKeepsRules shows the real one does), keeps the trace rules from the dedup set of
   * the history file, posts only on the listed sites, appends exactly its written records, and
   * ends with the 180-minute pause.
   */
  lemma CycleTrace(run: SiteHandler, history: HistoryFile, sitesFile: Option<string>, today: Date)
    requires CountToday(Lines(Content(history)), today) < MaxDailyComments && sitesFile.Some?
    requires KeepsRules(run, LoadSites(sitesFile.value), set x | x in LoadSites(sitesFile.value))
    ensures var c := Cycle(run, history, sitesFile, today);
      && Trace(DedupKeys(Lines(Content(history))), c.events) && Settled(c.events)
      && c.events != [] && c.events[|c.events| - 1] == Slept(CycleSleepSeconds)
      && c.history == SaveAll(history, Written(c.events))
      && PostsOn(c.events, set x | x in LoadSites(sitesFile.value))
  {
    CycleRunTrace(run, LoadSites(sitesFile.value), DedupKeys(Lines(Content(history))), history);
  }

  /**
   * `for question in questions`: each question in order, each starting from the dedup set and
   * the history file the ones before it left behind, until a handler breaks the loop.
   */
  method AnswerQuestions(handle: Handler, qs: seq<Question>, seen: set<string>, history: HistoryFile)
    returns (events: seq<Event>, seen': set<string>, history': HistoryFile, broke: bool)
    ensures Handled(events, seen', history', broke) == QuestionLoop(handle, qs, 0, seen, history)
  {
    ghost var total := QuestionLoop(handle, qs, 0, seen, history);
    events, seen', history', broke := [], seen, history, false;
    assert [] + total.events == total.events;
    var j := 0;
    while j < |qs|
      invariant j <= |qs|
      invariant total == After(events, QuestionLoop(handle, qs, j, seen', history'))
    {
      var h := handle(j, qs[j], seen', history');
      if h.stop {
        events, seen', history', broke := events + h.events, h.seen, h.history, true;
        break;
      }
      ghost var rest := QuestionLoop(handle, qs, j + 1, h.seen, h.history);
      assert events + (h.events + rest.events) == (events + h.events) + rest.events;
      events, seen', history' := events + h.events, h.seen, h.history;
      j := j + 1;
    }
    assert events + [] == events;
  }

  /**
   * The body of `for site in sites` for the site at position `s`: fetch the unseen questions,
   * then handle them in order until the list ends or a failed rate-limit backoff breaks the loop.
   */
  method ProcessSite(env: Env, s: nat, site: string, seen: set<string>, history: HistoryFile)
    returns (events: seq<Event>, seen': set<string>, history': HistoryFile, broke: bool)
    ensures Handled(events, seen', history', broke) == SiteRun(env, s, site, seen, history)
  {
    var questions, attempts, pauses := GetStackQuestions(SiteFetch(env, s), seen);
    var sleeps := FetchSleeps(pauses);
    if questions.None? {
      return sleeps, seen, history, false;
    }
    var run;
    run, seen', history', broke := AnswerQuestions(QuestionHandler(env, s, site), questions.value, seen, history);
    events := sleeps + run;
  }

  /**
   * `for site in sites`: each site in order, each starting from the dedup set and the history
   * file the previous sites left behind. A broken question loop moves on to the next site.
   */
  method ProcessSites(env: Env, sites: seq<string>, seen0: set<string>, history: HistoryFile)
    returns (events: seq<Event>, seen: set<string>, history': HistoryFile)
    ensures Handled(events, seen, history', false) == SitesLoop(SiteHandlerOf(env), sites, 0, seen0, history)
  {
    ghost var run := SiteHandlerOf(env);
    ghost var total := SitesLoop(run, sites, 0, seen0, history);
    seen := seen0;
    events, history' := [], history;
    assert [] + total.events == total.events;
    for s := 0 to |sites|
      invariant total == After(events, SitesLoop(run, sites, s, seen, history'))
    {
      var siteEvents, seen', history'', broke := ProcessSite(env, s, sites[s], seen, history');
      assert run(s, sites[s], seen, history') == Handled(siteEvents, seen', history'', broke);
      ghost var rest := SitesLoop(run, sites, s + 1, seen', history'');
      assert events + (siteEvents + rest.events) == (events + siteEvents) + rest.events;
      events, seen, history' := events + siteEvents, seen', history'';
    }
    assert events + [] == events;
  }

  /** One pass of the main loop's try block; CycleGates and CycleTrace say what it guarantees. */
  method RunCycle(env: Env, history: HistoryFile, sitesFile: Option<string>, today: Date)
    returns (events: seq<Event>, history': HistoryFile)
    ensures Cycled(events, history') == Cycle(SiteHandlerOf(env), history, sitesFile, today)
  {
    var daily := DailyCommentCount(history, today);
    if daily >= MaxDailyComments {
      return [Slept(QuotaSleep)], history;
    }
    if sitesFile.None? {
      return [Slept(CrashSleep)], history;
    }
    var sites := LoadSites(sitesFile.value);
    var seen0 := LoadCommentedQuestions(history);
    var seen;
    events, seen, history' := ProcessSites(env, sites, seen0, history);
    events := events + [Slept(CycleSleepSeconds)];
  }
}
