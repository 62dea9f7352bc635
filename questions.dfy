/**
 * A question as the question-listing API returns it (a JSON object whose keys may be missing),
 * and the eligibility filter is_valid_question.
 */
module Questions {
  import opened Wrappers
  import opened Text
  import opened Config

  /**
   * A JSON question object; locked_date and closed_date are epoch seconds when present. A missing
   * key is None. For title, score and the two dates a JSON null acts like a missing key (the
   * filter raises on it, or reads it as false), so it is None too. A null body does not: the
   * prompt's f-string turns it into the text "None" and the question is answered, so a null body
   * is Some("None") here, and body None means the key is absent.
   */
  datatype Question = Question(
    id: nat,
    title: Option<string>,
    body: Option<string>,
    score: Option<int>,
    lockedDate: Option<int>,
    closedDate: Option<int>)

  /** Python truthiness of question.get(key) for an integer field. */
  predicate Truthy(v: Option<int>) {
    v.Some? && v.value != 0
  }

  /** str(question['question_id']): the key of a question in the dedup set. */
  function IdKey(q: Question): string {
    NatToString(q.id)
  }

  /** Two questions have the same key exactly when they have the same id. */
  lemma IdKeyInjective(q: Question, r: Question)
    ensures IdKey(q) == IdKey(r) <==> q.id == r.id
  {
    if IdKey(q) == IdKey(r) {
      NatToStringInjective(q.id, r.id);
    }
  }

  /** any(phrase.lower() in title.lower() for phrase in blacklisted_phrases). */
  predicate Blacklisted(title: string) {
    exists p :: p in BlacklistedPhrases && Contains(Lower(title), Lower(p))
  }

  /**
   * is_valid_question. The checks run in is_valid_question's order; a missing title or score raises
   * inside the try block and makes the answer False.
   */
  function IsValidQuestion(q: Question): (ok: bool)
    ensures ok <==>
      && q.title.Some?
      && !Blacklisted(q.title.value)
      && |q.title.value| <= MaxTitleLength
      && q.score.Some?
      && q.score.value >= MinPostScore
      && !Truthy(q.lockedDate)
      && !Truthy(q.closedDate)
  {
    match q.title
    case None => false
    case Some(title) =>
      if Blacklisted(title) then false
      else if |title| > MaxTitleLength then false
      else
        match q.score
        case None => false
        case Some(score) =>
          if score < MinPostScore then false
          else if Truthy(q.lockedDate) || Truthy(q.closedDate) then false
          else true
  }

  /** The blacklisted phrases are already in lower case, so matching is against the phrases as written. */
  lemma PhrasesAreLower()
    ensures forall p :: p in BlacklistedPhrases ==> Lower(p) == p
  {
    forall p | p in BlacklistedPhrases ensures Lower(p) == p {
      LowerOfLower(p);
    }
  }

  /** A blacklisted phrase anywhere in the lower-cased title makes the question ineligible, whatever its other fields. */
  lemma BlacklistedPhraseRejects(q: Question, p: string, i: int)
    requires q.title.Some? && p in BlacklistedPhrases
    requires OccursAt(Lower(q.title.value), p, i)
    ensures !IsValidQuestion(q)
  {
    PhrasesAreLower();
    assert Contains(Lower(q.title.value), Lower(p));
  }
}
