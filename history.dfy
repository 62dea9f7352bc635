/**
 * The history file comment_history.txt: the daily counter and the dedup-set loader that read it,
 * the header and record formats that write it, and the round trips between the two sides.
 */
module History {
  import opened Wrappers
  import opened Text
  import opened Timestamps

  /** The text of comment_history.txt, or None when the file does not exist. */
  type HistoryFile = Option<string>

  function Content(f: HistoryFile): string {
    if f.Some? then f.value else ""
  }

  // ---------------------------------------------------------------------------
  // Daily counter (get_daily_comment_count)
  // ---------------------------------------------------------------------------

  /** A line the daily counter counts: it holds '[' and ']', and line[1:20] parses as a timestamp of `today`. */
  predicate CountsToday(line: string, today: Date) {
    && '[' in line
    && ']' in line
    && var stamp := Parse(Slice(line, 1, 20));
       stamp.Some? && DateOf(stamp.value) == today
  }

  /** The number of lines that the daily counter counts. */
  function CountToday(lines: seq<string>, today: Date): (n: nat)
    ensures n <= |lines|
  {
    if lines == [] then 0
    else (if CountsToday(lines[0], today) then 1 else 0) + CountToday(lines[1..], today)
  }

  lemma {:induction false} CountTodayAppend(a: seq<string>, b: seq<string>, today: Date)
    ensures CountToday(a + b, today) == CountToday(a, today) + CountToday(b, today)
  {
    if a == [] {
      assert a + b == b;
    } else {
      assert (a + b)[1..] == a[1..] + b;
      CountTodayAppend(a[1..], b, today);
    }
  }

  /** A line that does not count (malformed, or of another day) makes no difference wherever it stands. */
  lemma CountIgnoresLine(a: seq<string>, x: string, b: seq<string>, today: Date)
    requires !CountsToday(x, today)
    ensures CountToday(a + [x] + b, today) == CountToday(a + b, today)
  {
    CountTodayAppend(a + [x], b, today);
    CountTodayAppend(a, [x], today);
    CountTodayAppend(a, b, today);
  }

  /** get_daily_comment_count: a missing file counts 0; otherwise the lines that CountsToday holds of. */
  method DailyCommentCount(history: HistoryFile, today: Date) returns (count: nat)
    ensures count == CountToday(Lines(Content(history)), today)
  {
    count := 0;
    if history.None? {
      return;
    }
    var lines := Lines(history.value);
    for i := 0 to |lines|
      invariant count == CountToday(lines[..i], today)
    {
      var line := lines[i];
      if '[' in line && ']' in line {
        var stamp := Parse(Slice(line, 1, 20));
        if stamp.Some? && DateOf(stamp.value) == today {
          count := count + 1;
        }
      }
      assert lines[..i + 1] == lines[..i] + [line];
      CountTodayAppend(lines[..i], [line], today);
    }
    assert lines[..|lines|] == lines;
  }

  // ---------------------------------------------------------------------------
  // Dedup set (load_commented_questions)
  // ---------------------------------------------------------------------------

  /** A line the dedup loader takes a key from. */
  predicate IsQuestionLinkLine(line: string) {
    Contains(line, "stackexchange.com/q/") || Contains(line, "stackoverflow.com/q/")
  }

  lemma QuestionLinkHasPath(line: string)
    requires IsQuestionLinkLine(line)
    ensures Contains(line, "/q/")
  {
    if Contains(line, "stackexchange.com/q/") {
      ContainsPiece(line, "stackexchange.com/q/", 17, 20);
      assert "stackexchange.com/q/"[17..20] == "/q/";
    } else {
      ContainsPiece(line, "stackoverflow.com/q/", 17, 20);
      assert "stackoverflow.com/q/"[17..20] == "/q/";
    }
  }

  /** line.split('/q/')[1].split('/')[0]. */
  function QuestionKey(line: string): string
    requires IsQuestionLinkLine(line)
  {
    QuestionLinkHasPath(line);
    PathKey(line)
  }

  /** The text after the first "/q/" of a line that holds one, up to the next '/'. */
  function PathKey(line: string): string
    requires Contains(line, "/q/")
  {
    Split(Split(line, "/q/")[1], "/")[0]
  }

  /** The text of `s` before its first '/', or all of `s` when it has none. */
  function UpToSlash(s: string): string {
    match Find(s, "/")
    case Some(j) => s[..j]
    case None => s
  }

  /** The first piece of a split on '/' is the text before the first '/'. */
  lemma FirstPieceUpToSlash(s: string)
    ensures Split(s, "/")[0] == UpToSlash(s)
  {
  }

  /** Cutting `s` at a '/' does not change the text before its first '/'. */
  lemma UpToSlashPrefix(s: string, k: nat)
    requires k < |s| && s[k] == '/'
    ensures UpToSlash(s[..k]) == UpToSlash(s)
  {
    FindInPrefix(s, '/', k);
  }

  /** Cutting `s` before its first "/q/" does not change the text before its first '/'. */
  lemma UpToSlashBeforePath(s: string)
    ensures UpToSlash(Split(s, "/q/")[0]) == UpToSlash(s)
  {
    match Find(s, "/q/")
    case None =>
    case Some(k) =>
      assert s[k..k + 3] == "/q/";
      assert s[k..k + 3][0] == s[k];
      UpToSlashPrefix(s, k);
  }

  lemma PathKeyIsSegment(line: string, i: nat)
    requires Find(line, "/q/") == Some(i)
    ensures PathKey(line) == UpToSlash(line[i + 3..])
  {
    var rest := line[i + 3..];
    SplitSecond(line, "/q/", i);
    var piece := Split(rest, "/q/")[0];
    assert PathKey(line) == Split(piece, "/")[0];
    FirstPieceUpToSlash(piece);
    UpToSlashBeforePath(rest);
  }

  /**
   * The key of a question-link line whose first "/q/" is at `i` is the text after it up to the
   * next '/', or to the end of the line (its newline included).
   */
  lemma QuestionKeyIsSegment(line: string, i: nat)
    requires IsQuestionLinkLine(line) && Find(line, "/q/") == Some(i)
    ensures QuestionKey(line) == UpToSlash(line[i + 3..])
  {
    PathKeyIsSegment(line, i);
  }

  /** The keys the dedup loader collects from a sequence of lines. */
  function DedupKeys(lines: seq<string>): set<string> {
    if lines == [] then {}
    else (if IsQuestionLinkLine(lines[0]) then {QuestionKey(lines[0])} else {}) + DedupKeys(lines[1..])
  }

  lemma {:induction false} DedupKeysAppend(a: seq<string>, b: seq<string>)
    ensures DedupKeys(a + b) == DedupKeys(a) + DedupKeys(b)
  {
    if a == [] {
      assert a + b == b;
    } else {
      assert (a + b)[1..] == a[1..] + b;
      DedupKeysAppend(a[1..], b);
    }
  }

  /** A key is in the dedup set exactly when some line is a question-link line with that key. */
  lemma {:induction false} DedupKeysMembers(lines: seq<string>, k: string)
    ensures k in DedupKeys(lines) <==>
      exists i :: 0 <= i < |lines| && IsQuestionLinkLine(lines[i]) && QuestionKey(lines[i]) == k
  {
    if lines != [] {
      DedupKeysMembers(lines[1..], k);
      if exists i :: 0 <= i < |lines| && IsQuestionLinkLine(lines[i]) && QuestionKey(lines[i]) == k {
        var i :| 0 <= i < |lines| && IsQuestionLinkLine(lines[i]) && QuestionKey(lines[i]) == k;
        if i > 0 {
          assert lines[1..][i - 1] == lines[i];
        }
      }
      if exists i :: 0 <= i < |lines| - 1 && IsQuestionLinkLine(lines[1..][i]) && QuestionKey(lines[1..][i]) == k {
        var i :| 0 <= i < |lines| - 1 && IsQuestionLinkLine(lines[1..][i]) && QuestionKey(lines[1..][i]) == k;
        assert lines[i + 1] == lines[1..][i];
      }
    }
  }

  /** load_commented_questions: a missing file gives the empty set. */
  method LoadCommentedQuestions(history: HistoryFile) returns (ids: set<string>)
    ensures ids == DedupKeys(Lines(Content(history)))
  {
    ids := {};
    if history.None? {
      return;
    }
    var lines := Lines(history.value);
    for i := 0 to |lines|
      invariant ids == DedupKeys(lines[..i])
    {
      var line := lines[i];
      if IsQuestionLinkLine(line) {
        ids := ids + {QuestionKey(line)};
      }
      assert lines[..i + 1] == lines[..i] + [line];
      DedupKeysAppend(lines[..i], [line]);
    }
    assert lines[..|lines|] == lines;
  }

  // ---------------------------------------------------------------------------
  // Writing the file (initialize_comment_history, save_comment_link)
  // ---------------------------------------------------------------------------

  /** The first header line: the title between two robot faces (U+1F916). */
  const Robot: string := "\U{1F916}"
  const Banner: string := Robot + " Stack Exchange " + "Bot Comment " + "History " + Robot
  /** The second and fourth header lines: 32 '=' characters. */
  const HalfRule: string := "================"
  const Rule: string := HalfRule + HalfRule

  /** The third header line, without its newline. */
  function StartedLine(now: Timestamp): string {
    "Bot Started: " + Format(now)
  }

  /** The four header lines initialize_comment_history writes. */
  function Header(now: Timestamp): string {
    Banner + "\n" + Rule + "\n" + StartedLine(now) + "\n" + Rule + "\n"
  }

  /** initialize_comment_history: writes the header only when the file is missing; a failed write leaves it missing. */
  function InitializeHistory(f: HistoryFile, now: Timestamp, writable: bool): (r: HistoryFile)
    ensures f.Some? ==> r == f
    ensures f.None? ==> r == if writable then Some(Header(now)) else None
  {
    if f.None? && writable then Some(Header(now)) else f
  }

  /** One entry of the history: what save_comment_link is called with, and the time it reads. */
  datatype Record = Record(stamp: Timestamp, site: string, title: string, link: string)

  /** The second line of a record without its newline: "[timestamp] site - title[:50]...". */
  function TitleText(r: Record): string {
    "[" + Format(r.stamp) + "] " + r.site + " - " + Take(r.title, 50) + "..."
  }

  function TitleLine(r: Record): string {
    TitleText(r) + "\n"
  }

  /** The text save_comment_link appends: a blank line, the title line, the link line. */
  function RecordText(r: Record): string {
    "\n" + TitleLine(r) + r.link + "\n"
  }

  /** The link the main loop builds for a posted answer: "https://{site}.com/a/{answer_id}". */
  function AnswerLink(site: string, answerId: nat): string {
    "https://" + site + ".com/a/" + NatToString(answerId)
  }

  /** Appending a record; mode 'a' creates the file when it is missing. */
  function AppendRecord(f: HistoryFile, r: Record): HistoryFile {
    Some(Content(f) + RecordText(r))
  }

  /** save_comment_link: a failed write is logged and leaves the file as it was. */
  function SaveCommentLink(f: HistoryFile, r: Record, writable: bool): (g: HistoryFile)
    ensures writable ==> g.Some? && Content(g) == Content(f) + RecordText(r)
    ensures !writable ==> g == f
  {
    if writable then AppendRecord(f, r) else f
  }

  /** The file after appending the records `rs`, one after another. */
  function SaveAll(f: HistoryFile, rs: seq<Record>): HistoryFile {
    if rs == [] then f else AppendRecord(SaveAll(f, rs[..|rs| - 1]), rs[|rs| - 1])
  }

  lemma {:induction false} SaveAllAppend(f: HistoryFile, a: seq<Record>, b: seq<Record>)
    ensures SaveAll(f, a + b) == SaveAll(SaveAll(f, a), b)
    decreases |b|
  {
    if b == [] {
      assert a + b == a;
    } else {
      var b' := b[..|b| - 1];
      assert (a + b)[..|a + b| - 1] == a + b';
      SaveAllAppend(f, a, b');
    }
  }

  /** Everything the bot writes ends with a newline, so the next record starts on a line of its own. */
  lemma WritesEndLines(f: HistoryFile, now: Timestamp, writable: bool, r: Record)
    requires EndsLine(Content(f))
    ensures EndsLine(Content(InitializeHistory(f, now, writable)))
    ensures EndsLine(Content(SaveCommentLink(f, r, writable)))
  {
  }

  /** A piece without a newline, followed by one, is a single line. */
  lemma LinesOfLine(x: string)
    requires '\n' !in x
    ensures Lines(x + "\n") == [x + "\n"]
  {
    LinesCons(x, []);
    assert x + "\n" + [] == x + "\n";
  }

  /** A line without '[' is not counted, and a line without '/' gives no dedup key. */
  lemma InertLine(line: string, today: Date)
    ensures '[' !in line ==> !CountsToday(line, today)
    ensures '/' !in line ==> !IsQuestionLinkLine(line)
  {
    if '/' !in line {
      assert "stackexchange.com/q/"[17] == '/';
      NotContainsMissingChar(line, "stackexchange.com/q/", '/');
      assert "stackoverflow.com/q/"[17] == '/';
      NotContainsMissingChar(line, "stackoverflow.com/q/", '/');
    }
  }

  /** A piece with no newline, no '[' and no '/'. */
  predicate Inert(s: string) {
    forall k :: 0 <= k < |s| ==> s[k] != '\n' && s[k] != '[' && s[k] != '/'
  }

  lemma InertAppend(a: string, b: string)
    requires Inert(a) && Inert(b)
    ensures Inert(a + b)
  {
    forall k | 0 <= k < |a + b| ensures (a + b)[k] != '\n' && (a + b)[k] != '[' && (a + b)[k] != '/' {
      if k >= |a| {
        assert (a + b)[k] == b[k - |a|];
      }
    }
  }

  lemma BannerChars()
    ensures '\n' !in Banner && '[' !in Banner && '/' !in Banner
  {
    var a, b, c := " Stack Exchange ", "Bot Comment ", "History ";
    assert Inert(Robot) && Inert(a) && Inert(b) && Inert(c);
    InertAppend(Robot, a);
    InertAppend(Robot + a, b);
    InertAppend(Robot + a + b, c);
    InertAppend(Robot + a + b + c, Robot);
  }

  lemma RuleChars()
    ensures '\n' !in Rule && '[' !in Rule && '/' !in Rule
  {
    assert Inert(HalfRule);
    InertAppend(HalfRule, HalfRule);
  }

  lemma StartedLineChars(now: Timestamp)
    ensures '\n' !in StartedLine(now) && '[' !in StartedLine(now) && '/' !in StartedLine(now)
  {
    assert forall c :: c in Format(now) ==> IsStampChar(c);
  }

  lemma RegroupFour(a: string, b: string, c: string, d: string)
    ensures a + "\n" + b + "\n" + c + "\n" + d + "\n" == a + "\n" + (b + "\n" + (c + "\n" + (d + "\n")))
  {
  }

  /** Four pieces without a newline, each followed by one, are four lines. */
  lemma FourLines(a: string, b: string, c: string, d: string)
    requires '\n' !in a && '\n' !in b && '\n' !in c && '\n' !in d
    ensures Lines(a + "\n" + b + "\n" + c + "\n" + d + "\n") == [a + "\n", b + "\n", c + "\n", d + "\n"]
  {
    var t := d + "\n";
    var u := c + "\n" + t;
    var v := b + "\n" + u;
    LinesOfLine(d);
    LinesCons(c, t);
    LinesCons(b, u);
    LinesCons(a, v);
    RegroupFour(a, b, c, d);
  }

  /** The header is four lines. */
  lemma HeaderLines(now: Timestamp)
    ensures Lines(Header(now)) == [Banner + "\n", Rule + "\n", StartedLine(now) + "\n", Rule + "\n"]
  {
    BannerChars();
    RuleChars();
    StartedLineChars(now);
    FourLines(Banner, Rule, StartedLine(now), Rule);
  }

  /** Lines none of which counts count nothing. */
  lemma {:induction false} CountNone(lines: seq<string>, today: Date)
    requires forall k :: 0 <= k < |lines| ==> !CountsToday(lines[k], today)
    ensures CountToday(lines, today) == 0
  {
    if lines != [] {
      CountNone(lines[1..], today);
    }
  }

  /** Lines none of which is a question-link line give no key. */
  lemma {:induction false} DedupNone(lines: seq<string>)
    requires forall k :: 0 <= k < |lines| ==> !IsQuestionLinkLine(lines[k])
    ensures DedupKeys(lines) == {}
  {
    if lines != [] {
      DedupNone(lines[1..]);
    }
  }

  /** Pieces without '[' or '/', each ended by a newline, are neither counted nor give a dedup key. */
  lemma InertPieces(a: string, b: string, c: string, d: string, today: Date)
    requires '[' !in a && '/' !in a && '[' !in b && '/' !in b
    requires '[' !in c && '/' !in c && '[' !in d && '/' !in d
    ensures CountToday([a + "\n", b + "\n", c + "\n", d + "\n"], today) == 0
    ensures DedupKeys([a + "\n", b + "\n", c + "\n", d + "\n"]) == {}
  {
    var ls := [a + "\n", b + "\n", c + "\n", d + "\n"];
    forall k | 0 <= k < 4 ensures !CountsToday(ls[k], today) && !IsQuestionLinkLine(ls[k]) {
      InertLine(ls[k], today);
    }
    CountNone(ls, today);
    DedupNone(ls);
  }

  /** The header's lines are neither counted nor give a dedup key. */
  lemma HeaderIsInert(now: Timestamp, today: Date)
    ensures CountToday(Lines(Header(now)), today) == 0
    ensures DedupKeys(Lines(Header(now))) == {}
  {
    HeaderLines(now);
    BannerChars();
    RuleChars();
    StartedLineChars(now);
    InertPieces(Banner, Rule, StartedLine(now), Rule, today);
  }

  lemma TitleTextChars(r: Record)
    requires '\n' !in r.site && '\n' !in Take(r.title, 50)
    ensures '\n' !in TitleText(r)
  {
    assert forall c :: c in Format(r.stamp) ==> IsStampChar(c);
  }

  /** A blank line, then two pieces without a newline, each followed by one, are three lines. */
  lemma ThreeLines(b: string, c: string)
    requires '\n' !in b && '\n' !in c
    ensures Lines("\n" + (b + "\n") + (c + "\n")) == ["\n", b + "\n", c + "\n"]
  {
    var x, y := b + "\n", c + "\n";
    BlankFirst(x, y);
    LinesCons(b, y);
    LinesOfLine(c);
  }

  /** A text that starts with a newline starts with a blank line. */
  lemma BlankFirst(x: string, y: string)
    ensures Lines("\n" + x + y) == ["\n"] + Lines(x + y)
  {
    var e: string := [];
    assert "\n" + x + y == e + "\n" + (x + y);
    LinesCons(e, x + y);
  }

  lemma RegroupRecord(x: string, l: string)
    ensures "\n" + x + l + "\n" == "\n" + x + (l + "\n")
  {
  }

  /** The lines of a record whose site, title excerpt and link hold no newline. */
  lemma RecordLines(r: Record)
    requires '\n' !in r.site && '\n' !in Take(r.title, 50) && '\n' !in r.link
    ensures Lines(RecordText(r)) == ["\n", TitleLine(r), r.link + "\n"]
  {
    TitleTextChars(r);
    RegroupRecord(TitleLine(r), r.link);
    ThreeLines(TitleText(r), r.link);
    assert "\n" + TitleLine(r) + (r.link + "\n") == "\n" + (TitleText(r) + "\n") + (r.link + "\n");
  }

  /** The title line of a record is counted exactly when the record's timestamp falls on `today`. */
  lemma TitleLineCounts(r: Record, today: Date)
    ensures CountsToday(TitleLine(r), today) <==> DateOf(r.stamp) == today
  {
    var line := TitleLine(r);
    assert line[0] == '[';
    assert line[20] == ']';
    assert Slice(line, 1, 20) == line[1..20] == Format(r.stamp);
    ParseFormat(r.stamp);
  }

  /** Where an answer link holds a '/': only in "https://" and in ".com/a/", when the site holds none. */
  lemma AnswerLinkSlashes(site: string, answerId: nat)
    requires '/' !in site
    ensures var line := AnswerLink(site, answerId) + "\n";
      forall k :: 0 <= k < |line| && line[k] == '/' ==>
        k == 6 || k == 7 || k == |site| + 12 || k == |site| + 14
  {
    var n := |site|;
    var d := NatToString(answerId);
    var line := AnswerLink(site, answerId) + "\n";
    assert line == "https://" + site + ".com/a/" + d + "\n";
    forall k | 0 <= k < |line| && line[k] == '/'
      ensures k == 6 || k == 7 || k == n + 12 || k == n + 14
    {
      if k < 8 {
        assert line[k] == "https://"[k];
      } else if 8 + n <= k < 15 + n {
        assert line[k] == ".com/a/"[k - 8 - n];
      }
    }
  }

  /** A line holding an answer link is never counted: its characters 1 to 19 start with the 't' of "https". */
  lemma AnswerLinkNotCounted(site: string, answerId: nat, today: Date)
    ensures !CountsToday(AnswerLink(site, answerId) + "\n", today)
  {
    var line := AnswerLink(site, answerId) + "\n";
    assert line[1] == 't';
    assert Slice(line, 1, 20)[0] == 't';
  }

  /** A line holding an answer link is neither counted nor, when the site holds no '/', gives a dedup key. */
  lemma AnswerLinkLineIsInert(site: string, answerId: nat, today: Date)
    requires '/' !in site
    ensures !CountsToday(AnswerLink(site, answerId) + "\n", today)
    ensures !Contains(AnswerLink(site, answerId) + "\n", "/q/")
    ensures !IsQuestionLinkLine(AnswerLink(site, answerId) + "\n")
  {
    var n := |site|;
    var line := AnswerLink(site, answerId) + "\n";
    AnswerLinkNotCounted(site, answerId, today);
    AnswerLinkSlashes(site, answerId);
    forall i | 0 <= i && i + 3 <= |line| ensures !OccursAt(line, "/q/", i) {
      assert line[i..i + 3][0] == line[i] && line[i..i + 3][1] == line[i + 1] && line[i..i + 3][2] == line[i + 2];
      if line[i] == '/' && line[i + 2] == '/' {
        assert i == n + 12;
        assert line[i + 1] == ".com/a/"[5];
      }
    }
    if IsQuestionLinkLine(line) {
      QuestionLinkHasPath(line);
    }
  }

  /** The three lines of a saved record. */
  lemma SavedRecordLines(r: Record, answerId: nat)
    requires r.link == AnswerLink(r.site, answerId)
    requires '\n' !in r.site && '\n' !in Take(r.title, 50)
    ensures Lines(RecordText(r)) == ["\n"] + [TitleLine(r)] + [r.link + "\n"]
  {
    assert '\n' !in NatToString(answerId);
    assert '\n' !in r.link;
    RecordLines(r);
  }

  /** Of a saved record's lines only the title line can count, and only on the record's day. */
  lemma RecordCount(r: Record, answerId: nat, today: Date)
    requires r.link == AnswerLink(r.site, answerId)
    requires '\n' !in r.site && '\n' !in Take(r.title, 50)
    ensures CountToday(Lines(RecordText(r)), today) == if DateOf(r.stamp) == today then 1 else 0
  {
    SavedRecordLines(r, answerId);
    var t, l := TitleLine(r), r.link + "\n";
    TitleLineCounts(r, today);
    AnswerLinkNotCounted(r.site, answerId, today);
    InertLine("\n", today);
    CountTodayAppend(["\n"] + [t], [l], today);
    CountTodayAppend(["\n"], [t], today);
  }

  /** Of a saved record's lines only the title line can give a dedup key. */
  lemma RecordKeys(r: Record, answerId: nat)
    requires r.link == AnswerLink(r.site, answerId)
    requires '\n' !in r.site && '/' !in r.site && '\n' !in Take(r.title, 50)
    ensures DedupKeys(Lines(RecordText(r))) == DedupKeys([TitleLine(r)])
  {
    SavedRecordLines(r, answerId);
    var t, l := TitleLine(r), r.link + "\n";
    AnswerLinkLineIsInert(r.site, answerId, Date(0, 0, 0));
    InertLine("\n", Date(0, 0, 0));
    DedupKeysAppend(["\n"] + [t], [l]);
    DedupKeysAppend(["\n"], [t]);
  }

  /**
   * Counting side of one saved record, on a file that ends a line: the daily count grows by one
   * exactly when the record's timestamp falls on `today`, and the file still ends a line.
   */
  lemma SaveCount(content: string, r: Record, answerId: nat, today: Date)
    requires EndsLine(content)
    requires r.link == AnswerLink(r.site, answerId)
    requires '\n' !in r.site && '\n' !in Take(r.title, 50)
    ensures CountToday(Lines(content + RecordText(r)), today)
      == CountToday(Lines(content), today) + (if DateOf(r.stamp) == today then 1 else 0)
    ensures EndsLine(content + RecordText(r))
  {
    LinesAppend(content, RecordText(r));
    RecordCount(r, answerId, today);
    CountTodayAppend(Lines(content), Lines(RecordText(r)), today);
  }

  /**
   * Round trip of one saved record, on a file that ends a line: the daily count grows by one exactly
   * when the record's timestamp falls on `today`, the answer link adds no dedup key, and only the
   * title line can add one.
   */
  lemma SaveRoundTrip(content: string, r: Record, answerId: nat, today: Date)
    requires EndsLine(content)
    requires r.link == AnswerLink(r.site, answerId)
    requires '\n' !in r.site && '/' !in r.site && '\n' !in Take(r.title, 50)
    ensures CountToday(Lines(content + RecordText(r)), today)
      == CountToday(Lines(content), today) + (if DateOf(r.stamp) == today then 1 else 0)
    ensures DedupKeys(Lines(content + RecordText(r))) == DedupKeys(Lines(content)) + DedupKeys([TitleLine(r)])
    ensures EndsLine(content + RecordText(r))
  {
    SaveCount(content, r, answerId, today);
    LinesAppend(content, RecordText(r));
    RecordKeys(r, answerId);
    DedupKeysAppend(Lines(content), Lines(RecordText(r)));
  }

  /**
   * Every occurrence of `p` in `a + x + b` lies inside `x` when `a` ends with a character `p` lacks
   * and the last character of `p` occurs in neither `a` nor `b`.
   */
  lemma OccursInside(a: string, x: string, b: string, p: string, i: int)
    requires p != [] && a != [] && a[|a| - 1] !in p && p[|p| - 1] !in a && p[|p| - 1] !in b
    requires OccursAt(a + x + b, p, i)
    ensures OccursAt(x, p, i - |a|)
  {
    var s := a + x + b;
    var e := i + |p| - 1;
    assert s[i..i + |p|] == p;
    assert forall k :: i <= k < i + |p| ==> s[k] == p[k - i];
    assert forall k :: 0 <= k < |a| ==> s[k] == a[k];
    assert forall k :: |a| + |x| <= k < |s| ==> s[k] == b[k - |a| - |x|];
    assert |a| <= e < |a| + |x|;
    assert i >= |a|;
    assert x[i - |a|..i - |a| + |p|] == s[i..i + |p|];
  }

  /** Under the conditions of OccursInside, `a + x + b` contains `p` exactly when `x` does. */
  lemma ContainsInside(a: string, x: string, b: string, p: string)
    requires p != [] && a != [] && a[|a| - 1] !in p && p[|p| - 1] !in a && p[|p| - 1] !in b
    ensures Contains(a + x + b, p) <==> Contains(x, p)
  {
    ContainsIff(a + x + b, p);
    ContainsIff(x, p);
    if Contains(a + x + b, p) {
      var i :| OccursAt(a + x + b, p, i);
      OccursInside(a, x, b, p, i);
    }
    if Contains(x, p) {
      var i :| OccursAt(x, p, i);
      assert (a + x + b)[i + |a|..i + |a| + |p|] == x[i..i + |p|];
      assert OccursAt(a + x + b, p, i + |a|);
    }
  }

  /** The title line around its excerpt: the part before it and the part after it. */
  lemma TitleLineParts(r: Record)
    ensures var a := "[" + Format(r.stamp) + "] " + r.site + " - ";
      && TitleLine(r) == a + Take(r.title, 50) + "...\n"
      && a[|a| - 1] == ' '
      && ('/' !in r.site ==> '/' !in a)
  {
    var a := "[" + Format(r.stamp) + "] " + r.site + " - ";
    assert forall c :: c in Format(r.stamp) ==> IsStampChar(c);
    assert "..." + "\n" == "...\n";
  }

  /** A pattern of a question link: it has no space and ends with '/'. */
  lemma LinkPatternShape(p: string)
    requires p == "stackexchange.com/q/" || p == "stackoverflow.com/q/"
    ensures p != [] && ' ' !in p && p[|p| - 1] == '/'
  {
  }

  /**
   * When the site holds no '/', a record's title line is a question-link line exactly when its
   * title excerpt is: a match cannot reach into the timestamp, the site or the trailing "...".
   */
  lemma TitleLineIsLink(r: Record)
    requires '/' !in r.site
    ensures IsQuestionLinkLine(TitleLine(r)) <==> IsQuestionLinkLine(Take(r.title, 50))
  {
    TitleLineParts(r);
    var a, x, b := "[" + Format(r.stamp) + "] " + r.site + " - ", Take(r.title, 50), "...\n";
    assert '/' !in b;
    var p1, p2 := "stackexchange.com/q/", "stackoverflow.com/q/";
    LinkPatternShape(p1);
    LinkPatternShape(p2);
    ContainsInside(a, x, b, p1);
    ContainsInside(a, x, b, p2);
  }

  /**
   * When the site holds no '/' and the title excerpt holds neither question-link pattern, a saved
   * record adds no key: the answered question is not remembered.
   */
  lemma SavedAnswerAddsNoKey(content: string, r: Record, answerId: nat)
    requires EndsLine(content)
    requires r.link == AnswerLink(r.site, answerId)
    requires '\n' !in r.site && '/' !in r.site && '\n' !in Take(r.title, 50)
    requires !IsQuestionLinkLine(Take(r.title, 50))
    ensures DedupKeys(Lines(content + RecordText(r))) == DedupKeys(Lines(content))
  {
    SaveRoundTrip(content, r, answerId, Date(0, 0, 0));
    TitleLineIsLink(r);
    DedupNone([TitleLine(r)]);
  }

  // ---------------------------------------------------------------------------
  // Many saved records
  // ---------------------------------------------------------------------------

  /** A record as the main loop builds it, for a site and a title excerpt that stay on one line. */
  ghost predicate Savable(r: Record) {
    && '\n' !in r.site && '\n' !in Take(r.title, 50)
    && exists id: nat :: r.link == AnswerLink(r.site, id)
  }

  /** The number of records stamped on `today`. */
  function TodayCount(rs: seq<Record>, today: Date): (n: nat)
    ensures n <= |rs|
  {
    if rs == [] then 0
    else TodayCount(rs[..|rs| - 1], today) + (if DateOf(rs[|rs| - 1].stamp) == today then 1 else 0)
  }

  /** After saving `rs`, the daily counter sees the lines it saw before plus one per record of `today`. */
  lemma {:induction false} SaveAllCount(f: HistoryFile, rs: seq<Record>, today: Date)
    requires EndsLine(Content(f))
    requires forall i :: 0 <= i < |rs| ==> Savable(rs[i])
    ensures EndsLine(Content(SaveAll(f, rs)))
    ensures CountToday(Lines(Content(SaveAll(f, rs))), today) == CountToday(Lines(Content(f)), today) + TodayCount(rs, today)
    decreases |rs|
  {
    if rs != [] {
      var init, r := rs[..|rs| - 1], rs[|rs| - 1];
      SaveAllCount(f, init, today);
      var id: nat :| r.link == AnswerLink(r.site, id);
      SaveCount(Content(SaveAll(f, init)), r, id, today);
    }
  }

  /**
   * When no site holds a '/' and no title excerpt holds a question-link pattern, saving any number
   * of records leaves the dedup set as it was.
   */
  lemma {:induction false} SaveAllKeys(f: HistoryFile, rs: seq<Record>)
    requires EndsLine(Content(f))
    requires forall i :: 0 <= i < |rs| ==>
      Savable(rs[i]) && '/' !in rs[i].site && !IsQuestionLinkLine(Take(rs[i].title, 50))
    ensures DedupKeys(Lines(Content(SaveAll(f, rs)))) == DedupKeys(Lines(Content(f)))
    decreases |rs|
  {
    if rs != [] {
      var init, r := rs[..|rs| - 1], rs[|rs| - 1];
      SaveAllKeys(f, init);
      SaveAllCount(f, init, Date(0, 0, 0));
      var id: nat :| r.link == AnswerLink(r.site, id);
      SavedAnswerAddsNoKey(Content(SaveAll(f, init)), r, id);
    }
  }
}
