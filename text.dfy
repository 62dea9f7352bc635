/**
 * The string operations of Python that the bot relies on: str.strip(), str.lower(),
 * the `in` substring test, str.split(sep), str.join, iteration over the lines of a
 * text file, str(int), and slicing with clamped bounds.
 */
module Text {
  import opened Wrappers

  /** The characters for which Python's str.isspace() holds. */
  predicate IsSpace(c: char) {
    || ('\t' <= c <= '\r')
    || ('\U{1C}' <= c <= '\U{1F}')
    || c == ' ' || c == '\U{85}' || c == '\U{A0}' || c == '\U{1680}'
    || ('\U{2000}' <= c <= '\U{200A}')
    || c == '\U{2028}' || c == '\U{2029}' || c == '\U{202F}' || c == '\U{205F}' || c == '\U{3000}'
  }

  predicate AllSpace(s: string) {
    forall k :: 0 <= k < |s| ==> IsSpace(s[k])
  }

  /** str.lstrip(): drops the leading whitespace. */
  function TrimLeft(s: string): string
    decreases |s|
  {
    if s != [] && IsSpace(s[0]) then TrimLeft(s[1..]) else s
  }

  /**
   * lstrip() leaves a suffix that is empty or starts with a non-space, is empty exactly for blank
   * input, and drops only whitespace.
   */
  lemma {:induction false} TrimLeftShape(s: string)
    ensures var r := TrimLeft(s);
      && (r == [] || !IsSpace(r[0]))
      && (r == [] <==> AllSpace(s))
      && |r| <= |s| && r == s[|s| - |r|..]
      && AllSpace(s[..|s| - |r|])
    decreases |s|
  {
    if s != [] && IsSpace(s[0]) {
      TrimLeftShape(s[1..]);
      var r := TrimLeft(s);
      var dropped, rest := s[..|s| - |r|], s[1..][..|s| - 1 - |r|];
      forall k | 0 <= k < |dropped| ensures IsSpace(dropped[k]) {
        if k > 0 {
          assert dropped[k] == rest[k - 1];
        }
      }
    }
  }

  /** str.rstrip(): drops the trailing whitespace. */
  function TrimRight(s: string): string
    decreases |s|
  {
    if s != [] && IsSpace(s[|s| - 1]) then TrimRight(s[..|s| - 1]) else s
  }

  /**
   * rstrip() leaves a prefix that is empty or ends in a non-space, is empty exactly for blank
   * input, and drops only whitespace.
   */
  lemma {:induction false} TrimRightShape(s: string)
    ensures var r := TrimRight(s);
      && (r == [] || !IsSpace(r[|r| - 1]))
      && (r == [] <==> AllSpace(s))
      && r <= s
      && AllSpace(s[|r|..])
    decreases |s|
  {
    if s != [] && IsSpace(s[|s| - 1]) {
      var init := s[..|s| - 1];
      TrimRightShape(init);
      var r := TrimRight(s);
      var dropped, rest := s[|r|..], init[|r|..];
      forall k | 0 <= k < |dropped| ensures IsSpace(dropped[k]) {
        if k < |rest| {
          assert dropped[k] == rest[k];
        }
      }
    }
  }

  /** str.strip(). */
  function Strip(s: string): string {
    TrimRight(TrimLeft(s))
  }

  /**
   * Stripping yields a piece of the input with no whitespace at either end, what it drops on
   * either side is whitespace, and it is empty exactly when the input is all whitespace.
   */
  lemma StripShape(s: string)
    ensures Strip(s) == [] <==> AllSpace(s)
    ensures Strip(s) == [] || (!IsSpace(Strip(s)[0]) && !IsSpace(Strip(s)[|Strip(s)| - 1]))
    ensures forall c :: c in Strip(s) ==> c in s
    ensures exists i, j :: 0 <= i <= j <= |s| && AllSpace(s[..i]) && AllSpace(s[j..]) && Strip(s) == s[i..j]
  {
    var l := TrimLeft(s);
    var r := TrimRight(l);
    TrimLeftShape(s);
    TrimRightShape(l);
    var i := |s| - |l|;
    var j := i + |r|;
    assert l == s[i..];
    assert r == l[..|r|] == s[i..j];
    assert l[|r|..] == s[j..];
    assert AllSpace(s[..i]) && AllSpace(s[j..]);
    assert r == [] <==> AllSpace(l);
    if r != [] {
      assert r[0] == l[0];
    }
    forall c | c in r ensures c in s {
      var k :| 0 <= k < |r| && r[k] == c;
      assert l[k] == c;
      assert s[|s| - |l| + k] == c;
    }
  }

  /** A string that strip() leaves unchanged. */
  predicate IsStripped(s: string) {
    s == [] || (!IsSpace(s[0]) && !IsSpace(s[|s| - 1]))
  }

  lemma {:induction false} StrippedIsFixed(s: string)
    requires IsStripped(s)
    ensures Strip(s) == s
  {
  }

  /** Appending one whitespace character does not change what strip() returns. */
  lemma {:induction false} StripAppendSpace(s: string, c: char)
    requires IsSpace(c)
    ensures Strip(s + [c]) == Strip(s)
  {
    TrimLeftAppend(s, c);
    var l := TrimLeft(s);
    if l == [] {
      assert TrimLeft(s + [c]) == [];
    } else {
      assert TrimLeft(s + [c]) == l + [c];
      assert (l + [c])[..|l + [c]| - 1] == l;
    }
  }

  lemma {:induction false} TrimLeftAppend(s: string, c: char)
    requires IsSpace(c)
    ensures TrimLeft(s + [c]) == if TrimLeft(s) == [] then [] else TrimLeft(s) + [c]
    decreases |s|
  {
    if s == [] {
      assert TrimLeft([c]) == TrimLeft([c][1..]);
    } else if IsSpace(s[0]) {
      assert (s + [c])[1..] == s[1..] + [c];
      TrimLeftAppend(s[1..], c);
    } else {
    }
  }

  /** One character of Python's str.lower() on the Latin alphabet: ASCII letters, plus KELVIN SIGN and
      LATIN CAPITAL LETTER I WITH DOT ABOVE, the two characters whose lower-case form contains an ASCII letter. */
  function LowerChar(c: char): (r: seq<char>)
    ensures 1 <= |r| <= 2
  {
    if 'A' <= c <= 'Z' then [(c as int + 32) as char]
    else if c == '\U{212A}' then ['k']
    else if c == '\U{130}' then ['i', '\U{307}']
    else [c]
  }

  /** str.lower(). */
  function Lower(s: string): (r: string)
    ensures |r| >= |s|
  {
    if s == [] then [] else LowerChar(s[0]) + Lower(s[1..])
  }

  /** Lower-casing leaves lower-case letters, digits and punctuation alone. */
  lemma {:induction false} LowerOfLower(s: string)
    requires forall k :: 0 <= k < |s| ==> !('A' <= s[k] <= 'Z') && s[k] != '\U{212A}' && s[k] != '\U{130}'
    ensures Lower(s) == s
  {
    if s != [] {
      LowerOfLower(s[1..]);
    }
  }

  /** `p` occurs in `s` starting at position `i`. */
  predicate OccursAt(s: string, p: string, i: int) {
    0 <= i && i + |p| <= |s| && s[i..i + |p|] == p
  }

  /** str.find(p), with None for -1: the first position at which `p` occurs in `s`. */
  function Find(s: string, p: string): (r: Option<nat>)
    ensures r.Some? ==> OccursAt(s, p, r.value)
    ensures r.Some? ==> forall j :: 0 <= j < r.value ==> !OccursAt(s, p, j)
    ensures r.None? ==> forall j :: !OccursAt(s, p, j)
    decreases |s|
  {
    if p <= s then Some(0)
    else if s == [] then None
    else
      var rest := Find(s[1..], p);
      OccursShift(s, p);
      match rest
      case Some(j) => Some(j + 1)
      case None => None
  }

  lemma OccursShift(s: string, p: string)
    requires s != []
    ensures forall j :: 1 <= j ==> (OccursAt(s, p, j) <==> OccursAt(s[1..], p, j - 1))
    ensures OccursAt(s, p, 0) <==> p <= s
  {
    forall j | 1 <= j ensures OccursAt(s, p, j) <==> OccursAt(s[1..], p, j - 1) {
      if j + |p| <= |s| {
        assert s[1..][j - 1..j - 1 + |p|] == s[j..j + |p|];
      }
    }
  }

  /** Python's `p in s` for strings. */
  predicate Contains(s: string, p: string) {
    Find(s, p).Some?
  }

  /** The substring test holds exactly when the needle occurs somewhere. */
  lemma ContainsIff(s: string, p: string)
    ensures Contains(s, p) <==> exists i :: OccursAt(s, p, i)
  {
  }

  /** A needle that holds a character the haystack lacks is not contained in it. */
  lemma {:induction false} NotContainsMissingChar(s: string, p: string, c: char)
    requires c in p && c !in s
    ensures !Contains(s, p)
  {
  }

  /** A string that contains `p` contains every piece of `p`. */
  lemma {:induction false} ContainsPiece(s: string, p: string, a: int, b: int)
    requires Contains(s, p) && 0 <= a <= b <= |p|
    ensures Contains(s, p[a..b])
  {
    var i := Find(s, p).value;
    assert s[i..i + |p|] == p;
    forall k | 0 <= k < b - a
      ensures s[i + a..i + b][k] == p[a..b][k]
    {
      assert s[i + a + k] == s[i..i + |p|][a + k];
    }
    assert s[i + a..i + b] == p[a..b];
    assert OccursAt(s, p[a..b], i + a);
  }

  /** If `p` occurs in `a` it is found in `a + b` at the same place. */
  lemma {:induction false} FindAppend(a: string, b: string, p: string)
    requires Find(a, p).Some?
    ensures Find(a + b, p) == Find(a, p)
  {
    var i := Find(a, p).value;
    OccursAppend(a, b, p, i);
    var k := Find(a + b, p).value;
    if k < i {
      OccursAppend(a, b, p, k);
    }
  }

  /** An occurrence that ends inside `a` is an occurrence in `a + b`, and the other way round. */
  lemma OccursAppend(a: string, b: string, p: string, j: nat)
    requires j + |p| <= |a|
    ensures OccursAt(a + b, p, j) <==> OccursAt(a, p, j)
  {
    assert (a + b)[j..j + |p|] == a[j..j + |p|];
  }

  /** A one-character needle occurs exactly where that character stands. */
  lemma CharOccurs(s: string, c: char)
    ensures forall j :: 0 <= j < |s| ==> (OccursAt(s, [c], j) <==> s[j] == c)
  {
    forall j | 0 <= j < |s| ensures OccursAt(s, [c], j) <==> s[j] == c {
      assert s[j..j + 1] == [s[j]];
    }
  }

  /** A single character is found exactly when it is in the string. */
  lemma FindChar(s: string, c: char)
    ensures Find(s, [c]).None? <==> c !in s
  {
    CharOccurs(s, c);
    if c in s {
      var j :| 0 <= j < |s| && s[j] == c;
      assert OccursAt(s, [c], j);
    }
  }

  /** Finding a single character `c` that does not occur in `x` in the string `x + [c] + y`. */
  lemma {:induction false} FindAfterFree(x: string, c: char, y: string)
    requires c !in x
    ensures Find(x + [c] + y, [c]) == Some(|x|)
  {
    var s := x + [c] + y;
    CharOccurs(s, c);
    assert OccursAt(s, [c], |x|);
  }

  /** The first occurrence of a one-character needle `[c]` inside a prefix `s[..n]` that ends before some later `c`. */
  lemma {:induction false} FindInPrefix(s: string, c: char, n: nat)
    requires n <= |s|
    ensures Find(s[..n], [c]).Some? ==> Find(s, [c]) == Find(s[..n], [c])
    ensures Find(s[..n], [c]).None? && n < |s| && s[n] == c ==> Find(s, [c]) == Some(n)
  {
    if Find(s[..n], [c]).Some? {
      assert s == s[..n] + s[n..];
      FindAppend(s[..n], s[n..], [c]);
    } else if n < |s| && s[n] == c {
      FindChar(s[..n], c);
      assert s == s[..n] + [c] + s[n + 1..];
      FindAfterFree(s[..n], c, s[n + 1..]);
    }
  }

  /** str.split(sep) for a non-empty separator. */
  function Split(s: string, sep: string): (parts: seq<string>)
    requires sep != []
    ensures |parts| >= 1
    decreases |s|
  {
    match Find(s, sep)
    case None => [s]
    case Some(i) => [s[..i]] + Split(s[i + |sep|..], sep)
  }

  /** Where the separator first occurs at `i`, the split is the piece before it and the split of what follows. */
  lemma SplitUnfold(s: string, sep: string, i: nat)
    requires sep != [] && Find(s, sep) == Some(i)
    ensures i + |sep| <= |s|
    ensures Split(s, sep) == [s[..i]] + Split(s[i + |sep|..], sep)
  {
    assert OccursAt(s, sep, i);
    var head, tail := s[..i], Split(s[i + |sep|..], sep);
    assert Split(s, sep) == [head] + tail;
  }

  /** A string is what precedes an occurrence, the occurrence, and what follows it. */
  lemma OccursSplit(s: string, p: string, i: nat)
    requires OccursAt(s, p, i)
    ensures s == s[..i] + p + s[i + |p|..]
  {
    assert s[i..i + |p|] == p;
  }

  /** The second piece of a split is the first piece of the split of what follows the first separator. */
  lemma SplitSecond(s: string, sep: string, i: nat)
    requires sep != [] && Find(s, sep) == Some(i)
    ensures |Split(s, sep)| >= 2
    ensures Split(s, sep)[1] == Split(s[i + |sep|..], sep)[0]
  {
    SplitUnfold(s, sep, i);
    var head, tail := s[..i], Split(s[i + |sep|..], sep);
    assert ([head] + tail)[1] == tail[0];
  }

  /** sep.join(xs). */
  function Join(xs: seq<string>, sep: string): string
    decreases |xs|
  {
    if |xs| == 0 then []
    else if |xs| == 1 then xs[0]
    else xs[0] + sep + Join(xs[1..], sep)
  }

  /** Splitting and joining again with the same separator gives back the string. */
  lemma {:induction false} SplitJoin(s: string, sep: string)
    requires sep != []
    ensures Join(Split(s, sep), sep) == s
    decreases |s|
  {
    match Find(s, sep)
    case None =>
    case Some(i) =>
      var rest := s[i + |sep|..];
      SplitUnfold(s, sep, i);
      SplitJoin(rest, sep);
      JoinCons(s[..i], Split(rest, sep), sep);
      OccursSplit(s, sep, i);
  }

  /** Joining a piece in front of a non-empty list puts one separator between them. */
  lemma JoinCons(x: string, xs: seq<string>, sep: string)
    requires |xs| >= 1
    ensures Join([x] + xs, sep) == x + sep + Join(xs, sep)
  {
    assert ([x] + xs)[1..] == xs;
  }

  /** No piece produced by splitting on `[c]` contains `c`. */
  lemma {:induction false} SplitPiecesFree(s: string, c: char)
    ensures forall k :: 0 <= k < |Split(s, [c])| ==> c !in Split(s, [c])[k]
    decreases |s|
  {
    match Find(s, [c])
    case None =>
      if c in s {
        var j :| 0 <= j < |s| && s[j] == c;
        assert s[j..j + 1] == [c];
        assert OccursAt(s, [c], j);
      }
    case Some(i) =>
      SplitPiecesFree(s[i + 1..], c);
      if c in s[..i] {
        var j :| 0 <= j < i && s[..i][j] == c;
        assert s[j..j + 1] == [c];
        assert OccursAt(s, [c], j);
      }
  }

  /**
   * Iterating a text file in Python: the pieces of `s`, each up to and including a newline,
   * and a last piece without one when `s` does not end in a newline.
   */
  function Lines(s: string): (ls: seq<string>)
    decreases |s|
  {
    if s == [] then []
    else
      match Find(s, "\n")
      case None => [s]
      case Some(i) => [s[..i + 1]] + Lines(s[i + 1..])
  }

  /** Concatenation of a sequence of strings. */
  function Concat(xs: seq<string>): string {
    if xs == [] then [] else xs[0] + Concat(xs[1..])
  }

  /** Where the first newline of a non-empty text splits it: the first line, then the rest. */
  lemma FirstLine(s: string)
    requires s != []
    ensures Find(s, "\n").Some? ==> var i := Find(s, "\n").value;
      && s == s[..i + 1] + s[i + 1..] && s[..i + 1][i] == '\n' && '\n' !in s[..i + 1][..i]
    ensures Find(s, "\n").None? ==> '\n' !in s
  {
    match Find(s, "\n")
    case None =>
      FindChar(s, '\n');
    case Some(i) =>
      assert s[..i + 1][..i] == s[..i];
      CharOccurs(s, '\n');
      assert forall j :: 0 <= j < i ==> s[..i][j] != '\n';
      assert s[i..i + 1] == "\n";
  }

  /** Joining the lines of a text gives the text back. */
  lemma {:induction false} LinesConcat(s: string)
    ensures Concat(Lines(s)) == s
    decreases |s|
  {
    if s != [] {
      FirstLine(s);
      match Find(s, "\n")
      case None =>
      case Some(i) =>
        LinesConcat(s[i + 1..]);
    }
  }

  /** The lines of a text are non-empty, hold a newline only at their end, and all but the last end in one. */
  lemma {:induction false} LinesShape(s: string)
    ensures forall k :: 0 <= k < |Lines(s)| ==> Lines(s)[k] != []
    ensures forall k :: 0 <= k < |Lines(s)| ==> '\n' !in Lines(s)[k][..|Lines(s)[k]| - 1]
    ensures forall k :: 0 <= k < |Lines(s)| - 1 ==> Lines(s)[k][|Lines(s)[k]| - 1] == '\n'
    decreases |s|
  {
    if s != [] {
      FirstLine(s);
      match Find(s, "\n")
      case None =>
      case Some(i) =>
        LinesShape(s[i + 1..]);
    }
  }

  /** A text that is empty or ends in a newline: appending to it starts a new line. */
  predicate EndsLine(s: string) {
    s == [] || s[|s| - 1] == '\n'
  }

  /** The lines of `a + b` for an `a` that ends a line are the lines of `a` followed by those of `b`. */
  lemma {:induction false} LinesAppend(a: string, b: string)
    requires EndsLine(a)
    ensures Lines(a + b) == Lines(a) + Lines(b)
    decreases |a|
  {
    if a == [] {
      assert a + b == b;
    } else {
      assert a[|a| - 1..|a|] == "\n";
      assert OccursAt(a, "\n", |a| - 1);
      var i := Find(a, "\n").value;
      FindAppend(a, b, "\n");
      assert (a + b)[..i + 1] == a[..i + 1];
      assert (a + b)[i + 1..] == a[i + 1..] + b;
      LinesAppend(a[i + 1..], b);
    }
  }

  /** A piece without a newline, followed by a newline, is one line. */
  lemma {:induction false} LinesCons(x: string, rest: string)
    requires '\n' !in x
    ensures Lines(x + "\n" + rest) == [x + "\n"] + Lines(rest)
  {
    var s := x + "\n" + rest;
    FindAfterFree(x, '\n', rest);
    assert s[..|x| + 1] == x + "\n";
    assert s[|x| + 1..] == rest;
  }

  /** A non-empty piece without a newline is one line. */
  lemma {:induction false} LinesSingle(x: string)
    requires x != [] && '\n' !in x
    ensures Lines(x) == [x]
  {
    FindChar(x, '\n');
  }

  /** Python's slice s[i:j] for 0 <= i <= j: the bounds are clamped to the length. */
  function Slice(s: string, i: nat, j: nat): (r: string)
    requires i <= j
    ensures |r| == (if j <= |s| then j else |s|) - (if i <= |s| then i else |s|)
  {
    var hi := if j <= |s| then j else |s|;
    var lo := if i <= |s| then i else |s|;
    s[lo..hi]
  }

  predicate IsDigit(c: char) {
    '0' <= c <= '9'
  }

  function DigitChar(d: nat): (c: char)
    requires d < 10
    ensures IsDigit(c)
  {
    ('0' as int + d) as char
  }

  function DigitValue(c: char): (d: nat)
    requires IsDigit(c)
    ensures d < 10 && DigitChar(d) == c
  {
    c as int - '0' as int
  }

  /** str(n) for a non-negative integer: its decimal digits, with no leading zero. */
  function NatToString(n: nat): (s: string)
    ensures s != [] && (forall k :: 0 <= k < |s| ==> IsDigit(s[k]))
    decreases n
  {
    if n < 10 then [DigitChar(n)] else NatToString(n / 10) + [DigitChar(n % 10)]
  }

  /** The number a string of decimal digits denotes (Python's int(s)). */
  function DecimalValue(s: string): nat
    requires forall k :: 0 <= k < |s| ==> IsDigit(s[k])
  {
    if s == [] then 0 else DecimalValue(s[..|s| - 1]) * 10 + DigitValue(s[|s| - 1])
  }

  /** int(str(n)) == n. */
  lemma {:induction false} DecimalRoundTrip(n: nat)
    ensures DecimalValue(NatToString(n)) == n
    decreases n
  {
    if n >= 10 {
      var s := NatToString(n);
      DecimalRoundTrip(n / 10);
      assert s[..|s| - 1] == NatToString(n / 10);
    }
  }

  /** Distinct numbers have distinct decimal forms. */
  lemma NatToStringInjective(a: nat, b: nat)
    requires NatToString(a) == NatToString(b)
    ensures a == b
  {
    DecimalRoundTrip(a);
    DecimalRoundTrip(b);
  }

  /** title[:n]. */
  function Take(s: string, n: nat): (r: string)
    ensures r <= s && |r| == if |s| <= n then |s| else n
  {
    if |s| <= n then s else s[..n]
  }
}
