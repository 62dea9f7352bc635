/**
 * The site list: load_sites reads sites.txt and keeps the stripped, non-empty lines.
 */
module Sites {
  import opened Text

  /** [x.strip() for x in xs if x.strip()]. */
  function KeepStripped(xs: seq<string>): (r: seq<string>)
    ensures |r| <= |xs|
    ensures forall k :: 0 <= k < |r| ==> r[k] != [] && IsStripped(r[k])
  {
    if xs == [] then []
    else
      var last := Strip(xs[|xs| - 1]);
      StripShape(xs[|xs| - 1]);
      KeepStripped(xs[..|xs| - 1]) + (if last == [] then [] else [last])
  }

  lemma {:induction false} KeepStrippedAppend(a: seq<string>, b: seq<string>)
    ensures KeepStripped(a + b) == KeepStripped(a) + KeepStripped(b)
    decreases |b|
  {
    if b == [] {
      assert a + b == a;
    } else {
      var b' := b[..|b| - 1];
      assert (a + b)[..|a + b| - 1] == a + b';
      KeepStrippedAppend(a, b');
    }
  }

  /** A string is kept exactly when it is not all whitespace, and it is kept stripped. */
  lemma {:induction false} KeepStrippedMembers(xs: seq<string>, s: string)
    ensures s in KeepStripped(xs) <==> exists x :: x in xs && !AllSpace(x) && Strip(x) == s
  {
    if xs != [] {
      var init, last := xs[..|xs| - 1], xs[|xs| - 1];
      KeepStrippedMembers(init, s);
      assert xs == init + [last];
      StripShape(last);
      if s in KeepStripped(xs) && s !in KeepStripped(init) {
        assert last in xs;
      }
    }
  }

  /** load_sites on the text of sites.txt. */
  function LoadSites(content: string): (sites: seq<string>)
    ensures forall k :: 0 <= k < |sites| ==> sites[k] != [] && IsStripped(sites[k])
  {
    KeepStripped(Lines(content))
  }

  /** A site is loaded exactly when some line of the file, stripped, is that site and is not blank. */
  lemma LoadSitesMembers(content: string, site: string)
    ensures site in LoadSites(content) <==>
      exists line :: line in Lines(content) && !AllSpace(line) && Strip(line) == site
  {
    KeepStrippedMembers(Lines(content), site);
  }
}
