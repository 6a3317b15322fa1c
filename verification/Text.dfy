/** The `std::string_view` searches the sources rely on.  A view is a window of a text, and a search
    in a view is a search in the window; positions are positions in the whole text. */
module Text {
  import opened Core

  /** `c` does not occur in the window. */
  predicate FreeIn(s: string, c: char, lo: nat, hi: nat)
    requires lo <= hi <= |s|
  {
    forall j :: lo <= j < hi ==> s[j] != c
  }

  function ScanUp(s: string, c: char, lo: nat, hi: nat): Option<nat>
    requires lo <= hi <= |s|
    decreases hi - lo
  {
    if lo == hi then None
    else if s[lo] == c then Some(lo)
    else ScanUp(s, c, lo + 1, hi)
  }

  function ScanDown(s: string, c: char, lo: nat, hi: nat): Option<nat>
    requires lo <= hi <= |s|
    decreases hi - lo
  {
    if lo == hi then None
    else if s[hi - 1] == c then Some(hi - 1)
    else ScanDown(s, c, lo, hi - 1)
  }

  lemma ScanUpFinds(s: string, c: char, lo: nat, hi: nat)
    requires lo <= hi <= |s|
    ensures match ScanUp(s, c, lo, hi)
            case Some(k) => lo <= k < hi && s[k] == c && FreeIn(s, c, lo, k)
            case None => FreeIn(s, c, lo, hi)
    decreases hi - lo
  {
    if lo < hi && s[lo] != c {
      ScanUpFinds(s, c, lo + 1, hi);
    }
  }

  lemma ScanDownFinds(s: string, c: char, lo: nat, hi: nat)
    requires lo <= hi <= |s|
    ensures match ScanDown(s, c, lo, hi)
            case Some(k) => lo <= k < hi && s[k] == c && FreeIn(s, c, k + 1, hi)
            case None => FreeIn(s, c, lo, hi)
    decreases hi - lo
  {
    if lo < hi && s[hi - 1] != c {
      ScanDownFinds(s, c, lo, hi - 1);
    }
  }

  /** `find(c)` in the window. */
  function IndexIn(s: string, c: char, lo: nat, hi: nat): (r: Option<nat>)
    requires lo <= hi <= |s|
    ensures r.Some? ==> lo <= r.value < hi && s[r.value] == c && FreeIn(s, c, lo, r.value)
    ensures r.None? ==> FreeIn(s, c, lo, hi)
  {
    ScanUpFinds(s, c, lo, hi);
    ScanUp(s, c, lo, hi)
  }

  /** `rfind(c)` in the window. */
  function LastIn(s: string, c: char, lo: nat, hi: nat): (r: Option<nat>)
    requires lo <= hi <= |s|
    ensures r.Some? ==> lo <= r.value < hi && s[r.value] == c && FreeIn(s, c, r.value + 1, hi)
    ensures r.None? ==> FreeIn(s, c, lo, hi)
  {
    ScanDownFinds(s, c, lo, hi);
    ScanDown(s, c, lo, hi)
  }

  predicate Free(s: string, c: char) {
    FreeIn(s, c, 0, |s|)
  }

  function IndexOf(s: string, c: char): Option<nat> {
    IndexIn(s, c, 0, |s|)
  }

  predicate OccursAt(s: string, pat: string, i: nat) {
    i + |pat| <= |s| && s[i..i + |pat|] == pat
  }

  function Search(s: string, pat: string, from: nat): Option<nat>
    requires from <= |s|
    decreases |s| - from
  {
    if OccursAt(s, pat, from) then Some(from)
    else if from == |s| then None
    else Search(s, pat, from + 1)
  }

  lemma SearchFinds(s: string, pat: string, from: nat)
    requires from <= |s|
    ensures match Search(s, pat, from)
            case Some(k) => from <= k && OccursAt(s, pat, k) && forall j: nat :: from <= j < k ==> !OccursAt(s, pat, j)
            case None => forall j: nat :: from <= j ==> !OccursAt(s, pat, j)
    decreases |s| - from
  {
    if from < |s| && !OccursAt(s, pat, from) {
      SearchFinds(s, pat, from + 1);
    }
  }

  /** `find(pat)`: the first occurrence. */
  function Find(s: string, pat: string): (r: Option<nat>)
    ensures r.Some? ==> OccursAt(s, pat, r.value) && forall j: nat :: j < r.value ==> !OccursAt(s, pat, j)
    ensures r.None? ==> forall j: nat :: !OccursAt(s, pat, j)
  {
    SearchFinds(s, pat, 0);
    Search(s, pat, 0)
  }

  // ----- windows seen as texts of their own

  /** The window is the text `s`. */
  predicate IsWindow(s: string, u: string, lo: nat, hi: nat) {
    lo <= hi <= |u| && u[lo..hi] == s
  }

  lemma CharOfWindow(s: string, u: string, lo: nat, hi: nat)
    requires IsWindow(s, u, lo, hi)
    ensures forall j :: lo <= j < hi ==> u[j] == s[j - lo]
  {
  }

  lemma IndexShift(s: string, u: string, lo: nat, hi: nat, c: char, a: nat, b: nat)
    requires IsWindow(s, u, lo, hi) && a <= b <= |s|
    ensures IndexIn(u, c, lo + a, lo + b) ==
            match IndexIn(s, c, a, b) case Some(k) => Some(lo + k) case None => None
  {
    CharOfWindow(s, u, lo, hi);
    var k := IndexIn(s, c, a, b);
    var end := if k.Some? then k.value else b;
    forall j | lo + a <= j < lo + end
      ensures u[j] != c
    {
      assert s[j - lo] != c;
    }
    if k.Some? {
      assert u[lo + k.value] == s[lo + k.value - lo];
    }
  }

  lemma LastShift(s: string, u: string, lo: nat, hi: nat, c: char, a: nat, b: nat)
    requires IsWindow(s, u, lo, hi) && a <= b <= |s|
    ensures LastIn(u, c, lo + a, lo + b) ==
            match LastIn(s, c, a, b) case Some(k) => Some(lo + k) case None => None
  {
    CharOfWindow(s, u, lo, hi);
    var k := LastIn(s, c, a, b);
    var start := if k.Some? then k.value + 1 else a;
    forall j | lo + start <= j < lo + b
      ensures u[j] != c
    {
      assert s[j - lo] != c;
    }
    if k.Some? {
      assert u[lo + k.value] == s[lo + k.value - lo];
    }
  }

  /** A part of the window is the same part of the text. */
  lemma PartOfWindow(s: string, u: string, lo: nat, hi: nat, a: nat, b: nat)
    requires IsWindow(s, u, lo, hi) && a <= b <= |s|
    ensures u[lo + a..lo + b] == s[a..b]
  {
    var part := u[lo + a..lo + b];
    forall j | 0 <= j < b - a
      ensures part[j] == s[a..b][j]
    {
      assert part[j] == u[lo + a + j] == u[lo..hi][a + j];
    }
  }
}
