/** A parser helper run on a window of the input finds what it finds in the window's text alone,
    moved to where the window lies. */
module UriReading {
  import opened Text
  import opened Uri

  function Moved(c: Slice, d: nat): Slice {
    if c.At? then At(d + c.lo, d + c.hi) else Null
  }

  function MovedHostPort(hp: HostPort, d: nat): HostPort {
    HostPort(Moved(hp.host, d), Moved(hp.port, d))
  }

  function MovedTail(p: ParsedPath, d: nat): ParsedPath {
    ParsedPath(Moved(p.path, d), Moved(p.query, d), Moved(p.fragment, d))
  }

  /** A component reads the same in the window as in the text. */
  lemma ReadsSame(s: string, u: string, lo: nat, hi: nat, c: Slice)
    requires IsWindow(s, u, lo, hi) && c.Within(|s|)
    ensures Moved(c, lo).Within(|u|) && Moved(c, lo).In(u) == c.In(s)
  {
    if c.At? {
      PartOfWindow(s, u, lo, hi, c.lo, c.hi);
    }
  }

  lemma LiteralMoves(s: string, u: string, lo: nat, hi: nat, from: nat)
    requires IsWindow(s, u, lo, hi) && from <= |s| && |s| - from >= 2 && s[from] == '['
    ensures ParseHostPortRfc(u, lo + from, hi) == MovedHostPort(ParseHostPortRfc(s, from, |s|), lo)
  {
    IndexShift(s, u, lo, hi, ']', from, |s|);
    CharOfWindow(s, u, lo, hi);
    assert u[lo + from] == s[from];
    var b := IndexIn(s, ']', from, |s|);
    assert b.Some? && b.value + 1 < |s| ==> u[lo + b.value + 1] == s[b.value + 1];
  }

  lemma SplitMoves(s: string, u: string, lo: nat, hi: nat, from: nat)
    requires IsWindow(s, u, lo, hi) && from <= |s|
    ensures SplitAtLastColon(u, lo + from, hi) == MovedHostPort(SplitAtLastColon(s, from, |s|), lo)
  {
    LastShift(s, u, lo, hi, ':', from, |s|);
  }

  lemma HostPortMoves(s: string, u: string, lo: nat, hi: nat, from: nat)
    requires IsWindow(s, u, lo, hi) && from <= |s|
    ensures ParseHostPortRfc(u, lo + from, hi) == MovedHostPort(ParseHostPortRfc(s, from, |s|), lo)
  {
    if |s| - from >= 2 && s[from] == '[' {
      LiteralMoves(s, u, lo, hi, from);
    } else {
      CharOfWindow(s, u, lo, hi);
      assert |s| - from >= 2 ==> u[lo + from] == s[from];
      SplitMoves(s, u, lo, hi, from);
    }
  }

  lemma AuthorityMoves(s: string, u: string, lo: nat, hi: nat)
    requires IsWindow(s, u, lo, hi)
    ensures s != "" ==>
              ParseAuthorityRfc(u, lo, hi) == MovedHostPort(ParseHostPortRfc(s, HostPortStart(s, 0, |s|), |s|), lo)
  {
    if s != "" {
      IndexShift(s, u, lo, hi, '@', 0, |s|);
      HostPortMoves(s, u, lo, hi, HostPortStart(s, 0, |s|));
    }
  }

  lemma PathEndMoves(s: string, u: string, lo: nat)
    requires IsWindow(s, u, lo, |u|)
    ensures PathEnd(u, lo) == lo + PathEnd(s, 0)
  {
    IndexShift(s, u, lo, |u|, '?', 0, |s|);
    IndexShift(s, u, lo, |u|, '#', 0, |s|);
  }

  lemma AfterQueryMoves(s: string, u: string, lo: nat, path: Slice, from: nat)
    requires IsWindow(s, u, lo, |u|) && from <= |s| && path.Within(|s|)
    ensures AfterQuery(u, Moved(path, lo), lo + from) == MovedTail(AfterQuery(s, path, from), lo)
  {
    IndexShift(s, u, lo, |u|, '#', from, |s|);
  }

  lemma FragmentMoves(s: string, u: string, lo: nat)
    requires IsWindow(s, u, lo, |u|) && IndexIn(s, '?', 0, |s|).None?
    ensures ParsePathQueryFragment(u, lo) == MovedTail(ParsePathQueryFragment(s, 0), lo)
  {
    PathEndMoves(s, u, lo);
    IndexShift(s, u, lo, |u|, '?', 0, |s|);
    IndexShift(s, u, lo, |u|, '#', 0, |s|);
  }

  lemma TailMoves(s: string, u: string, lo: nat)
    requires IsWindow(s, u, lo, |u|)
    ensures ParsePathQueryFragment(u, lo) == MovedTail(ParsePathQueryFragment(s, 0), lo)
  {
    match IndexIn(s, '?', 0, |s|)
    case Some(q) =>
      PathEndMoves(s, u, lo);
      IndexShift(s, u, lo, |u|, '?', 0, |s|);
      AfterQueryMoves(s, u, lo, ParsePathQueryFragment(s, 0).path, q + 1);
    case None =>
      FragmentMoves(s, u, lo);
  }

  predicate SameHostPort(u: string, a: HostPort, s: string, b: HostPort)
    requires a.Within(|u|) && b.Within(|s|)
  {
    a.host.In(u) == b.host.In(s) && a.port.In(u) == b.port.In(s)
  }

  predicate SameTail(u: string, a: ParsedPath, s: string, b: ParsedPath)
    requires a.Within(|u|) && b.Within(|s|)
  {
    a.path.In(u) == b.path.In(s) && a.query.In(u) == b.query.In(s) && a.fragment.In(u) == b.fragment.In(s)
  }

  lemma HostPortLocal(s: string, u: string, lo: nat, hi: nat)
    requires IsWindow(s, u, lo, hi)
    ensures SameHostPort(u, ParseHostPortRfc(u, lo, hi), s, ParseHostPortRfc(s, 0, |s|))
  {
    HostPortMoves(s, u, lo, hi, 0);
    var hp := ParseHostPortRfc(s, 0, |s|);
    ReadsSame(s, u, lo, hi, hp.host);
    ReadsSame(s, u, lo, hi, hp.port);
  }

  lemma AuthorityLocal(s: string, u: string, lo: nat, hi: nat)
    requires IsWindow(s, u, lo, hi)
    ensures SameHostPort(u, ParseAuthorityRfc(u, lo, hi), s, ParseHostPortRfc(s, HostPortStart(s, 0, |s|), |s|))
  {
    AuthorityMoves(s, u, lo, hi);
    var hp := ParseHostPortRfc(s, HostPortStart(s, 0, |s|), |s|);
    ReadsSame(s, u, lo, hi, hp.host);
    ReadsSame(s, u, lo, hi, hp.port);
  }

  lemma SplitLocal(s: string, u: string, lo: nat, hi: nat, from: nat)
    requires IsWindow(s, u, lo, hi) && from <= |s|
    ensures SameHostPort(u, SplitAtLastColon(u, lo + from, hi), s, SplitAtLastColon(s, from, |s|))
  {
    SplitMoves(s, u, lo, hi, from);
    var hp := SplitAtLastColon(s, from, |s|);
    ReadsSame(s, u, lo, hi, hp.host);
    ReadsSame(s, u, lo, hi, hp.port);
  }

  /** The minimal parser's authority. */
  lemma MinimalAuthorityLocal(s: string, u: string, lo: nat, hi: nat)
    requires IsWindow(s, u, lo, hi)
    ensures SameHostPort(u, ParseAuthorityMinimal(u, lo, hi), s, SplitAtLastColon(s, HostPortStart(s, 0, |s|), |s|))
  {
    IndexShift(s, u, lo, hi, '@', 0, |s|);
    SplitLocal(s, u, lo, hi, HostPortStart(s, 0, |s|));
  }

  lemma TailLocal(s: string, u: string, lo: nat)
    requires IsWindow(s, u, lo, |u|)
    ensures SameTail(u, ParsePathQueryFragment(u, lo), s, ParsePathQueryFragment(s, 0))
  {
    TailMoves(s, u, lo);
    var p := ParsePathQueryFragment(s, 0);
    ReadsSame(s, u, lo, |u|, p.path);
    ReadsSame(s, u, lo, |u|, p.query);
    ReadsSame(s, u, lo, |u|, p.fragment);
  }
}
