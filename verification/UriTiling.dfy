/** Every parse is a tiling: the components lie in order, and together with their delimiters they
    give back the input, exactly unless a `#` comes before the first `?`. */
module UriTiling {
  import opened Core
  import opened Text
  import opened Uri

  /** `a` ends before `b` starts, leaving room for `gap` delimiter characters. */
  predicate Before(a: Slice, gap: nat, b: Slice) {
    a.At? && b.At? ==> a.hi + gap <= b.lo
  }

  predicate TailInOrder(lo: nat, p: ParsedPath) {
    && (p.path.At? ==> p.path.lo == lo)
    && (p.query.At? ==> lo + 1 <= p.query.lo)
    && (p.fragment.At? ==> lo + 1 <= p.fragment.lo)
    && Before(p.path, 1, p.query) && Before(p.path, 1, p.fragment) && Before(p.query, 1, p.fragment)
  }

  /** Components are in bounds, in the order of the grammar, and do not overlap: scheme and
      authority are both there or both absent, and all else starts where the authority ends. */
  predicate InOrder(u: string, v: UriView) {
    && v.Within(|u|)
    && (v.scheme.At? <==> v.authority.At?)
    && (v.scheme.At? ==> v.scheme.lo == 0 && v.authority.lo == v.scheme.hi + 3)
    && TailInOrder(if v.authority.At? then v.authority.hi else 0, ParsedPath(v.path, v.query, v.fragment))
  }

  /** Host, then a colon, then port, inside the authority and after its first `@`; a port that is
      there reaches the end of the authority. */
  predicate HostPortInside(u: string, authority: Slice, hp: HostPort)
    requires authority.Within(|u|) && hp.Within(|u|)
  {
    && (hp.host.At? ==> authority.At? && hp.host.lo == HostPortStart(u, authority.lo, authority.hi)
                        && hp.host.hi <= authority.hi)
    && (hp.port.At? ==> hp.host.At? && hp.port.lo == hp.host.hi + 1 && u[hp.host.hi] == ':'
                        && hp.port.hi == authority.hi)
  }

  lemma AuthorityInside(parser: UriParser, u: string, lo: nat, hi: nat)
    requires lo <= hi <= |u|
    ensures HostPortInside(u, At(lo, hi), ParseAuthority(parser, u, lo, hi))
  {
  }

  lemma TailOrdered(u: string, lo: nat)
    requires lo <= |u|
    ensures TailInOrder(lo, ParsePathQueryFragment(u, lo))
  {
  }

  /** For every input and both parsers. */
  lemma ParseInOrder(parser: UriParser, u: string)
    ensures var v := Parse(parser, u);
            && InOrder(u, v)
            && HostPortInside(u, v.authority, HostPort(v.host, v.port))
  {
    match Find(u, "://")
    case None =>
      TailOrdered(u, 0);
    case Some(e) =>
      ParseSplits(parser, u, e);
      var hi := AuthorityEnd(parser, u, e + 3);
      AuthorityInside(parser, u, e + 3, hi);
      TailOrdered(u, hi);
  }

  predicate HashBeforeQuery(u: string, lo: nat)
    requires lo <= |u|
  {
    var q := IndexIn(u, '?', lo, |u|);
    var h := IndexIn(u, '#', lo, |u|);
    q.Some? && h.Some? && h.value < q.value
  }

  /** Where the text starts that the parser hands to `parse_path_query_fragment`. */
  function TailStart(parser: UriParser, u: string): (lo: nat)
    ensures lo <= |u|
  {
    match Find(u, "://")
    case None => 0
    case Some(e) => AuthorityEnd(parser, u, e + 3)
  }

  /** The component lies directly after `from` and the delimiter `mark`, when it is there. */
  predicate FollowsWith(u: string, from: nat, mark: char, c: Slice)
    requires from <= |u|
  {
    c.At? ==> from < |u| && u[from] == mark && c.lo == from + 1
  }

  function End(from: nat, c: Slice): nat {
    if c.At? then c.hi else from
  }

  /** Path, query and fragment with their delimiters fill the text from `lo` to its end without a
      gap or an overlap. */
  predicate TailTiles(u: string, lo: nat, p: ParsedPath)
    requires p.Within(|u|) && lo <= |u|
  {
    var afterPath := End(lo, p.path);
    var afterQuery := End(afterPath, p.query);
    && (p.path.At? ==> p.path.lo == lo)
    && FollowsWith(u, afterPath, '?', p.query)
    && FollowsWith(u, afterQuery, '#', p.fragment)
    && End(afterQuery, p.fragment) == |u|
  }

  /** All components with their delimiters fill the whole text. */
  predicate Tiles(u: string, v: UriView)
    requires v.Within(|u|)
  {
    && (v.scheme.At? ==> v.authority.At? && v.scheme.lo == 0
                         && v.authority.lo == v.scheme.hi + 3 && u[v.scheme.hi..v.authority.lo] == "://")
    && (v.scheme.Null? ==> v.authority.Null?)
    && TailTiles(u, End(0, v.authority), ParsedPath(v.path, v.query, v.fragment))
  }

  lemma ParseTailTiles(u: string, lo: nat)
    requires lo <= |u|
    ensures TailTiles(u, lo, ParsePathQueryFragment(u, lo)) <==> !HashBeforeQuery(u, lo)
  {
  }

  /** The components tile the input if and only if, in the text after the authority, no `#` comes
      before the first `?`. */
  lemma ParseTiles(parser: UriParser, u: string)
    ensures Tiles(u, Parse(parser, u)) <==> !HashBeforeQuery(u, TailStart(parser, u))
  {
    match Find(u, "://")
    case None =>
      ParseTailTiles(u, 0);
    case Some(e) =>
      ParseSplits(parser, u, e);
      ParseTailTiles(u, AuthorityEnd(parser, u, e + 3));
  }

  // ----- sections 3.3 to 3.5 of RFC 3986

  /** The path ends at the first `?` or `#`, the query reaches from a `?` before any `#` to the first
      `#`, and the fragment is everything after the first `#`. */
  function FragmentByRfc(u: string, lo: nat): string
    requires lo <= |u|
  {
    match IndexIn(u, '#', lo, |u|)
    case Some(h) => u[h + 1..]
    case None => ""
  }

  function QueryByRfc(u: string, lo: nat): string
    requires lo <= |u|
  {
    var end := match IndexIn(u, '#', lo, |u|) case Some(h) => h case None => |u|;
    match IndexIn(u, '?', lo, end)
    case Some(q) => u[q + 1..end]
    case None => ""
  }

  function PathByRfc(u: string, lo: nat): string
    requires lo <= |u|
  {
    var end := match IndexIn(u, '#', lo, |u|) case Some(h) => h case None => |u|;
    match IndexIn(u, '?', lo, end)
    case Some(q) => u[lo..q]
    case None => u[lo..end]
  }

  lemma PathConforms(u: string, lo: nat)
    requires lo <= |u|
    ensures ParsePathQueryFragment(u, lo).path.In(u) == PathByRfc(u, lo)
  {
  }

  /** The fragment is what section 3.5 says if and only if no `#` comes before the first `?`. */
  lemma FragmentConforms(u: string, lo: nat)
    requires lo <= |u|
    ensures ParsePathQueryFragment(u, lo).fragment.In(u) == FragmentByRfc(u, lo) <==> !HashBeforeQuery(u, lo)
  {
    if HashBeforeQuery(u, lo) {
      var p := ParsePathQueryFragment(u, lo);
      assert |p.fragment.In(u)| < |FragmentByRfc(u, lo)|;
    }
  }

  /** And then the query is what section 3.4 says. */
  lemma QueryConforms(u: string, lo: nat)
    requires lo <= |u| && !HashBeforeQuery(u, lo)
    ensures ParsePathQueryFragment(u, lo).query.In(u) == QueryByRfc(u, lo)
  {
  }

  /** For every input and both parsers: given where the authority ends, the path conforms always, and
      query and fragment if and only if no `#` comes before the first `?` there. */
  lemma TailConforms(parser: UriParser, u: string)
    ensures var t := ParsedText(parser, u);
            var lo := TailStart(parser, u);
            && t.path == PathByRfc(u, lo)
            && (t.query == QueryByRfc(u, lo) && t.fragment == FragmentByRfc(u, lo) <==> !HashBeforeQuery(u, lo))
  {
    var lo := TailStart(parser, u);
    PathConforms(u, lo);
    FragmentConforms(u, lo);
    if !HashBeforeQuery(u, lo) {
      QueryConforms(u, lo);
    }
    if Find(u, "://").Some? {
      ParseSplits(parser, u, Find(u, "://").value);
    }
  }

  /** A component with its delimiter, when it is there. */
  function Marked(u: string, mark: string, c: Slice): string
    requires c.Within(|u|)
  {
    if c.At? then mark + c.In(u) else ""
  }

  /** All components with their delimiters, as in section 5.3 of RFC 3986. */
  function Recompose(u: string, v: UriView): string
    requires v.Within(|u|)
  {
    (if v.scheme.At? then v.scheme.In(u) + "://" + v.authority.In(u) else "")
    + Marked(u, "", v.path) + Marked(u, "?", v.query) + Marked(u, "#", v.fragment)
  }

  lemma ExtendFront(u: string, from: nat, mark: string, c: Slice)
    requires from <= |u| && c.Within(|u|)
    requires c.At? ==> from + |mark| == c.lo && u[from..c.lo] == mark
    ensures End(from, c) <= |u| && u[..from] + Marked(u, mark, c) == u[..End(from, c)]
  {
  }

  lemma OneChar(u: string, from: nat, mark: char, c: Slice)
    requires from <= |u| && c.Within(|u|) && FollowsWith(u, from, mark, c)
    ensures End(from, c) <= |u| && u[..from] + Marked(u, [mark], c) == u[..End(from, c)]
  {
    if c.At? {
      assert u[from..c.lo] == [mark];
    }
    ExtendFront(u, from, [mark], c);
  }

  lemma FrontRecomposed(u: string, v: UriView)
    requires v.Within(|u|) && Tiles(u, v)
    ensures (if v.scheme.At? then v.scheme.In(u) + "://" + v.authority.In(u) else "") == u[..End(0, v.authority)]
  {
    if v.scheme.At? {
      ExtendFront(u, v.scheme.hi, "://", v.authority);
      assert v.scheme.In(u) + ("://" + v.authority.In(u)) == v.scheme.In(u) + "://" + v.authority.In(u);
    }
  }

  /** Components that tile a text give it back, so no two texts parse to the same tiling. */
  lemma TilesRecompose(u: string, v: UriView)
    requires v.Within(|u|) && Tiles(u, v)
    ensures Recompose(u, v) == u
  {
    FrontRecomposed(u, v);
    var a := End(0, v.authority);
    var b := End(a, v.path);
    ExtendFront(u, a, "", v.path);
    OneChar(u, b, '?', v.query);
    OneChar(u, End(b, v.query), '#', v.fragment);
  }

  /** Section 3.5 of RFC 3986 ends the query at the first `#`; the code reads a query after it. */
  lemma HashThenQueryIsLost()
    ensures ParsedText(Rfc3986, "/a#b?c").query == "c" && ParsedText(Rfc3986, "/a#b?c").fragment == ""
  {
    var u := "/a#b?c";
    assert u[4] == '?' && u[2] == '#';
    assert IndexIn(u, '?', 0, |u|) == Some(4) && IndexIn(u, '#', 0, |u|) == Some(2);
    assert Find(u, "://").None?;
  }
}
