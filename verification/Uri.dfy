/** uri.hpp: the two parsers.  A component is a slice of the parsed text; `Null` is the default
    `string_view{}` of a component the parser never assigned. */
module Uri {
  import opened Core
  import opened Text

  datatype Slice = Null | At(lo: nat, hi: nat) {
    predicate Within(n: nat) {
      At? ==> lo <= hi <= n
    }

    function In(s: string): string
      requires Within(|s|)
    {
      if Null? then "" else s[lo..hi]
    }
  }

  datatype UriView = UriView(
    scheme: Slice, authority: Slice, host: Slice, port: Slice,
    path: Slice, query: Slice, fragment: Slice, full: Slice)
  {
    predicate Within(n: nat) {
      && scheme.Within(n) && authority.Within(n) && host.Within(n) && port.Within(n)
      && path.Within(n) && query.Within(n) && fragment.Within(n) && full.Within(n)
    }

    /** What a reader of the view sees. */
    function Read(s: string): UriText
      requires Within(|s|)
    {
      UriText(scheme.In(s), authority.In(s), host.In(s), port.In(s), path.In(s), query.In(s), fragment.In(s), full.In(s))
    }
  }

  /** The characters of every component; an absent component reads like an empty one. */
  datatype UriText = UriText(
    scheme: string, authority: string, host: string, port: string,
    path: string, query: string, fragment: string, full: string)
  {
    function Userinfo(): string {
      UserinfoText(authority)
    }
  }

  function UserinfoText(authority: string): string {
    match IndexOf(authority, '@')
    case Some(at) => authority[..at]
    case None => ""
  }

  const NO_VIEW := UriView(Null, Null, Null, Null, Null, Null, Null, Null)
  const NO_TEXT := UriText("", "", "", "", "", "", "", "")

  // ----- path, query and fragment

  /** `detail::parsed_path`. */
  datatype ParsedPath = ParsedPath(path: Slice, query: Slice, fragment: Slice) {
    predicate Within(n: nat) {
      path.Within(n) && query.Within(n) && fragment.Within(n)
    }
  }

  const NO_PATH := ParsedPath(Null, Null, Null)

  /** The path reaches up to the first `?` or `#`. */
  function PathEnd(u: string, lo: nat): (end: nat)
    requires lo <= |u|
    ensures lo <= end <= |u|
  {
    var q := IndexIn(u, '?', lo, |u|);
    var h := IndexIn(u, '#', lo, |u|);
    var end := if q.Some? then q.value else |u|;
    if h.Some? && h.value < end then h.value else end
  }

  /** Query and fragment in the text that follows the first `?`. */
  function AfterQuery(u: string, path: Slice, from: nat): (p: ParsedPath)
    requires from <= |u| && path.Within(|u|)
    ensures p.Within(|u|) && p.path == path
  {
    match IndexIn(u, '#', from, |u|)
    case Some(h) => ParsedPath(path, At(from, h), At(h + 1, |u|))
    case None => ParsedPath(path, At(from, |u|), Null)
  }

  /** `parse_path_query_fragment` on the text from `lo` on. */
  function ParsePathQueryFragment(u: string, lo: nat): (p: ParsedPath)
    requires lo <= |u|
    ensures p.Within(|u|)
  {
    var end := PathEnd(u, lo);
    var path := if end > lo then At(lo, end) else Null;
    match IndexIn(u, '?', lo, |u|)
    case Some(q) => AfterQuery(u, path, q + 1)
    case None =>
      match IndexIn(u, '#', lo, |u|)
      case Some(h) => ParsedPath(path, Null, At(h + 1, |u|))
      case None => ParsedPath(path, Null, Null)
  }

  // ----- authority

  /** The part of the out-parameter that the authority helpers fill beside the authority itself. */
  datatype HostPort = HostPort(host: Slice, port: Slice) {
    predicate Within(n: nat) {
      host.Within(n) && port.Within(n)
    }
  }

  /** Host and port start after the first `@` of the authority. */
  function HostPortStart(u: string, lo: nat, hi: nat): (r: nat)
    requires lo <= hi <= |u|
    ensures lo <= r <= hi
  {
    match IndexIn(u, '@', lo, hi)
    case Some(at) => at + 1
    case None => lo
  }

  /** The split at the last colon, which both parsers use. */
  function SplitAtLastColon(u: string, from: nat, hi: nat): (hp: HostPort)
    requires from <= hi <= |u|
    ensures hp.Within(|u|)
  {
    match LastIn(u, ':', from, hi)
    case Some(c) => HostPort(At(from, c), At(c + 1, hi))
    case None => HostPort(At(from, hi), Null)
  }

  function ParseAuthorityMinimal(u: string, lo: nat, hi: nat): (hp: HostPort)
    requires lo <= hi <= |u|
    ensures hp.Within(|u|)
  {
    SplitAtLastColon(u, HostPortStart(u, lo, hi), hi)
  }

  /** What the RFC parser does with the text after the first `@`. */
  function ParseHostPortRfc(u: string, from: nat, hi: nat): (hp: HostPort)
    requires from <= hi <= |u|
    ensures hp.Within(|u|)
  {
    if hi - from >= 2 && u[from] == '[' then
      match IndexIn(u, ']', from, hi)
      case None => HostPort(Null, Null)
      case Some(b) => HostPort(At(from, b + 1), if b + 1 < hi && u[b + 1] == ':' then At(b + 2, hi) else Null)
    else SplitAtLastColon(u, from, hi)
  }

  function ParseAuthorityRfc(u: string, lo: nat, hi: nat): (hp: HostPort)
    requires lo <= hi <= |u|
    ensures hp.Within(|u|)
  {
    if lo == hi then HostPort(Null, Null)
    else ParseHostPortRfc(u, HostPortStart(u, lo, hi), hi)
  }

  function ParseAuthority(parser: UriParser, u: string, lo: nat, hi: nat): (hp: HostPort)
    requires lo <= hi <= |u|
    ensures hp.Within(|u|)
  {
    match parser
    case Minimal => ParseAuthorityMinimal(u, lo, hi)
    case Rfc3986 => ParseAuthorityRfc(u, lo, hi)
  }

  /** Where the minimal parser ends the authority that starts at `lo`. */
  function AuthorityEndMinimal(u: string, lo: nat): (hi: nat)
    requires lo <= |u|
    ensures lo <= hi <= |u|
  {
    match IndexIn(u, '/', lo, |u|)
    case Some(p) => p
    case None => |u|
  }

  /** Where the RFC parser ends it: the first of `/`, `?` and `#`. */
  function AuthorityEndRfc(u: string, lo: nat): (hi: nat)
    requires lo <= |u|
    ensures lo <= hi <= |u|
  {
    var p := IndexIn(u, '/', lo, |u|);
    var q := IndexIn(u, '?', lo, |u|);
    var h := IndexIn(u, '#', lo, |u|);
    var end := if p.Some? then p.value else |u|;
    var end := if q.Some? && q.value < end then q.value else end;
    if h.Some? && h.value < end then h.value else end
  }

  function AuthorityEnd(parser: UriParser, u: string, lo: nat): (hi: nat)
    requires lo <= |u|
    ensures lo <= hi <= |u|
  {
    match parser
    case Minimal => AuthorityEndMinimal(u, lo)
    case Rfc3986 => AuthorityEndRfc(u, lo)
  }

  // ----- the parsers

  /** Whether text is left for `parse_path_query_fragment`: the minimal parser asks for a slash,
      the RFC parser for any character. */
  predicate HasTail(parser: UriParser, u: string, lo: nat)
    requires lo <= |u|
  {
    match parser
    case Minimal => IndexIn(u, '/', lo, |u|).Some?
    case Rfc3986 => AuthorityEndRfc(u, lo) < |u|
  }

  function Assemble(u: string, scheme: Slice, authority: Slice, hp: HostPort, p: ParsedPath): UriView {
    UriView(scheme, authority, hp.host, hp.port, p.path, p.query, p.fragment, At(0, |u|))
  }

  function Parse(parser: UriParser, u: string): (v: UriView)
    ensures v.Within(|u|)
  {
    if u == "" then NO_VIEW
    else
      match Find(u, "://")
      case Some(e) =>
        var lo := e + 3;
        var hi := AuthorityEnd(parser, u, lo);
        Assemble(u, At(0, e), At(lo, hi), ParseAuthority(parser, u, lo, hi),
                 if HasTail(parser, u, lo) then ParsePathQueryFragment(u, hi) else NO_PATH)
      case None =>
        Assemble(u, Null, Null, HostPort(Null, Null), ParsePathQueryFragment(u, 0))
  }

  /** The components as the parser reports them. */
  function ParsedText(parser: UriParser, u: string): UriText {
    Parse(parser, u).Read(u)
  }

  /** Parsing an empty tail finds nothing, so the two conditions in `HasTail` make no difference. */
  lemma ParseSplits(parser: UriParser, u: string, e: nat)
    requires Find(u, "://") == Some(e)
    ensures e + 3 <= |u| && u[e..e + 3] == "://"
    ensures var lo := e + 3;
            var hi := AuthorityEnd(parser, u, lo);
            Parse(parser, u) ==
            Assemble(u, At(0, e), At(lo, hi), ParseAuthority(parser, u, lo, hi), ParsePathQueryFragment(u, hi))
  {
    assert OccursAt(u, "://", e);
  }
}
