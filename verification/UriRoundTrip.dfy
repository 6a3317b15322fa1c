/** Printing components as in section 5.3 of RFC 3986 and parsing them again with the RFC parser. */
module UriRoundTrip {
  import opened Core
  import opened Text
  import opened Uri
  import opened UriReading

  datatype Components = Components(
    scheme: string, userinfo: Option<string>, host: string, port: Option<string>,
    path: string, query: Option<string>, fragment: Option<string>)

  function OrEmpty(o: Option<string>): string {
    if o.Some? then o.value else ""
  }

  function Prefixed(mark: string, o: Option<string>): string {
    if o.Some? then mark + o.value else ""
  }

  function PrintHostPort(c: Components): string {
    c.host + Prefixed(":", c.port)
  }

  function PrintAuthority(c: Components): string {
    if c.userinfo.Some? then c.userinfo.value + "@" + PrintHostPort(c) else PrintHostPort(c)
  }

  function PrintTail(c: Components): string {
    c.path + (Prefixed("?", c.query) + Prefixed("#", c.fragment))
  }

  function Print(c: Components): string {
    c.scheme + "://" + (PrintAuthority(c) + PrintTail(c))
  }

  predicate Matches(t: UriText, c: Components) {
    && t.scheme == c.scheme
    && t.authority == PrintAuthority(c)
    && t.Userinfo() == OrEmpty(c.userinfo)
    && t.host == c.host && t.port == OrEmpty(c.port)
    && t.path == c.path && t.query == OrEmpty(c.query) && t.fragment == OrEmpty(c.fragment)
  }

  /** Parsing what was printed gives every component back. */
  predicate RoundTrips(c: Components) {
    Matches(ParsedText(Rfc3986, Print(c)), c)
  }

  // The conditions on the components, one predicate for each part of the text.

  predicate SchemeClear(c: Components) {
    Find(c.scheme, "://").None?
  }

  predicate AuthorityClear(c: Components) {
    var a := PrintAuthority(c);
    && Free(a, '/') && Free(a, '?') && Free(a, '#')
    && (c.path == "" || c.path[0] == '/')
  }

  predicate UserinfoClear(c: Components) {
    match c.userinfo
    case Some(u) => Free(u, '@')
    case None => Free(PrintHostPort(c), '@')
  }

  /** A host that opens a bracket must close it at its end and not before; any other host and port
      must leave the last colon, if there is one, to the port. */
  predicate HostPortClear(c: Components) {
    var hp := PrintHostPort(c);
    if |hp| >= 2 && hp[0] == '[' then
      match IndexOf(c.host, ']')
      case Some(b) => b + 1 == |c.host|
      case None => false
    else
      match c.port
      case Some(p) => Free(p, ':')
      case None => Free(c.host, ':')
  }

  predicate TailClear(c: Components) {
    && Free(c.path, '?') && Free(c.path, '#')
    && (match c.query
        case Some(q) => Free(q, '#')
        case None => c.fragment.Some? ==> Free(c.fragment.value, '?'))
  }

  predicate Clear(c: Components) {
    SchemeClear(c) && AuthorityClear(c) && UserinfoClear(c) && HostPortClear(c) && TailClear(c)
  }

  // ----- scheme

  lemma OccurrenceOf(u: string, j: nat)
    ensures OccursAt(u, "://", j) <==> j + 3 <= |u| && u[j] == ':' && u[j + 1] == '/' && u[j + 2] == '/'
  {
    if j + 3 <= |u| {
      var w := u[j..j + 3];
      assert w[0] == u[j] && w[1] == u[j + 1] && w[2] == u[j + 2];
    }
  }

  /** No prefix of the mark is a suffix of it, so an occurrence that starts in the scheme lies in it. */
  lemma OccursInScheme(s: string, rest: string, j: nat)
    requires j < |s|
    ensures OccursAt(s + "://" + rest, "://", j) <==> OccursAt(s, "://", j)
  {
    var u := s + "://" + rest;
    OccurrenceOf(u, j);
    OccurrenceOf(s, j);
    assert u[|s|] == ':';
  }

  lemma SchemeEnd(s: string, rest: string)
    ensures var u := s + "://" + rest;
            match Find(s, "://")
            case None => Find(u, "://") == Some(|s|)
            case Some(i) => Find(u, "://") == Some(i) && i < |s|
  {
    var u := s + "://" + rest;
    assert OccursAt(u, "://", |s|) by {
      OccurrenceOf(u, |s|);
    }
    forall j: nat | j < |s|
      ensures OccursAt(u, "://", j) <==> OccursAt(s, "://", j)
    {
      OccursInScheme(s, rest, j);
    }
    match Find(s, "://")
    case None =>
    case Some(i) => assert OccursAt(s, "://", i);
  }

  // ----- host and port

  /** The host as printed is the front of the text, a port that is there the rest after a colon. */
  lemma PrintedHostPort(c: Components)
    ensures var hp := PrintHostPort(c);
            && IsWindow(c.host, hp, 0, |c.host|)
            && (c.port.None? ==> hp == c.host)
            && (c.port.Some? ==> |c.host| < |hp| && hp[|c.host|] == ':'
                                 && IsWindow(c.port.value, hp, |c.host| + 1, |hp|))
  {
  }

  predicate HostPortReads(u: string, hp: HostPort, c: Components)
    requires hp.Within(|u|)
  {
    hp.host.In(u) == c.host && hp.port.In(u) == OrEmpty(c.port)
  }

  predicate HostPortIsBack(c: Components) {
    var hp := PrintHostPort(c);
    HostPortReads(hp, ParseHostPortRfc(hp, 0, |hp|), c)
  }

  lemma LiteralBack(c: Components)
    requires var hp := PrintHostPort(c); |hp| >= 2 && hp[0] == '['
    ensures HostPortIsBack(c) <==> HostPortClear(c)
  {
    var hp := PrintHostPort(c);
    var n := |c.host|;
    PrintedHostPort(c);
    IndexShift(c.host, hp, 0, n, ']', 0, n);
    var read := ParseHostPortRfc(hp, 0, |hp|);
    match IndexIn(hp, ']', 0, |hp|)
    case None =>
      assert read.host.In(hp) == "" && n > 0;
    case Some(b) =>
      assert |read.host.In(hp)| == b + 1;
      if b + 1 == n {
        if c.port.Some? {
        }
      }
  }

  lemma FreePortBack(c: Components)
    requires c.port.Some? && Free(c.port.value, ':')
    requires var hp := PrintHostPort(c); !(|hp| >= 2 && hp[0] == '[')
    ensures HostPortIsBack(c)
  {
    var hp := PrintHostPort(c);
    var p := c.port.value;
    var n := |c.host|;
    PrintedHostPort(c);
    assert forall j :: n < j < |hp| ==> hp[j] == p[j - (n + 1)];
    assert LastIn(hp, ':', 0, |hp|) == Some(n);
  }

  lemma ColonPortNotBack(c: Components)
    requires c.port.Some? && !Free(c.port.value, ':')
    requires var hp := PrintHostPort(c); !(|hp| >= 2 && hp[0] == '[')
    ensures !HostPortIsBack(c)
  {
    var hp := PrintHostPort(c);
    var p := c.port.value;
    var n := |c.host|;
    PrintedHostPort(c);
    var k := LastIn(hp, ':', 0, |hp|).value;
    assert |ParseHostPortRfc(hp, 0, |hp|).host.In(hp)| == k;
    var i := IndexOf(p, ':').value;
    assert hp[n + 1 + i] == p[n + 1 + i - (n + 1)];
  }

  lemma ColonBackNoPort(c: Components)
    requires c.port.None? && var hp := PrintHostPort(c); !(|hp| >= 2 && hp[0] == '[')
    ensures HostPortIsBack(c) <==> Free(c.host, ':')
  {
    var hp := PrintHostPort(c);
    assert hp == c.host;
    match LastIn(hp, ':', 0, |hp|)
    case Some(k) => assert |ParseHostPortRfc(hp, 0, |hp|).host.In(hp)| == k;
    case None =>
  }

  lemma HostPortBack(c: Components)
    ensures HostPortIsBack(c) <==> HostPortClear(c)
  {
    var hp := PrintHostPort(c);
    if |hp| >= 2 && hp[0] == '[' {
      LiteralBack(c);
    } else if c.port.Some? {
      if Free(c.port.value, ':') {
        FreePortBack(c);
      } else {
        ColonPortNotBack(c);
      }
    } else {
      ColonBackNoPort(c);
    }
  }

  // ----- authority

  predicate AuthorityIsBack(c: Components) {
    var a := PrintAuthority(c);
    && UserinfoText(a) == OrEmpty(c.userinfo)
    && HostPortReads(a, ParseHostPortRfc(a, HostPortStart(a, 0, |a|), |a|), c)
  }

  lemma UserinfoBack(c: Components, u: string)
    requires c.userinfo == Some(u)
    ensures AuthorityIsBack(c) <==> Free(u, '@') && HostPortIsBack(c)
  {
    var a := PrintAuthority(c);
    var n := |u|;
    var hp := PrintHostPort(c);
    assert IsWindow(u, a, 0, n) && a[n] == '@' && IsWindow(hp, a, n + 1, |a|);
    IndexShift(u, a, 0, n, '@', 0, n);
    assert |UserinfoText(a)| == IndexOf(a, '@').value;
    if Free(u, '@') {
      assert IndexOf(a, '@') == Some(n);
      HostPortLocal(hp, a, n + 1, |a|);
    }
  }

  /** Whatever follows an `@` in front, the text after it is too short to hold host and port. */
  lemma LeadingAtLosesText(c: Components)
    requires var hp := PrintHostPort(c); |hp| > 0 && hp[0] == '@'
    ensures var hp := PrintHostPort(c);
            !HostPortReads(hp, ParseHostPortRfc(hp, 1, |hp|), c)
  {
    var hp := PrintHostPort(c);
    var n := |c.host|;
    PrintedHostPort(c);
    var read := ParseHostPortRfc(hp, 1, |hp|);
    if c.port.Some? && |hp| >= 3 && hp[1] == '[' {
      match IndexIn(hp, ']', 1, |hp|)
      case None => assert read.host.In(hp) == "" && n > 0;
      case Some(b) => assert |read.host.In(hp)| == b;
    } else if c.port.Some? {
      var k := LastIn(hp, ':', 1, |hp|).value;
      assert |read.host.In(hp)| == k - 1 && |read.port.In(hp)| == |hp| - k - 1;
    } else {
      assert |read.host.In(hp)| < |hp|;
    }
  }

  lemma AuthorityBack(c: Components)
    ensures AuthorityIsBack(c) <==> UserinfoClear(c) && HostPortClear(c)
  {
    HostPortBack(c);
    match c.userinfo
    case Some(u) =>
      UserinfoBack(c, u);
    case None =>
      var at := IndexOf(PrintHostPort(c), '@');
      if at == Some(0) {
        LeadingAtLosesText(c);
      } else if at.Some? {
        assert |UserinfoText(PrintAuthority(c))| == at.value;
      }
  }

  // ----- path, query and fragment

  predicate TailIsBack(c: Components) {
    var s := PrintTail(c);
    var p := ParsePathQueryFragment(s, 0);
    p.path.In(s) == c.path && p.query.In(s) == OrEmpty(c.query) && p.fragment.In(s) == OrEmpty(c.fragment)
  }

  /** Where the pieces of the printed tail lie. */
  lemma PrintedTail(c: Components)
    ensures var s := PrintTail(c);
            var n := |c.path|;
            && IsWindow(c.path, s, 0, n)
            && (c.query.None? && c.fragment.None? ==> |s| == n)
            && (c.query.None? && c.fragment.Some? ==>
                 n < |s| && s[n] == '#' && IsWindow(c.fragment.value, s, n + 1, |s|))
            && (c.query.Some? ==>
                 var m := n + 1 + |c.query.value|;
                 && m <= |s| && s[n] == '?' && IsWindow(c.query.value, s, n + 1, m)
                 && (c.fragment.None? ==> m == |s|)
                 && (c.fragment.Some? ==> m < |s| && s[m] == '#' && IsWindow(c.fragment.value, s, m + 1, |s|)))
  {
  }

  lemma PathEndsAt(s: string, n: nat)
    requires n <= |s|
    ensures PathEnd(s, 0) == n <==>
            FreeIn(s, '?', 0, n) && FreeIn(s, '#', 0, n) && (n < |s| ==> s[n] == '?' || s[n] == '#')
  {
  }

  lemma PathBack(c: Components)
    ensures var s := PrintTail(c);
            && (ParsePathQueryFragment(s, 0).path.In(s) == c.path <==> Free(c.path, '?') && Free(c.path, '#'))
            && (Free(c.path, '?') && Free(c.path, '#') ==> PathEnd(s, 0) == |c.path|)
  {
    var s := PrintTail(c);
    var n := |c.path|;
    PrintedTail(c);
    PathEndsAt(s, n);
    FreeLocal(c.path, s, 0, n, '?');
    FreeLocal(c.path, s, 0, n, '#');
    assert |ParsePathQueryFragment(s, 0).path.In(s)| == PathEnd(s, 0);
    if PathEnd(s, 0) == n {
    }
  }

  lemma QueryBack(c: Components, path: Slice, from: nat)
    requires c.query.Some? && from == |c.path| + 1 <= |PrintTail(c)| && path.Within(|PrintTail(c)|)
    ensures var s := PrintTail(c);
            var p := AfterQuery(s, path, from);
            p.query.In(s) == c.query.value && p.fragment.In(s) == OrEmpty(c.fragment) <==> Free(c.query.value, '#')
  {
    var s := PrintTail(c);
    var q := c.query.value;
    var m := from + |q|;
    PrintedTail(c);
    IndexShift(q, s, from, m, '#', 0, |q|);
    assert |AfterQuery(s, path, from).query.In(s)|
        == (match IndexIn(s, '#', from, |s|) case Some(h) => h case None => |s|) - from;
    if Free(q, '#') {
      if c.fragment.Some? {
      }
    }
  }

  lemma NoQueryBack(c: Components)
    requires Free(c.path, '?') && Free(c.path, '#') && c.query.None?
    ensures TailIsBack(c) <==> (c.fragment.Some? ==> Free(c.fragment.value, '?'))
  {
    var s := PrintTail(c);
    var n := |c.path|;
    PathBack(c);
    PrintedTail(c);
    if c.fragment.Some? {
      var f := c.fragment.value;
      IndexShift(f, s, n + 1, |s|, '?', 0, |f|);
      assert IndexIn(s, '#', 0, |s|) == Some(n);
      var q := IndexIn(s, '?', 0, |s|);
      if q.Some? {
        assert |ParsePathQueryFragment(s, 0).fragment.In(s)| < |f|;
      }
    }
  }

  lemma TailBack(c: Components)
    ensures TailIsBack(c) <==> TailClear(c)
  {
    PathBack(c);
    if Free(c.path, '?') && Free(c.path, '#') {
      if c.query.Some? {
        PrintedTail(c);
        assert IndexIn(PrintTail(c), '?', 0, |PrintTail(c)|) == Some(|c.path|);
        QueryBack(c, ParsePathQueryFragment(PrintTail(c), 0).path, |c.path| + 1);
      } else {
        NoQueryBack(c);
      }
    }
  }

  // ----- the whole URI

  lemma PrintedPieces(c: Components)
    ensures var u := Print(c);
            var lo := |c.scheme| + 3;
            var hi := lo + |PrintAuthority(c)|;
            && IsWindow(c.scheme, u, 0, |c.scheme|)
            && IsWindow(PrintAuthority(c), u, lo, hi)
            && IsWindow(PrintTail(c), u, hi, |u|)
  {
  }

  lemma SchemeBack(c: Components)
    ensures var e := Find(Print(c), "://");
            e.Some? && if SchemeClear(c) then e.value == |c.scheme| else e.value < |c.scheme|
  {
    SchemeEnd(c.scheme, PrintAuthority(c) + PrintTail(c));
  }

  lemma ParsedLengths(u: string, e: nat)
    requires Find(u, "://") == Some(e)
    ensures e + 3 <= |u|
    ensures |ParsedText(Rfc3986, u).scheme| == e
    ensures |ParsedText(Rfc3986, u).authority| == AuthorityEndRfc(u, e + 3) - (e + 3)
  {
    ParseSplits(Rfc3986, u, e);
  }

  lemma EndsAt(u: string, lo: nat, hi: nat)
    requires lo <= hi <= |u|
    ensures AuthorityEndRfc(u, lo) == hi <==>
            && FreeIn(u, '/', lo, hi) && FreeIn(u, '?', lo, hi) && FreeIn(u, '#', lo, hi)
            && (hi < |u| ==> u[hi] == '/' || u[hi] == '?' || u[hi] == '#')
  {
  }

  lemma FreeLocal(s: string, u: string, lo: nat, hi: nat, c: char)
    requires IsWindow(s, u, lo, hi)
    ensures FreeIn(u, c, lo, hi) <==> Free(s, c)
  {
    IndexShift(s, u, lo, hi, c, 0, |s|);
  }

  /** What the printed tail starts with. */
  lemma TailStartsWith(c: Components)
    ensures var t := PrintTail(c);
            && (c.path != "" ==> t != "" && t[0] == c.path[0])
            && (c.path == "" && c.query.Some? ==> t != "" && t[0] == '?')
            && (c.path == "" && c.query.None? && c.fragment.Some? ==> t != "" && t[0] == '#')
            && (c.path == "" && c.query.None? && c.fragment.None? ==> t == "")
  {
  }

  lemma AuthorityEndsAt(c: Components, u: string, lo: nat, hi: nat)
    requires lo <= hi <= |u| && IsWindow(PrintAuthority(c), u, lo, hi) && IsWindow(PrintTail(c), u, hi, |u|)
    ensures var t := PrintTail(c);
            var a := PrintAuthority(c);
            AuthorityEndRfc(u, lo) == hi <==>
              && Free(a, '/') && Free(a, '?') && Free(a, '#')
              && (t != "" ==> t[0] == '/' || t[0] == '?' || t[0] == '#')
  {
    var a := PrintAuthority(c);
    EndsAt(u, lo, hi);
    FreeLocal(a, u, lo, hi, '/');
    FreeLocal(a, u, lo, hi, '?');
    FreeLocal(a, u, lo, hi, '#');
    assert hi < |u| ==> u[hi] == PrintTail(c)[hi - hi];
  }

  /** The authority ends where it was printed exactly if nothing in it, and no path after it, moves
      its end. */
  lemma AuthorityEndsBack(c: Components)
    requires |c.scheme| + 3 <= |Print(c)|
    ensures var lo := |c.scheme| + 3;
            var aligned := AuthorityEndRfc(Print(c), lo) == lo + |PrintAuthority(c)|;
            (AuthorityClear(c) ==> aligned) && (TailClear(c) && aligned ==> AuthorityClear(c))
  {
    var lo := |c.scheme| + 3;
    PrintedPieces(c);
    TailStartsWith(c);
    AuthorityEndsAt(c, Print(c), lo, lo + |PrintAuthority(c)|);
  }

  lemma PiecesRead(u: string, e: nat)
    requires Find(u, "://") == Some(e)
    ensures e + 3 <= |u|
    ensures var hi := AuthorityEndRfc(u, e + 3);
            var hp := ParseAuthorityRfc(u, e + 3, hi);
            var p := ParsePathQueryFragment(u, hi);
            ParsedText(Rfc3986, u) == UriText(u[0..e], u[e + 3..hi], hp.host.In(u), hp.port.In(u),
                                              p.path.In(u), p.query.In(u), p.fragment.In(u), u)
  {
    ParseSplits(Rfc3986, u, e);
  }

  lemma PiecesReadAlone(u: string, e: nat, hi: nat, a: string, t: string)
    requires Find(u, "://") == Some(e) && e + 3 <= hi <= |u| && hi == AuthorityEndRfc(u, e + 3)
    requires IsWindow(a, u, e + 3, hi) && IsWindow(t, u, hi, |u|)
    ensures var hp := ParseHostPortRfc(a, HostPortStart(a, 0, |a|), |a|);
            var p := ParsePathQueryFragment(t, 0);
            ParsedText(Rfc3986, u) == UriText(u[0..e], a, hp.host.In(a), hp.port.In(a),
                                              p.path.In(t), p.query.In(t), p.fragment.In(t), u)
  {
    PiecesRead(u, e);
    TailLocal(t, u, hi);
    AuthorityLocal(a, u, e + 3, hi);
  }

  lemma AuthorityKept(c: Components, u: string, lo: nat, hi: nat)
    requires Find(u, "://") == Some(|c.scheme|) && lo == |c.scheme| + 3 <= hi <= |u|
    requires hi == AuthorityEndRfc(u, lo) && IsWindow(c.scheme, u, 0, |c.scheme|)
    requires IsWindow(PrintAuthority(c), u, lo, hi) && IsWindow(PrintTail(c), u, hi, |u|)
    ensures Matches(ParsedText(Rfc3986, u), c) <==> AuthorityIsBack(c) && TailIsBack(c)
  {
    PiecesReadAlone(u, |c.scheme|, hi, PrintAuthority(c), PrintTail(c));
  }

  lemma KeptWhenAligned(c: Components, hi: nat)
    requires Find(Print(c), "://") == Some(|c.scheme|) && |c.scheme| + 3 <= |Print(c)|
    requires hi == |c.scheme| + 3 + |PrintAuthority(c)| == AuthorityEndRfc(Print(c), |c.scheme| + 3)
    ensures RoundTrips(c) <==> AuthorityIsBack(c) && TailIsBack(c)
  {
    PrintedPieces(c);
    AuthorityKept(c, Print(c), |c.scheme| + 3, hi);
  }

  lemma LostOtherwise(c: Components)
    ensures var u := Print(c);
            var e := Find(u, "://");
            && e.Some? && e.value + 3 <= |u|
            && (e.value != |c.scheme| ==> !RoundTrips(c))
            && (AuthorityEndRfc(u, e.value + 3) != e.value + 3 + |PrintAuthority(c)| ==> !RoundTrips(c))
  {
    SchemeBack(c);
    ParsedLengths(Print(c), Find(Print(c), "://").value);
  }

  /** Both directions, for every choice of components. */
  lemma RoundTrip(c: Components)
    ensures RoundTrips(c) <==> Clear(c)
  {
    SchemeBack(c);
    LostOtherwise(c);
    if SchemeClear(c) {
      var lo := |c.scheme| + 3;
      AuthorityEndsBack(c);
      if AuthorityEndRfc(Print(c), lo) == lo + |PrintAuthority(c)| {
        KeptWhenAligned(c, lo + |PrintAuthority(c)|);
        AuthorityBack(c);
        TailBack(c);
      }
    }
  }
}
