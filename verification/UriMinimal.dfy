/** Printing components as in section 5.3 of RFC 3986 and parsing them again with the minimal parser,
    whose authority ends at the first slash and nowhere else. */
module UriMinimal {
  import opened Core
  import opened Text
  import opened Uri
  import opened UriReading
  import opened UriRoundTrip

  predicate MinimalRoundTrips(c: Components) {
    Matches(ParsedText(Minimal, Print(c)), c)
  }

  // The conditions that differ from those of the RFC parser.

  /** No slash in the authority, which may well hold `?` and `#`; and what follows it is a path that
      starts with a slash, or nothing at all. */
  predicate AuthorityPlain(c: Components) {
    && Free(PrintAuthority(c), '/')
    && (c.path != "" ==> c.path[0] == '/')
    && (c.path == "" ==> c.query.None? && c.fragment.None?)
  }

  /** The last colon of host and port, if there is one, is the one before the port. */
  predicate ColonClear(c: Components) {
    match c.port
    case Some(p) => Free(p, ':')
    case None => Free(c.host, ':')
  }

  predicate MinimalClear(c: Components) {
    SchemeClear(c) && AuthorityPlain(c) && UserinfoClear(c) && ColonClear(c) && TailClear(c)
  }

  // ----- host and port

  predicate SplitIsBack(c: Components) {
    var hp := PrintHostPort(c);
    HostPortReads(hp, SplitAtLastColon(hp, 0, |hp|), c)
  }

  lemma SplitWithPort(c: Components)
    requires c.port.Some?
    ensures SplitIsBack(c) <==> Free(c.port.value, ':')
  {
    var hp := PrintHostPort(c);
    var p := c.port.value;
    var n := |c.host|;
    PrintedHostPort(c);
    var k := LastIn(hp, ':', 0, |hp|).value;
    assert |SplitAtLastColon(hp, 0, |hp|).host.In(hp)| == k;
    if Free(p, ':') {
      assert forall j :: n < j < |hp| ==> hp[j] == p[j - (n + 1)];
      assert k == n;
    } else {
      var i := IndexOf(p, ':').value;
      assert hp[n + 1 + i] == p[n + 1 + i - (n + 1)];
    }
  }

  lemma SplitBack(c: Components)
    ensures SplitIsBack(c) <==> ColonClear(c)
  {
    if c.port.Some? {
      SplitWithPort(c);
    } else {
      var hp := PrintHostPort(c);
      assert hp == c.host;
      match LastIn(hp, ':', 0, |hp|)
      case Some(k) => assert |SplitAtLastColon(hp, 0, |hp|).host.In(hp)| == k;
      case None =>
    }
  }

  // ----- authority

  predicate PlainIsBack(c: Components) {
    var a := PrintAuthority(c);
    && UserinfoText(a) == OrEmpty(c.userinfo)
    && HostPortReads(a, SplitAtLastColon(a, HostPortStart(a, 0, |a|), |a|), c)
  }

  lemma PlainUserinfoBack(c: Components, u: string)
    requires c.userinfo == Some(u)
    ensures PlainIsBack(c) <==> Free(u, '@') && SplitIsBack(c)
  {
    var a := PrintAuthority(c);
    var n := |u|;
    var hp := PrintHostPort(c);
    assert IsWindow(u, a, 0, n) && a[n] == '@' && IsWindow(hp, a, n + 1, |a|);
    IndexShift(u, a, 0, n, '@', 0, n);
    assert |UserinfoText(a)| == IndexOf(a, '@').value;
    if Free(u, '@') {
      assert IndexOf(a, '@') == Some(n);
      SplitLocal(hp, a, n + 1, |a|, 0);
    }
  }

  /** Whatever follows an `@` in front is too short to hold host and port. */
  lemma LeadingAtLosesSplit(c: Components)
    requires var hp := PrintHostPort(c); |hp| > 0 && hp[0] == '@'
    ensures var hp := PrintHostPort(c);
            !HostPortReads(hp, SplitAtLastColon(hp, 1, |hp|), c)
  {
    var hp := PrintHostPort(c);
    PrintedHostPort(c);
    var read := SplitAtLastColon(hp, 1, |hp|);
    if c.port.Some? {
      var k := LastIn(hp, ':', 1, |hp|).value;
      assert |read.host.In(hp)| == k - 1 && |read.port.In(hp)| == |hp| - k - 1;
    } else {
      assert |read.host.In(hp)| < |hp|;
    }
  }

  lemma PlainBack(c: Components)
    ensures PlainIsBack(c) <==> UserinfoClear(c) && ColonClear(c)
  {
    SplitBack(c);
    match c.userinfo
    case Some(u) =>
      PlainUserinfoBack(c, u);
    case None =>
      var at := IndexOf(PrintHostPort(c), '@');
      if at == Some(0) {
        LeadingAtLosesSplit(c);
      } else if at.Some? {
        assert |UserinfoText(PrintAuthority(c))| == at.value;
      }
  }

  // ----- where the authority ends

  lemma EndsAtSlash(u: string, lo: nat, hi: nat)
    requires lo <= hi <= |u|
    ensures AuthorityEndMinimal(u, lo) == hi <==> FreeIn(u, '/', lo, hi) && (hi < |u| ==> u[hi] == '/')
  {
  }

  lemma AuthorityEndsAtSlash(c: Components, u: string, lo: nat, hi: nat)
    requires lo <= hi <= |u| && IsWindow(PrintAuthority(c), u, lo, hi) && IsWindow(PrintTail(c), u, hi, |u|)
    ensures var t := PrintTail(c);
            AuthorityEndMinimal(u, lo) == hi <==> Free(PrintAuthority(c), '/') && (t != "" ==> t[0] == '/')
  {
    EndsAtSlash(u, lo, hi);
    FreeLocal(PrintAuthority(c), u, lo, hi, '/');
    assert hi < |u| ==> u[hi] == PrintTail(c)[hi - hi];
  }

  lemma AuthorityEndsPlain(c: Components)
    requires |c.scheme| + 3 <= |Print(c)|
    ensures var lo := |c.scheme| + 3;
            AuthorityEndMinimal(Print(c), lo) == lo + |PrintAuthority(c)| <==> AuthorityPlain(c)
  {
    var lo := |c.scheme| + 3;
    PrintedPieces(c);
    TailStartsWith(c);
    AuthorityEndsAtSlash(c, Print(c), lo, lo + |PrintAuthority(c)|);
  }

  // ----- the whole URI

  lemma MinimalPieces(u: string, e: nat, hi: nat, a: string, t: string)
    requires Find(u, "://") == Some(e) && e + 3 <= hi <= |u| && hi == AuthorityEndMinimal(u, e + 3)
    requires IsWindow(a, u, e + 3, hi) && IsWindow(t, u, hi, |u|)
    ensures var hp := SplitAtLastColon(a, HostPortStart(a, 0, |a|), |a|);
            var p := ParsePathQueryFragment(t, 0);
            ParsedText(Minimal, u) == UriText(u[0..e], a, hp.host.In(a), hp.port.In(a),
                                              p.path.In(t), p.query.In(t), p.fragment.In(t), u)
  {
    ParseSplits(Minimal, u, e);
    TailLocal(t, u, hi);
    MinimalAuthorityLocal(a, u, e + 3, hi);
  }

  lemma MinimalLengths(u: string, e: nat)
    requires Find(u, "://") == Some(e)
    ensures e + 3 <= |u|
    ensures |ParsedText(Minimal, u).scheme| == e
    ensures |ParsedText(Minimal, u).authority| == AuthorityEndMinimal(u, e + 3) - (e + 3)
  {
    ParseSplits(Minimal, u, e);
  }

  lemma PlainKept(c: Components)
    requires Find(Print(c), "://") == Some(|c.scheme|) && |c.scheme| + 3 <= |Print(c)|
    requires AuthorityEndMinimal(Print(c), |c.scheme| + 3) == |c.scheme| + 3 + |PrintAuthority(c)|
    ensures MinimalRoundTrips(c) <==> PlainIsBack(c) && TailIsBack(c)
  {
    PrintedPieces(c);
    MinimalPieces(Print(c), |c.scheme|, |c.scheme| + 3 + |PrintAuthority(c)|, PrintAuthority(c), PrintTail(c));
  }

  /** Both directions, for every choice of components. */
  lemma MinimalRoundTrip(c: Components)
    ensures MinimalRoundTrips(c) <==> MinimalClear(c)
  {
    SchemeBack(c);
    var e := Find(Print(c), "://").value;
    MinimalLengths(Print(c), e);
    if SchemeClear(c) {
      AuthorityEndsPlain(c);
      if AuthorityPlain(c) {
        PlainKept(c);
        PlainBack(c);
        TailBack(c);
      }
    }
  }
}
