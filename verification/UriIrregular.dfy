/** What the parsers read out of texts that are not printed components: brackets that are left open or
    followed by something else than a port, and a `#` before the first `?`. */
module UriIrregular {
  import opened Core
  import opened Text
  import opened Uri
  import opened UriReading
  import opened UriRoundTrip

  /** The host that the RFC parser reads out of a text that starts with a bracket: all up to the first
      closing one, and nothing if there is none. */
  lemma BracketReads(hp: string)
    requires |hp| >= 2 && hp[0] == '['
    ensures var read := ParseHostPortRfc(hp, 0, |hp|);
            match IndexOf(hp, ']')
            case None => read.host.In(hp) == "" && read.port.In(hp) == ""
            case Some(b) =>
              && read.host.In(hp) == hp[..b + 1]
              && read.port.In(hp) == if b + 1 < |hp| && hp[b + 1] == ':' then hp[b + 2..] else ""
  {
  }

  /** The same inside a whole URI, whatever follows the first `@`: all other components are as printed. */
  lemma BracketedAuthorityReads(c: Components)
    requires c.port.None? && |c.host| >= 2 && c.host[0] == '['
    requires SchemeClear(c) && AuthorityClear(c) && UserinfoClear(c) && TailClear(c)
    ensures var t := ParsedText(Rfc3986, Print(c));
            && t.scheme == c.scheme && t.authority == PrintAuthority(c) && t.Userinfo() == OrEmpty(c.userinfo)
            && t.path == c.path && t.query == OrEmpty(c.query) && t.fragment == OrEmpty(c.fragment)
            && match IndexOf(c.host, ']')
               case None => t.host == "" && t.port == ""
               case Some(b) =>
                 && t.host == c.host[..b + 1]
                 && t.port == if b + 1 < |c.host| && c.host[b + 1] == ':' then c.host[b + 2..] else ""
  {
    var u := Print(c);
    var a := PrintAuthority(c);
    SchemeBack(c);
    PrintedPieces(c);
    AuthorityEndsBack(c);
    PiecesReadAlone(u, |c.scheme|, |c.scheme| + 3 + |a|, a, PrintTail(c));
    TailBack(c);
    BracketReads(c.host);
    HostAfterUserinfo(c);
  }

  lemma HostAfterUserinfo(c: Components)
    requires c.port.None? && UserinfoClear(c)
    ensures var a := PrintAuthority(c);
            && UserinfoText(a) == OrEmpty(c.userinfo)
            && SameHostPort(a, ParseHostPortRfc(a, HostPortStart(a, 0, |a|), |a|), c.host, ParseHostPortRfc(c.host, 0, |c.host|))
  {
    var a := PrintAuthority(c);
    assert PrintHostPort(c) == c.host;
    match c.userinfo
    case None => HostPortLocal(c.host, a, 0, |a|);
    case Some(u) =>
      var n := |u|;
      assert IsWindow(u, a, 0, n) && a[n] == '@' && IsWindow(c.host, a, n + 1, |a|);
      IndexShift(u, a, 0, n, '@', 0, n);
      assert IndexOf(a, '@') == Some(n);
      HostPortLocal(c.host, a, n + 1, |a|);
  }

  function PrintLost(path: string, lost: string, query: string, fragment: Option<string>): string {
    path + ("#" + lost) + ("?" + query) + Prefixed("#", fragment)
  }

  /** The pieces of such a text. */
  predicate LostPieces(s: string, path: string, lost: string, query: string, fragment: Option<string>) {
    var n := |path|;
    var m := n + 1 + |lost|;
    var k := m + 1 + |query|;
    && k <= |s| && IsWindow(path, s, 0, n) && s[n] == '#' && IsWindow(lost, s, n + 1, m)
    && s[m] == '?' && IsWindow(query, s, m + 1, k)
    && (fragment.None? ==> k == |s|)
    && (fragment.Some? ==> k < |s| && s[k] == '#' && IsWindow(fragment.value, s, k + 1, |s|))
  }

  lemma PrintedLost(path: string, lost: string, query: string, fragment: Option<string>)
    ensures LostPieces(PrintLost(path, lost, query, fragment), path, lost, query, fragment)
  {
    var front := path + ("#" + lost);
    var s := front + ("?" + query) + Prefixed("#", fragment);
    assert front[0..|path|] == path && front[|path| + 1..|front|] == lost;
    var middle := front + ("?" + query);
    assert middle[..|front|] == front && middle[|front| + 1..|middle|] == query;
    assert s[..|middle|] == middle;
    assert s[0..|path|] == path && s[|path| + 1..|front|] == lost && s[|front| + 1..|middle|] == query;
  }

  lemma LostIsLost(s: string, path: string, lost: string, query: string, fragment: Option<string>)
    requires LostPieces(s, path, lost, query, fragment)
    requires Free(path, '?') && Free(path, '#') && Free(lost, '?') && Free(query, '#')
    ensures var p := ParsePathQueryFragment(s, 0);
            p.path.In(s) == path && p.query.In(s) == query && p.fragment.In(s) == OrEmpty(fragment)
  {
    var n := |path|;
    var m := n + 1 + |lost|;
    var k := m + 1 + |query|;
    FreeLocal(path, s, 0, n, '?');
    FreeLocal(path, s, 0, n, '#');
    FreeLocal(lost, s, n + 1, m, '?');
    FreeLocal(query, s, m + 1, k, '#');
    assert IndexIn(s, '?', 0, |s|) == Some(m) && IndexIn(s, '#', 0, |s|) == Some(n);
    assert fragment.Some? ==> IndexIn(s, '#', m + 1, |s|) == Some(k);
  }

  /** A `#` before the first `?`: the text between the two is in no component, the query is read up to
      the next `#`, and only what follows that one is the fragment. */
  lemma HashBeforeQueryReads(path: string, lost: string, query: string, fragment: Option<string>)
    requires Free(path, '?') && Free(path, '#') && Free(lost, '?') && Free(query, '#')
    ensures var s := PrintLost(path, lost, query, fragment);
            var p := ParsePathQueryFragment(s, 0);
            p.path.In(s) == path && p.query.In(s) == query && p.fragment.In(s) == OrEmpty(fragment)
  {
    PrintedLost(path, lost, query, fragment);
    LostIsLost(PrintLost(path, lost, query, fragment), path, lost, query, fragment);
  }
}
