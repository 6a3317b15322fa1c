/** When the minimal and the RFC 3986 parser report the same components. */
module UriAgreement {
  import opened Core
  import opened Text
  import opened Uri

  /** A bracketed literal, alone and without a colon, or followed by a colon and a colon-free port. */
  predicate PlainLiteral(u: string, from: nat, hi: nat)
    requires from <= hi <= |u|
  {
    match IndexIn(u, ']', from, hi)
    case None => false
    case Some(b) =>
      if b + 1 == hi then FreeIn(u, ':', from, hi)
      else u[b + 1] == ':' && FreeIn(u, ':', b + 2, hi)
  }

  predicate SameHostPort(u: string, from: nat, hi: nat)
    requires from <= hi <= |u|
  {
    hi - from >= 2 && u[from] == '[' ==> PlainLiteral(u, from, hi)
  }

  /** What a caller can check before choosing a parser: up to the first slash after the scheme there
      is no `?` and no `#`, and the text after the first `@` there is an ordinary host and port. */
  predicate ParsersAgreeOn(u: string) {
    match Find(u, "://")
    case None => true
    case Some(e) =>
      var lo := e + 3;
      var hi := AuthorityEndMinimal(u, lo);
      FreeIn(u, '?', lo, hi) && FreeIn(u, '#', lo, hi) && SameHostPort(u, HostPortStart(u, lo, hi), hi)
  }

  predicate ReadAlike(u: string, a: HostPort, b: HostPort)
    requires a.Within(|u|) && b.Within(|u|)
  {
    a.host.In(u) == b.host.In(u) && a.port.In(u) == b.port.In(u)
  }

  lemma BracketsAgree(u: string, from: nat, hi: nat)
    requires from <= hi <= |u| && hi - from >= 2 && u[from] == '['
    ensures ReadAlike(u, SplitAtLastColon(u, from, hi), ParseHostPortRfc(u, from, hi)) <==> PlainLiteral(u, from, hi)
  {
    var m := SplitAtLastColon(u, from, hi);
    var r := ParseHostPortRfc(u, from, hi);
    var c := LastIn(u, ':', from, hi);
    assert |m.host.In(u)| == (if c.Some? then c.value else hi) - from;
    match IndexIn(u, ']', from, hi)
    case None => assert |r.host.In(u)| == 0;
    case Some(b) => assert |r.host.In(u)| == b + 1 - from;
  }

  /** The two authority parsers read the same host and port exactly on these texts. */
  lemma AuthoritiesAgree(u: string, lo: nat, hi: nat)
    requires lo <= hi <= |u|
    ensures ReadAlike(u, ParseAuthorityMinimal(u, lo, hi), ParseAuthorityRfc(u, lo, hi))
            <==> SameHostPort(u, HostPortStart(u, lo, hi), hi)
  {
    var from := HostPortStart(u, lo, hi);
    if hi - from >= 2 && u[from] == '[' {
      BracketsAgree(u, from, hi);
    }
  }

  lemma EndsAgree(u: string, lo: nat)
    requires lo <= |u|
    ensures var hi := AuthorityEndMinimal(u, lo);
            && AuthorityEndRfc(u, lo) <= hi
            && (AuthorityEndRfc(u, lo) == hi <==> FreeIn(u, '?', lo, hi) && FreeIn(u, '#', lo, hi))
  {
  }

  /** Both directions, for every input. */
  lemma ParsersAgree(u: string)
    ensures ParsedText(Minimal, u) == ParsedText(Rfc3986, u) <==> ParsersAgreeOn(u)
  {
    match Find(u, "://")
    case None =>
    case Some(e) =>
      ParseSplits(Minimal, u, e);
      ParseSplits(Rfc3986, u, e);
      var lo := e + 3;
      EndsAgree(u, lo);
      var hi := AuthorityEndMinimal(u, lo);
      if AuthorityEndRfc(u, lo) == hi {
        AuthoritiesAgree(u, lo, hi);
      } else {
        assert |ParsedText(Minimal, u).authority| == hi - lo;
        assert |ParsedText(Rfc3986, u).authority| == AuthorityEndRfc(u, lo) - lo;
      }
  }
}
