/** The schemeless form of section 5.3 of RFC 3986: path, query and fragment alone, printed and
    parsed again by either parser. */
module UriSchemeless {
  import opened Core
  import opened Text
  import opened Uri
  import opened UriRoundTrip

  /** No authority and no scheme, and the rest as it was printed. */
  predicate MatchesTail(t: UriText, c: Components) {
    && t.scheme == "" && t.authority == "" && t.host == "" && t.port == ""
    && t.path == c.path && t.query == OrEmpty(c.query) && t.fragment == OrEmpty(c.fragment)
  }

  predicate TailRoundTrips(parser: UriParser, c: Components) {
    MatchesTail(ParsedText(parser, PrintTail(c)), c)
  }

  /** Nothing in the components looks like the end of a scheme. */
  predicate MarkFree(c: Components) {
    && Find(c.path, "://").None?
    && (c.query.Some? ==> Find(c.query.value, "://").None?)
    && (c.fragment.Some? ==> Find(c.fragment.value, "://").None?)
  }

  lemma OccursInWindow(s: string, u: string, lo: nat, hi: nat, j: nat)
    requires IsWindow(s, u, lo, hi) && j + 3 <= |s|
    ensures OccursAt(s, "://", j) <==> OccursAt(u, "://", lo + j)
  {
    CharOfWindow(s, u, lo, hi);
    OccurrenceOf(s, j);
    OccurrenceOf(u, lo + j);
    assert u[lo + j] == s[lo + j - lo] && u[lo + j + 1] == s[lo + j + 1 - lo] && u[lo + j + 2] == s[lo + j + 2 - lo];
  }

  /** A mark in a part is a mark in the whole. */
  lemma MarkInPart(s: string, u: string, lo: nat, hi: nat)
    requires IsWindow(s, u, lo, hi) && Find(u, "://").None?
    ensures Find(s, "://").None?
  {
    if Find(s, "://").Some? {
      var j := Find(s, "://").value;
      OccurrenceOf(s, j);
      OccursInWindow(s, u, lo, hi, j);
    }
  }

  /** A mark in a part that has none before its end is not there. */
  lemma NoMarkInPart(s: string, u: string, lo: nat, hi: nat, j: nat)
    requires IsWindow(s, u, lo, hi) && Find(s, "://").None? && lo <= j && j + 3 <= hi
    ensures !OccursAt(u, "://", j)
  {
    OccursInWindow(s, u, lo, hi, j - lo);
  }

  /** A mark does not reach over a delimiter. */
  lemma MarkHasNoDelimiter(u: string, j: nat, k: nat)
    requires k < |u| && (u[k] == '?' || u[k] == '#') && j <= k < j + 3
    ensures !OccursAt(u, "://", j)
  {
    OccurrenceOf(u, j);
  }

  /** The delimiters are not part of a mark, so one that is in the whole is in a part. */
  lemma NoMarkAt(c: Components, j: nat)
    requires MarkFree(c)
    ensures !OccursAt(PrintTail(c), "://", j)
  {
    var s := PrintTail(c);
    var n := |c.path|;
    PrintedTail(c);
    OccurrenceOf(s, j);
    if j + 3 <= n {
      NoMarkInPart(c.path, s, 0, n, j);
    } else if j + 3 <= |s| && j <= n {
      MarkHasNoDelimiter(s, j, n);
    } else if j + 3 <= |s| {
      NoMarkAfterPath(c, s, j);
    }
  }

  lemma NoMarkAfterPath(c: Components, s: string, j: nat)
    requires MarkFree(c) && s == PrintTail(c) && |c.path| < j && j + 3 <= |s|
    ensures !OccursAt(s, "://", j)
  {
    var n := |c.path|;
    PrintedTail(c);
    if c.query.None? {
      NoMarkInPart(c.fragment.value, s, n + 1, |s|, j);
    } else {
      var m := n + 1 + |c.query.value|;
      if j + 3 <= m {
        NoMarkInPart(c.query.value, s, n + 1, m, j);
      } else if j <= m {
        MarkHasNoDelimiter(s, j, m);
      } else {
        NoMarkInPart(c.fragment.value, s, m + 1, |s|, j);
      }
    }
  }

  lemma MarksAreInParts(c: Components)
    ensures Find(PrintTail(c), "://").None? <==> MarkFree(c)
  {
    var s := PrintTail(c);
    var n := |c.path|;
    PrintedTail(c);
    if MarkFree(c) {
      if Find(s, "://").Some? {
        NoMarkAt(c, Find(s, "://").value);
      }
    } else if Find(s, "://").None? {
      MarkInPart(c.path, s, 0, n);
      if c.query.Some? {
        MarkInPart(c.query.value, s, n + 1, n + 1 + |c.query.value|);
      }
      if c.fragment.Some? {
        MarkInPart(c.fragment.value, s, |s| - |c.fragment.value|, |s|);
      }
    }
  }

  /** What follows an empty authority reads as a path that is empty or starts with a slash. */
  lemma PathAfterEmptyAuthority(parser: UriParser, u: string)
    requires Find(u, "://") == Some(0) && ParsedText(parser, u).authority == ""
    ensures var path := ParsedText(parser, u).path; path == "" || path[0] == '/'
  {
    ParseSplits(parser, u, 0);
    var hi := AuthorityEnd(parser, u, 3);
    assert |u[3..hi]| == hi - 3;
    var p := ParsePathQueryFragment(u, hi);
    if p.path.At? {
      assert p.path.In(u)[0] == u[hi];
    }
  }

  /** A mark in the printed text makes a scheme or an authority of what was printed as something else. */
  lemma MarkSpoils(parser: UriParser, c: Components)
    requires Find(PrintTail(c), "://").Some?
    ensures !TailRoundTrips(parser, c)
  {
    var s := PrintTail(c);
    var e := Find(s, "://").value;
    OccurrenceOf(s, e);
    ParseSplits(parser, s, e);
    assert |ParsedText(parser, s).scheme| == e;
    PrintedTail(c);
    if e == 0 && ParsedText(parser, s).authority == "" {
      PathAfterEmptyAuthority(parser, s);
      assert c.path != "" ==> c.path[0] == s[0..|c.path|][0] == ':';
    }
  }

  /** Both directions, for both parsers and every choice of components. */
  lemma SchemelessRoundTrip(parser: UriParser, c: Components)
    ensures TailRoundTrips(parser, c) <==> MarkFree(c) && TailClear(c)
  {
    MarksAreInParts(c);
    if Find(PrintTail(c), "://").Some? {
      MarkSpoils(parser, c);
    } else {
      TailBack(c);
      PrintedTail(c);
    }
  }
}
