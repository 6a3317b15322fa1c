/** source_registry.hpp with one thread at work: registration by scheme and lookup by first match. */
module Registry {
  import opened Core
  import opened Text
  import opened Uri
  import opened OwnedUri

  /** The first element that satisfies the predicate. */
  function First<T>(s: seq<T>, p: T -> bool): (r: Option<nat>)
    ensures r.Some? ==> r.value < |s| && p(s[r.value]) && forall j :: 0 <= j < r.value ==> !p(s[j])
    ensures r.None? ==> forall j :: 0 <= j < |s| ==> !p(s[j])
    decreases |s|
  {
    if s == [] then None
    else
      var k := First(s[..|s| - 1], p);
      if k.Some? then k else if p(s[|s| - 1]) then Some(|s| - 1) else None
  }

  /** What is found in a list stays found in the same place however the list grows. */
  lemma FirstStays<T>(s: seq<T>, t: seq<T>, p: T -> bool)
    requires s <= t && First(s, p).Some?
    ensures First(t, p) == First(s, p)
  {
    var i := First(s, p).value;
    assert p(t[i]);
    assert forall j :: 0 <= j < i ==> t[j] == s[j] && !p(t[j]);
  }

  /** The truncating constructor of `fixed_string<max_scheme_len>`. */
  function Truncated(cfg: Config, name: string): string {
    Take(name, cfg.maxSchemeLen)
  }

  /** The scheme that a lookup is about: the text before the first "://", or the whole text. */
  function Wanted(text: string): string {
    match Find(text, "://")
    case Some(e) => (assert OccursAt(text, "://", e); text[..e])
    case None => text
  }

  /** What the factory can read from the view it is given. */
  function ViewFor(cfg: Config, text: string): UriText {
    if Find(text, "://").Some? then OwnedText(cfg, text) else NO_TEXT.(scheme := text, full := text)
  }

  lemma ParserFindsScheme(parser: UriParser, text: string)
    requires Find(text, "://").Some?
    ensures ParsedText(parser, text).scheme == Wanted(text)
  {
    var e := Find(text, "://").value;
    assert OccursAt(text, "://", e);
    ParseSplits(parser, text, e);
    assert At(0, e).In(text) == text[..e];
  }

  /** Whichever parser is configured, the scheme in the view is the name that selected the entry,
      except that a URI that is too long comes as an empty view. */
  lemma SchemeSelects(cfg: Config, text: string)
    ensures ViewFor(cfg, text).scheme == Wanted(text)
            <==> |text| <= cfg.maxUriLen || Find(text, "://").None? || Wanted(text) == ""
  {
    if Find(text, "://").Some? {
      ParserFindsScheme(cfg.parser, text);
    }
  }

  /** For a URI that is not too long the two parsers give the factory the same scheme. */
  lemma ParsersGiveSameScheme(cfg: Config, text: string)
    ensures ViewFor(cfg.(parser := Minimal), text).scheme == ViewFor(cfg.(parser := Rfc3986), text).scheme
  {
    if Find(text, "://").Some? {
      ParserFindsScheme(Minimal, text);
      ParserFindsScheme(Rfc3986, text);
    }
  }

  datatype Entry<!Src> = Entry(scheme: string, factory: UriText -> Src)

  /** The entry that a lookup of `scheme` selects. */
  function Selected<Src>(entries: seq<Entry<Src>>, scheme: string): Option<nat> {
    First(entries, (e: Entry<Src>) => e.scheme == scheme)
  }

  /** A registry after a history of registrations: the first of them, under truncated names. */
  function Registered<Src>(cfg: Config, history: seq<Entry<Src>>): seq<Entry<Src>> {
    Take(seq(|history|, i requires 0 <= i < |history| => history[i].(scheme := Truncated(cfg, history[i].scheme))),
         cfg.maxSchemes)
  }

  lemma RegisteredSnoc<Src>(cfg: Config, history: seq<Entry<Src>>, e: Entry<Src>)
    ensures Registered(cfg, history + [e])
         == if |history| < cfg.maxSchemes
            then Registered(cfg, history) + [e.(scheme := Truncated(cfg, e.scheme))]
            else Registered(cfg, history)
  {
  }

  /** The earliest registration under a name wins, and it keeps winning: a lookup of a name that some
      registration among the first `max_schemes` was truncated to gives the earliest of these. */
  lemma EarliestWins<Src>(cfg: Config, history: seq<Entry<Src>>, further: seq<Entry<Src>>, scheme: string, i: nat)
    requires i < |history| && i < cfg.maxSchemes && Truncated(cfg, history[i].scheme) == scheme
    requires forall j :: 0 <= j < i ==> Truncated(cfg, history[j].scheme) != scheme
    ensures Selected(Registered(cfg, history + further), scheme) == Some(i)
  {
    var entries := Registered(cfg, history + further);
    assert entries[i].scheme == scheme;
    assert forall j :: 0 <= j < i ==> entries[j].scheme == Truncated(cfg, history[j].scheme);
  }

  /** A name longer than `max_scheme_len` is never found. */
  lemma LongNamesAreNotFound<Src>(cfg: Config, history: seq<Entry<Src>>, scheme: string)
    requires |scheme| > cfg.maxSchemeLen
    ensures Selected(Registered(cfg, history), scheme).None?
  {
  }

  /** The name is what a registration under `name` is stored as: its first `max_scheme_len` characters. */
  predicate StoredAs(cfg: Config, name: string, stored: string) {
    stored == if |name| <= cfg.maxSchemeLen then name else name[..cfg.maxSchemeLen]
  }

  /** The earliest registration that got a slot and was stored under the scheme. */
  predicate Earliest<Src>(cfg: Config, history: seq<Entry<Src>>, scheme: string, i: nat) {
    && i < |history| && i < cfg.maxSchemes && StoredAs(cfg, history[i].scheme, scheme)
    && forall j :: 0 <= j < i ==> !StoredAs(cfg, history[j].scheme, scheme)
  }

  /** The result of the factory of the earliest registration stored under the scheme, called with the
      view; nothing if there is no such registration. */
  ghost predicate MadeBy<Src>(cfg: Config, history: seq<Entry<Src>>, scheme: string, view: UriText, r: Option<Src>) {
    && (r.None? <==> forall i: nat :: !Earliest(cfg, history, scheme, i))
    && forall i: nat :: Earliest(cfg, history, scheme, i) ==> r == Some(history[i].factory(view))
  }

  lemma MadeByTheEarliest<Src>(cfg: Config, history: seq<Entry<Src>>, scheme: string, view: UriText, r: Option<Src>)
    requires MadeBy(cfg, history, scheme, view, r)
    ensures forall i: nat :: i < |history| && i < cfg.maxSchemes
                             && Take(history[i].scheme, cfg.maxSchemeLen) == scheme
                             && (forall j :: 0 <= j < i ==> Take(history[j].scheme, cfg.maxSchemeLen) != scheme) ==>
              r == Some(history[i].factory(view))
    ensures (forall i :: 0 <= i < |history| && i < cfg.maxSchemes ==>
              Take(history[i].scheme, cfg.maxSchemeLen) != scheme) ==> r == None
  {
    forall i: nat | i < |history|
      ensures StoredAs(cfg, history[i].scheme, scheme) <==> Take(history[i].scheme, cfg.maxSchemeLen) == scheme
    {
    }
    assert forall i: nat :: (i < |history| && i < cfg.maxSchemes
                             && Take(history[i].scheme, cfg.maxSchemeLen) == scheme
                             && (forall j :: 0 <= j < i ==> Take(history[j].scheme, cfg.maxSchemeLen) != scheme))
                            <==> Earliest(cfg, history, scheme, i);
  }

  /** A registration under a name that is too long is found under the first `max_scheme_len` characters of
      this name, if it got a slot and is the first one stored there. */
  lemma LongNameIsFoundShort<Src>(cfg: Config, history: seq<Entry<Src>>, i: nat)
    requires i < |history| && |history[i].scheme| > cfg.maxSchemeLen
    ensures var short := history[i].scheme[..cfg.maxSchemeLen];
            Selected(Registered(cfg, history), short) == Some(i) <==> Earliest(cfg, history, short, i)
  {
    var short := history[i].scheme[..cfg.maxSchemeLen];
    var entries := Registered(cfg, history);
    if i < cfg.maxSchemes {
      assert entries[i].scheme == short;
      assert forall j :: 0 <= j < i ==> entries[j].scheme == Truncated(cfg, history[j].scheme);
    }
  }

  /** A name is found exactly when one of the first `max_schemes` registrations was truncated to it. */
  lemma FoundIff<Src>(cfg: Config, history: seq<Entry<Src>>, scheme: string)
    ensures Selected(Registered(cfg, history), scheme).Some?
            <==> exists j :: 0 <= j < |history| && j < cfg.maxSchemes && Truncated(cfg, history[j].scheme) == scheme
  {
    var entries := Registered(cfg, history);
    if j :| 0 <= j < |history| && j < cfg.maxSchemes && Truncated(cfg, history[j].scheme) == scheme {
      assert entries[j].scheme == scheme;
    }
  }

  /** A registration is found under the name it was given exactly when it got a slot, the name was not
      truncated, and no earlier registration was stored under it. */
  lemma RegistrationFoundIff<Src>(cfg: Config, history: seq<Entry<Src>>, i: nat)
    requires i < |history|
    ensures var name := history[i].scheme;
            Selected(Registered(cfg, history), name) == Some(i)
            <==> && i < cfg.maxSchemes && |name| <= cfg.maxSchemeLen
                 && forall j :: 0 <= j < i ==> Truncated(cfg, history[j].scheme) != name
  {
    var name := history[i].scheme;
    var entries := Registered(cfg, history);
    if i < cfg.maxSchemes {
      assert entries[i].scheme == Truncated(cfg, name);
      assert forall j :: 0 <= j < i ==> entries[j].scheme == Truncated(cfg, history[j].scheme);
    }
  }

  class SourceRegistry<Src> {
    const cfg: Config
    const entries: array<Option<Entry<Src>>>
    var count: nat
    ghost var history: seq<Entry<Src>>

    ghost predicate Valid()
      reads this, entries
    {
      && entries.Length == cfg.maxSchemes && count <= entries.Length
      && (forall i :: 0 <= i < count ==> entries[i].Some?)
      && |Registered(cfg, history)| == count
      && (forall i :: 0 <= i < count ==> entries[i].value == Registered(cfg, history)[i])
    }

    constructor (cfg: Config)
      ensures Valid() && this.cfg == cfg && history == [] && fresh(entries)
    {
      this.cfg := cfg;
      entries := new Option<Entry<Src>>[cfg.maxSchemes](_ => None);
      count, history := 0, [];
    }

    /** Refused when the table is full; otherwise the entry is written before the count. */
    method RegisterScheme(scheme: string, factory: UriText -> Src) returns (ok: bool)
      requires Valid()
      modifies this, entries
      ensures Valid() && history == old(history) + [Entry(scheme, factory)]
      ensures ok <==> |old(history)| < cfg.maxSchemes
    {
      RegisteredSnoc(cfg, history, Entry(scheme, factory));
      history := history + [Entry(scheme, factory)];
      var idx := count;
      if idx >= entries.Length {
        return false;
      }
      entries[idx] := Some(Entry(Truncated(cfg, scheme), factory));
      count := idx + 1;
      return true;
    }

    /** The scan that both lookups make: the first entry with the name. */
    method Scan(scheme: string) returns (found: Option<nat>)
      requires Valid()
      ensures found == Selected(Registered(cfg, history), scheme)
    {
      for i := 0 to count
        invariant forall j :: 0 <= j < i ==> entries[j].value.scheme != scheme
      {
        if entries[i].value.scheme == scheme {
          FirstIs(Registered(cfg, history), scheme, i);
          return Some(i);
        }
      }
      return None;
    }

    /** True exactly when one of the registrations that got a slot was stored under the name. */
    method HasScheme(scheme: string) returns (b: bool)
      requires Valid()
      ensures b <==> Selected(Registered(cfg, history), scheme).Some?
      ensures b <==> exists j :: 0 <= j < |history| && j < cfg.maxSchemes && StoredAs(cfg, history[j].scheme, scheme)
    {
      FoundIff(cfg, history, scheme);
      var found := Scan(scheme);
      b := found.Some?;
    }

    /** Calls the factory of the earliest registration stored under the scheme, which is the text before
        the first "://", or the whole text; there is no source if there is none.  The factory is given all
        components of a URI as the configured parser reads them, an empty view if the URI is too long, and
        the scheme alone if there is no "://". */
    method Create(text: string) returns (r: Option<Src>)
      requires Valid()
      ensures Find(text, "://").None? ==>
                MadeBy(cfg, history, text, UriText(text, "", "", "", "", "", "", text), r)
      ensures forall e: nat :: Find(text, "://") == Some(e) && e <= |text| && |text| <= cfg.maxUriLen ==>
                MadeBy(cfg, history, text[..e], ParsedText(cfg.parser, text), r)
      ensures forall e: nat :: Find(text, "://") == Some(e) && e <= |text| && |text| > cfg.maxUriLen ==>
                MadeBy(cfg, history, text[..e], UriText("", "", "", "", "", "", "", ""), r)
      ensures var all := Registered(cfg, history);
              match Selected(all, Wanted(text))
              case Some(i) => r == Some(all[i].factory(ViewFor(cfg, text)))
              case None => r == None
    {
      var schemeEnd := Find(text, "://");
      var scheme := text;
      if schemeEnd.Some? {
        assert OccursAt(text, "://", schemeEnd.value);
        scheme := text[..schemeEnd.value];
      }
      var found := Scan(scheme);
      if found.None? {
        r := None;
      } else if schemeEnd.Some? {
        var parsed := BasicUri.Parse(cfg, text);
        r := Some(entries[found.value].value.factory(parsed.Contents()));
      } else {
        r := Some(entries[found.value].value.factory(NO_TEXT.(scheme := scheme, full := text)));
      }
      SelectionMakes(cfg, history, scheme, ViewFor(cfg, text));
    }
  }

  lemma NoEntryNoneEarliest<Src>(cfg: Config, history: seq<Entry<Src>>, scheme: string)
    requires var all := Registered(cfg, history); forall j :: 0 <= j < |all| ==> all[j].scheme != scheme
    ensures forall i: nat :: !Earliest(cfg, history, scheme, i)
  {
    forall i: nat | i < |history| && i < cfg.maxSchemes
      ensures !StoredAs(cfg, history[i].scheme, scheme)
    {
      assert Registered(cfg, history)[i].scheme == Truncated(cfg, history[i].scheme);
    }
  }

  /** The entry that is selected is the earliest registration, with its factory. */
  lemma SelectionMakes<Src>(cfg: Config, history: seq<Entry<Src>>, scheme: string, view: UriText)
    ensures var all := Registered(cfg, history);
            MadeBy(cfg, history, scheme, view,
                   match Selected(all, scheme)
                   case Some(k) => Some(all[k].factory(view))
                   case None => None)
  {
    match Selected(Registered(cfg, history), scheme)
    case None => NoEntryNoneEarliest(cfg, history, scheme);
    case Some(k) => FirstEntryIsEarliest(cfg, history, scheme, k);
  }

  lemma FirstEntryIsEarliest<Src>(cfg: Config, history: seq<Entry<Src>>, scheme: string, i: nat)
    requires var all := Registered(cfg, history);
             i < |all| && all[i].scheme == scheme && forall j :: 0 <= j < i ==> all[j].scheme != scheme
    ensures Earliest(cfg, history, scheme, i) && Registered(cfg, history)[i].factory == history[i].factory
  {
    forall j | 0 <= j <= i
      ensures Registered(cfg, history)[j] == history[j].(scheme := Truncated(cfg, history[j].scheme))
    {
    }
  }

  lemma FirstIs<Src>(all: seq<Entry<Src>>, scheme: string, i: nat)
    requires i < |all| && all[i].scheme == scheme && forall j :: 0 <= j < i ==> all[j].scheme != scheme
    ensures Selected(all, scheme) == Some(i)
  {
  }

  /** `create` calls a factory if and only if `has_scheme` holds for the text before the first "://";
      unless the URI is too long, the view it gets names the scheme that selected it. */
  method CreateAgreesWithHasScheme<Src>(reg: SourceRegistry<Src>, text: string) returns (r: Option<Src>, has: bool)
    requires reg.Valid()
    ensures has <==> r.Some?
    ensures var all := Registered(reg.cfg, reg.history);
            var view := ViewFor(reg.cfg, text);
            has ==> Selected(all, Wanted(text)).Some? &&
                    var e := all[Selected(all, Wanted(text)).value];
                    && e.scheme == Wanted(text)
                    && r == Some(e.factory(view))
                    && (|text| <= reg.cfg.maxUriLen ==> view.scheme == e.scheme)
  {
    r := reg.Create(text);
    has := reg.HasScheme(Wanted(text));
    SchemeSelects(reg.cfg, text);
  }
}
