/** uri.hpp: `basic_uri`, a parsed URI that owns its text. */
module OwnedUri {
  import opened Core
  import opened Text
  import opened Uri

  /** What `rebind` makes of one component: the first textual occurrence of its characters. */
  function Rebound(base: string, c: Slice): Slice
    requires c.Within(|base|)
  {
    if c.In(base) == "" then c
    else
      match Find(base, c.In(base))
      case None => c
      case Some(o) => At(o, o + |c.In(base)|)
  }

  /** The search never fails, the rebound component lies in the owner's text, and it reads the same. */
  lemma RebindKeepsText(base: string, c: Slice)
    requires c.Within(|base|)
    ensures c.In(base) != "" ==> Find(base, c.In(base)).Some?
    ensures Rebound(base, c).Within(|base|)
    ensures Rebound(base, c).In(base) == c.In(base)
  {
    if c.In(base) != "" {
      assert OccursAt(base, c.In(base), c.lo);
    }
  }

  /** The offset is kept exactly when the characters do not occur earlier in the text. */
  lemma RebindKeepsOffset(base: string, c: Slice)
    requires c.Within(|base|) && c.In(base) != ""
    ensures Rebound(base, c) == c <==> forall j: nat :: j < c.lo ==> !OccursAt(base, c.In(base), j)
  {
    assert OccursAt(base, c.In(base), c.lo);
  }

  /** In `a://a` the host comes back as the slice that is the scheme. */
  lemma RebindMovesHost()
    ensures var u := "a://a"; Parse(Minimal, u).host == At(4, 5) && Rebound(u, At(4, 5)) == At(0, 1)
  {
    var u := "a://a";
    assert u[0..3][0] == 'a';
    assert OccursAt(u, "://", 1) && !OccursAt(u, "://", 0);
    assert Find(u, "://") == Some(1);
    assert u[4..5] == "a" && OccursAt(u, "a", 0);
  }

  /** What a reader of the owned view sees after `parse`. */
  function OwnedText(cfg: Config, uri: string): UriText {
    if |uri| > cfg.maxUriLen then NO_TEXT else ParsedText(cfg.parser, uri)
  }

  /** A view with every component rebound into the text. */
  function ReboundView(base: string, v: UriView): UriView
    requires v.Within(|base|)
  {
    UriView(Rebound(base, v.scheme), Rebound(base, v.authority), Rebound(base, v.host), Rebound(base, v.port),
            Rebound(base, v.path), Rebound(base, v.query), Rebound(base, v.fragment), At(0, |base|))
  }

  class BasicUri {
    var storage: string
    var view: UriView
    var truncated: bool

    ghost predicate Valid()
      reads this
    {
      view.Within(|storage|)
    }

    function Contents(): UriText
      requires Valid()
      reads this
    {
      view.Read(storage)
    }

    constructor ()
      ensures Valid() && storage == "" && view == NO_VIEW && !truncated
    {
      storage, view, truncated := "", NO_VIEW, false;
    }

    /** All component views point into the storage of the result and read as the configured parser read
        the original text: each is the first occurrence of the component that this parser found.  A text
        that is too long leaves an empty view and the flag. */
    static method Parse(cfg: Config, uri: string) returns (u: BasicUri)
      ensures fresh(u) && u.Valid()
      ensures u.truncated <==> |uri| > cfg.maxUriLen
      ensures u.storage == if u.truncated then "" else uri
      ensures u.truncated || uri == "" ==> u.view == UriView(Null, Null, Null, Null, Null, Null, Null, Null)
      ensures |uri| <= cfg.maxUriLen ==> u.Contents() == ParsedText(cfg.parser, uri)
      ensures |uri| <= cfg.maxUriLen && uri != "" ==>
                var v := Uri.Parse(cfg.parser, uri);
                && u.view.scheme == Rebound(uri, v.scheme) && u.view.authority == Rebound(uri, v.authority)
                && u.view.host == Rebound(uri, v.host) && u.view.port == Rebound(uri, v.port)
                && u.view.path == Rebound(uri, v.path) && u.view.query == Rebound(uri, v.query)
                && u.view.fragment == Rebound(uri, v.fragment) && u.view.full == At(0, |uri|)
      ensures u.Contents() == OwnedText(cfg, uri)
    {
      u := new BasicUri();
      if |uri| > cfg.maxUriLen {
        u.truncated := true;
        return;
      }
      u.storage := uri;
      u.view := Uri.Parse(cfg.parser, u.storage);
      u.RebindView();
    }

    static method ParseOrDefault(cfg: Config, uri: string) returns (u: BasicUri)
      ensures fresh(u) && u.Valid()
      ensures u.truncated <==> |uri| > cfg.maxUriLen
      ensures |uri| <= cfg.maxUriLen ==> u.Contents() == ParsedText(cfg.parser, uri)
      ensures |uri| > cfg.maxUriLen ==> u.Contents() == UriText("", "", "", "", "", "", "", "")
      ensures u.Contents() == OwnedText(cfg, uri)
    {
      if uri == "" {
        u := new BasicUri();
      } else {
        u := Parse(cfg, uri);
      }
    }

    /** Every component becomes the first occurrence of its characters in the storage. */
    method RebindView()
      requires Valid()
      requires view.full == (if storage == "" then Null else At(0, |storage|))
      modifies this
      ensures Valid() && storage == old(storage) && truncated == old(truncated)
      ensures Contents() == old(Contents())
      ensures storage != "" ==> view == ReboundView(storage, old(view))
      ensures storage == "" ==> view == old(view)
    {
      if view.full.In(storage) == "" {
        return;
      }
      var base := storage;
      view := view.(full := At(0, |base|));
      RebindKeepsText(base, view.scheme);
      view := view.(scheme := Rebound(base, view.scheme));
      RebindKeepsText(base, view.authority);
      view := view.(authority := Rebound(base, view.authority));
      RebindKeepsText(base, view.host);
      view := view.(host := Rebound(base, view.host));
      RebindKeepsText(base, view.port);
      view := view.(port := Rebound(base, view.port));
      RebindKeepsText(base, view.path);
      view := view.(path := Rebound(base, view.path));
      RebindKeepsText(base, view.query);
      view := view.(query := Rebound(base, view.query));
      RebindKeepsText(base, view.fragment);
      view := view.(fragment := Rebound(base, view.fragment));
    }
  }
}
