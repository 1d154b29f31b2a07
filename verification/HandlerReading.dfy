/** What a handler's own code says it reads (caravan/admin/api_spec.py, HandlerReading): the keys of
    the body or of the parsed query, and whether those are all of them. */
module HandlerReading {
  import opened HandlerLanguage
  import opened HandlerSites
  import opened HandlerUses

  datatype Reading = Reading(keys: seq<string>, complete: bool, used: bool)

  /** The reading itself, one site at a time, each key named once. */
  method Read(f: Following, sites: seq<Site>) returns (r: Reading)
    ensures forall k :: k in r.keys <==> exists s :: s in sites && UseAt(f, s) == Key(k)
    ensures r.complete <==> forall s :: s in sites ==> !UseAt(f, s).Unknown?
    ensures r.used <==> exists s :: s in sites && Holder(f, s)
    ensures r.complete <==> Covered(f, sites, KeySet(r.keys))
    ensures forall i, j :: 0 <= i < j < |r.keys| ==> r.keys[i] != r.keys[j]
  {
    var keys: seq<string>, complete, used := [], true, false;
    for n := 0 to |sites|
      invariant forall k :: k in keys <==> exists m :: 0 <= m < n && UseAt(f, sites[m]) == Key(k)
      invariant complete <==> forall m :: 0 <= m < n ==> !UseAt(f, sites[m]).Unknown?
      invariant used <==> exists m :: 0 <= m < n && Holder(f, sites[m])
      invariant forall i, j :: 0 <= i < j < |keys| ==> keys[i] != keys[j]
    {
      used := used || Holder(f, sites[n]);
      match UseAt(f, sites[n]) {
        case Unknown => complete := false;
        case Harmless =>
        case Key(k) => if k !in keys { keys := keys + [k]; }
      }
    }
    forall k
      ensures k in keys <==> exists s :: s in sites && UseAt(f, s) == Key(k)
    {
      if s :| s in sites && UseAt(f, s) == Key(k) {
        var m :| 0 <= m < |sites| && sites[m] == s;
      }
    }
    r := Reading(keys, complete, used);
  }

  /** So the keys and the completeness are those of the text. */
  lemma {:induction false} ReadIsText(f: Following, s: Stmt, r: Reading)
    requires forall k :: k in r.keys <==> exists site :: site in CodeSites(s) && UseAt(f, site) == Key(k)
    requires r.complete <==> forall site :: site in CodeSites(s) ==> !UseAt(f, site).Unknown?
    ensures Found(KeySet(r.keys), r.complete) == OfCode(f, s)
  {
    hide UseAt, CodeSites;
    CodeFound(f, s);
    forall k
      ensures k in KeySet(r.keys) <==> k in OfSites(f, CodeSites(s)).keys
    {
      if site :| site in CodeSites(s) && UseAt(f, site) == Key(k) {
        assert UseAt(f, site).name == k;
      }
    }
  }

  /** `body_fields`. */
  method BodyFields(d: Handler) returns (r: Reading)
    ensures r.complete <==> Covered(OfBody(d), CodeSites(d.code), KeySet(r.keys))
    ensures Found(KeySet(r.keys), r.complete) == OfCode(OfBody(d), d.code)
    ensures r.used <==> exists s :: s in CodeSites(d.code) && s.node == Name(d.body)
    ensures forall i, j :: 0 <= i < j < |r.keys| ==> r.keys[i] != r.keys[j]
  {
    r := Read(OfBody(d), CodeSites(d.code));
    ReadIsText(OfBody(d), d.code, r);
  }

  /** `query`. */
  method QueryKeys(d: Handler) returns (r: Reading)
    ensures r.complete <==> Covered(OfQuery(d), CodeSites(d.code), KeySet(r.keys))
    ensures Found(KeySet(r.keys), r.complete) == OfCode(OfQuery(d), d.code)
    ensures forall i, j :: 0 <= i < j < |r.keys| ==> r.keys[i] != r.keys[j]
  {
    r := Read(OfQuery(d), CodeSites(d.code));
    ReadIsText(OfQuery(d), d.code, r);
  }
}
