/** Handlers whose reading reports "complete" though its keys are not all that decides the answer. */
module HandlerUnsound {
  import opened HandlerLanguage
  import opened HandlerSites
  import opened HandlerSound

  /** `del body["k"]`, then `if body`: whether another key is left decides, and none is reported. */
  const Deleting := Handler("h", "parsed", "body",
    Seq(Delete("body", Const(Str("k"))), If(Name("body"), Return(Const(Int(1))), Return(Const(Int(2))))))

  const OneKey: map<string, Value> := map["k" := Null]
  const TwoKeys: map<string, Value> := map["k" := Null, "z" := Null]

  lemma {:induction false} CoveredBoth(f: Following, a: seq<Site>, b: seq<Site>, keys: set<string>)
    requires Covered(f, a, keys) && Covered(f, b, keys)
    ensures Covered(f, a + b, keys)
  {
  }

  lemma {:induction false} CoveredOne(f: Following, e: Expr, up: seq<Parent>, keys: set<string>)
    requires e.Name? || e.Const?
    requires var use := UseAt(f, Site(e, up)); !use.Unknown? && (use.Key? ==> use.name in keys)
    ensures Covered(f, Sites(e, up), keys)
  {
    assert Sites(e, up) == [Site(e, up)];
  }

  /** An item of the dict, read or deleted under a reported key. */
  lemma {:induction false} ItemCovered(f: Following, id: string, k: string, keys: set<string>)
    requires !f.query && id in f.names && k != "" && k in keys
    ensures Covered(f, Sites(Subscript(Name(id), Const(Str(k))), [Elsewhere]), keys)
  {
    var key := Const(Str(k));
    var above, beside := [ValueOfSubscript(key)] + [Elsewhere], [Elsewhere] + [Elsewhere];
    assert above[0] == ValueOfSubscript(key);
    CoveredOne(f, Name(id), above, keys);
    CoveredOne(f, key, beside, keys);
    CoveredBoth(f, Sites(Name(id), above), Sites(key, beside), keys);
    CoveredBoth(f, [Site(Subscript(Name(id), key), [Elsewhere])], Sites(Name(id), above) + Sites(key, beside), keys);
  }

  lemma {:induction false} ChoiceCovered(f: Following, id: string, one: Value, two: Value, keys: set<string>)
    requires !f.query
    ensures Covered(f, CodeSites(If(Name(id), Return(Const(one)), Return(Const(two)))), keys)
  {
    CoveredOne(f, Name(id), [TestOf], keys);
    CoveredOne(f, Const(one), [Elsewhere], keys);
    CoveredOne(f, Const(two), [Elsewhere], keys);
    CoveredBoth(f, Sites(Name(id), [TestOf]), Sites(Const(one), [Elsewhere]), keys);
    CoveredBoth(f, Sites(Name(id), [TestOf]) + Sites(Const(one), [Elsewhere]), Sites(Const(two), [Elsewhere]), keys);
  }

  lemma {:induction false} DeletingIsCovered()
    ensures Covered(OfBody(Deleting), CodeSites(Deleting.code), {"k"})
  {
    var f, keys := OfBody(Deleting), {"k"};
    ItemCovered(f, "body", "k", keys);
    ChoiceCovered(f, "body", Int(1), Int(2), keys);
    CoveredBoth(f, CodeSites(Deleting.code.first), CodeSites(Deleting.code.second), keys);
  }

  lemma {:induction false} DeletionUnseen(w: World, query: string, fuel: nat)
    ensures WellFormed(Deleting) && Covered(OfBody(Deleting), CodeSites(Deleting.code), {"k"})
    ensures AgreeDicts({"k"}, false, OneKey, TwoKeys)
    ensures !AnsweredAlike(Serve(w, Deleting, query, Dict(OneKey), fuel), Serve(w, Deleting, query, Dict(TwoKeys), fuel))
  {
    DeletingIsCovered();
    assert "k" in OneKey && "k" in TwoKeys;
    assert OneKey - {"k"} == map[];
    assert "z" in TwoKeys - {"k"};
    RunDeleting(w, query, OneKey, fuel);
    RunDeleting(w, query, TwoKeys, fuel);
  }

  lemma {:induction false} RunDeleting(w: World, query: string, body: map<string, Value>, fuel: nat)
    requires "k" in body
    ensures Serve(w, Deleting, query, Dict(body), fuel).flow == Returned(Int(if body - {"k"} == map[] then 2 else 1))
  {
    var env: map<string, Value> := map["h" := Opaque("handler"), "parsed" := Request(query), "body" := Dict(body)];
    assert env["body"] == Dict(body);
    var key := Const(Str("k"));
    assert Eval(w, key, env, []) == Result(Ok(Str("k")), []);
    var left := env["body" := Dict(body - {"k"})];
    assert Exec(w, Delete("body", key), State(env, []), fuel) == Run(Normal, State(left, []));
    assert Eval(w, Name("body"), left, []) == Result(Ok(Dict(body - {"k"})), []);
    var choice := If(Name("body"), Return(Const(Int(1))), Return(Const(Int(2))));
    assert Exec(w, choice, State(left, []), fuel).flow == Returned(Int(if body - {"k"} == map[] then 2 else 1));
  }

  /** `h.q = parse_qs(parsed.query)`: the dict is bound to no name, and nothing of it is reported. */
  const Keeping := Handler("h", "parsed", "body",
    Assign(ToAttribute("h", "q"), Call(Name("parse_qs"), [Attribute(Name("parsed"), "query")])))

  lemma {:induction false} KeepingIsCovered()
    ensures Covered(OfQuery(Keeping), CodeSites(Keeping.code), {})
  {
    var f := OfQuery(Keeping);
    var raw := Attribute(Name("parsed"), "query");
    var call := Call(Name("parse_qs"), [raw]);
    var above := [ArgOf(call, 0), ValueOfAssign];
    CoveredOne(f, Name("parse_qs"), [FuncOf(call)] + [ValueOfAssign], {});
    assert above == [ArgOf(call, 0)] + [ValueOfAssign] && above[0] == ArgOf(call, 0) && ParseAbove(above);
    CoveredOne(f, Name("parsed"), [ValueOfAttribute("query")] + above, {});
    CoveredBoth(f, [Site(raw, above)], Sites(Name("parsed"), [ValueOfAttribute("query")] + above), {});
    assert [raw][1..] == [];
    assert ArgSites(call, [raw], 0, [ValueOfAssign]) == Sites(raw, above) + ArgSites(call, [raw][1..], 1, [ValueOfAssign])
      == Sites(raw, above);
    CoveredBoth(f, Sites(Name("parse_qs"), [FuncOf(call)] + [ValueOfAssign]), Sites(raw, above), {});
    CoveredBoth(f, [Site(call, [ValueOfAssign])],
                Sites(Name("parse_qs"), [FuncOf(call)] + [ValueOfAssign]) + Sites(raw, above), {});
  }

  lemma {:induction false} ParsedQueryKept(w: World, one: string, two: string, body: Value, fuel: nat)
    requires w.parse([Str(one)]) == Ok(Dict(OneKey)) && w.parse([Str(two)]) == Ok(Dict(TwoKeys))
    ensures WellFormed(Keeping) && Covered(OfQuery(Keeping), CodeSites(Keeping.code), {})
    ensures Agree({}, true, Dict(OneKey), Dict(TwoKeys)) && Agree({}, false, Dict(OneKey), Dict(TwoKeys))
    ensures !AnsweredAlike(Serve(w, Keeping, one, body, fuel), Serve(w, Keeping, two, body, fuel))
  {
    KeepingIsCovered();
    assert "k" in OneKey && "k" in TwoKeys && "z" in TwoKeys;
    RunKeeping(w, one, body, fuel);
    RunKeeping(w, two, body, fuel);
  }

  lemma {:induction false} RunKeeping(w: World, query: string, body: Value, fuel: nat)
    requires w.parse([Str(query)]).Ok?
    ensures Serve(w, Keeping, query, body, fuel).state.trace == [AttributeSet("h", "q", w.parse([Str(query)]).value)]
  {
    var env: map<string, Value> := map["h" := Opaque("handler"), "parsed" := Request(query), "body" := body];
    var raw := Attribute(Name("parsed"), "query");
    assert Eval(w, raw, env, []) == Result(Ok(Str(query)), []);
    OneArgument(w, raw, env, []);
  }

  // ---- the raw query handed on inside a parse -------------------------------------------

  /** `q = parse_qs(log(parsed.query))`: the raw query stands inside a parse, and goes to `log` all the same. */
  const Handing := Handler("h", "parsed", "body",
    Assign(ToName("q"), Call(Name("parse_qs"), [Call(Name("log"), [Attribute(Name("parsed"), "query")])])))

  /** A call of one argument under a parse, where neither is a use of the dict. */
  lemma {:induction false} CallCovered(f: Following, call: Expr, up: seq<Parent>, keys: set<string>)
    requires call.Call? && call.func.Name? && |call.args| == 1
    requires !UseAt(f, Site(call, up)).Unknown? && !UseAt(f, Site(call, up)).Key?
    requires UseAt(f, Site(call.func, [FuncOf(call)] + up)).Harmless?
    requires Covered(f, Sites(call.args[0], [ArgOf(call, 0)] + up), keys)
    ensures Covered(f, Sites(call, up), keys)
  {
    var arg := call.args[0];
    CoveredOne(f, call.func, [FuncOf(call)] + up, keys);
    assert call.args[1..] == [];
    assert ArgSites(call, call.args, 0, up) == Sites(arg, [ArgOf(call, 0)] + up) + ArgSites(call, call.args[1..], 1, up)
      == Sites(arg, [ArgOf(call, 0)] + up);
    CoveredBoth(f, Sites(call.func, [FuncOf(call)] + up), Sites(arg, [ArgOf(call, 0)] + up), keys);
    CoveredBoth(f, [Site(call, up)], Sites(call.func, [FuncOf(call)] + up) + Sites(arg, [ArgOf(call, 0)] + up), keys);
  }

  lemma {:induction false} RawCovered(f: Following, up: seq<Parent>, keys: set<string>)
    requires f.query && f.request !in f.names && ParseAbove(up)
    ensures Covered(f, Sites(Attribute(Name(f.request), "query"), up), keys)
  {
    var raw := Attribute(Name(f.request), "query");
    CoveredOne(f, Name(f.request), [ValueOfAttribute("query")] + up, keys);
    CoveredBoth(f, [Site(raw, up)], Sites(Name(f.request), [ValueOfAttribute("query")] + up), keys);
  }

  lemma {:induction false} HandingIsCovered()
    ensures Covered(OfQuery(Handing), CodeSites(Handing.code), {})
  {
    var f := OfQuery(Handing);
    var log := Call(Name("log"), [Attribute(Name("parsed"), "query")]);
    var parse := Call(Name("parse_qs"), [log]);
    assert Bound(Handing.code) == {"q"};
    var inner := [ArgOf(parse, 0)] + [ValueOfAssign];
    var up := [ArgOf(log, 0)] + inner;
    assert up[1] == ArgOf(parse, 0) && IsParse(up[1].call);
    RawCovered(f, up, {});
    assert !IsParse(log) && "log" != "q" && "log" != "parsed" && "parse_qs" != "q" && "parse_qs" != "parsed";
    CallCovered(f, log, inner, {});
    CallCovered(f, parse, [ValueOfAssign], {});
    assert CodeSites(Handing.code) == [] + Sites(parse, [ValueOfAssign]) == Sites(parse, [ValueOfAssign]);
  }

  /** The report is complete and empty, the parse is bound to a plain name and nothing is deleted, and any two
      different raw queries are told apart, whatever they parse to. */
  lemma {:induction false} RawQueryHandedOn(w: World, one: string, two: string, body: Value, fuel: nat)
    requires one != two
    ensures WellFormed(Handing) && Covered(OfQuery(Handing), CodeSites(Handing.code), {})
    ensures NamedParses(Handing.code) && NoDelete(OfQuery(Handing), Handing.code) && Handing.request !in Bound(Handing.code)
    ensures !AnsweredAlike(Serve(w, Handing, one, body, fuel), Serve(w, Handing, two, body, fuel))
  {
    HandingIsCovered();
    RunHanding(w, one, body, fuel);
    RunHanding(w, two, body, fuel);
    assert Called(Opaque("log"), "log", [Str(one)]).args[0] != Called(Opaque("log"), "log", [Str(two)]).args[0];
    assert Serve(w, Handing, one, body, fuel).state.trace[0] != Serve(w, Handing, two, body, fuel).state.trace[0];
  }

  lemma {:induction false} RunHanding(w: World, query: string, body: Value, fuel: nat)
    ensures Serve(w, Handing, query, body, fuel).state.trace == [Called(Opaque("log"), "log", [Str(query)])]
  {
    var env: map<string, Value> := map["h" := Opaque("handler"), "parsed" := Request(query), "body" := body];
    var raw := Attribute(Name("parsed"), "query");
    var log := Call(Name("log"), [raw]);
    var told := [Called(Opaque("log"), "log", [Str(query)])];
    assert "log" !in env && "parse_qs" !in env;
    assert Eval(w, raw, env, []) == Result(Ok(Str(query)), []);
    OneArgument(w, raw, env, []);
    assert Eval(w, log, env, []).trace == [] + told == told;
    OneArgument(w, log, env, []);
    var parse := Call(Name("parse_qs"), [log]);
    assert Eval(w, parse, env, []).trace == told;
  }

  // ---- exactly which bodies a complete report cannot tell apart ---------------------------

  /** `if k in body: del body[k]` for each key. */
  function Clear(ks: seq<string>): Stmt {
    if ks == [] then Skip
    else
      var key := Const(Str(ks[|ks| - 1]));
      Seq(Clear(ks[..|ks| - 1]), If(In(key, Name("body")), Delete("body", key), Skip))
  }

  /** And then: is anything left? */
  function Clearing(ks: seq<string>): Handler {
    Handler("h", "parsed", "body", Seq(Clear(ks), If(Name("body"), Return(Const(Int(1))), Return(Const(Int(2))))))
  }

  lemma {:induction false} AskedCovered(f: Following, k: string, keys: set<string>)
    requires !f.query && "body" in f.names && k != "" && k in keys
    ensures Covered(f, Sites(In(Const(Str(k)), Name("body")), [TestOf]), keys)
  {
    var key := Const(Str(k));
    var above := [RightOfIn(key)] + [TestOf];
    assert above[0] == RightOfIn(key);
    CoveredOne(f, key, [Elsewhere] + [TestOf], keys);
    CoveredOne(f, Name("body"), above, keys);
    CoveredBoth(f, Sites(key, [Elsewhere] + [TestOf]), Sites(Name("body"), above), keys);
    CoveredBoth(f, [Site(In(key, Name("body")), [TestOf])], Sites(key, [Elsewhere] + [TestOf]) + Sites(Name("body"), above), keys);
  }

  lemma {:induction false} OneClearCovered(f: Following, k: string, keys: set<string>)
    requires !f.query && "body" in f.names && k != "" && k in keys
    ensures Covered(f, CodeSites(If(In(Const(Str(k)), Name("body")), Delete("body", Const(Str(k))), Skip)), keys)
  {
    hide Sites, UseAt;
    var key := Const(Str(k));
    AskedCovered(f, k, keys);
    ItemCovered(f, "body", k, keys);
    var asked, deleted := Sites(In(key, Name("body")), [TestOf]), Sites(Subscript(Name("body"), key), [Elsewhere]);
    CoveredBoth(f, asked, deleted, keys);
    assert asked + deleted + [] == asked + deleted;
  }

  lemma {:induction false} ClearCovered(f: Following, ks: seq<string>, keys: set<string>)
    requires !f.query && "body" in f.names && forall k :: k in ks ==> k != "" && k in keys
    ensures Covered(f, CodeSites(Clear(ks)), keys)
  {
    hide Sites, UseAt;
    if ks != [] {
      var most, k := ks[..|ks| - 1], ks[|ks| - 1];
      assert k in ks && forall j :: j in most ==> j in ks;
      ClearCovered(f, most, keys);
      OneClearCovered(f, k, keys);
      CoveredBoth(f, CodeSites(Clear(most)), CodeSites(If(In(Const(Str(k)), Name("body")), Delete("body", Const(Str(k))), Skip)), keys);
    }
  }

  function BodyEnv(query: string, body: map<string, Value>): map<string, Value> {
    map["h" := Opaque("handler"), "parsed" := Request(query), "body" := Dict(body)]
  }

  lemma {:induction false} RunClear(w: World, ks: seq<string>, query: string, body: map<string, Value>, fuel: nat)
    ensures Exec(w, Clear(ks), State(BodyEnv(query, body), []), fuel)
         == Run(Normal, State(BodyEnv(query, body - KeySet(ks)), []))
  {
    if ks == [] {
      assert body - KeySet(ks) == body;
    } else {
      var most, k := ks[..|ks| - 1], ks[|ks| - 1];
      assert ks == most + [k];
      RunClear(w, most, query, body, fuel);
      var left := body - KeySet(most);
      RunOneClear(w, k, query, left, fuel);
      assert left - {k} == body - KeySet(ks);
    }
  }

  lemma {:induction false} RunOneClear(w: World, k: string, query: string, body: map<string, Value>, fuel: nat)
    ensures var key := Const(Str(k));
      Exec(w, If(In(key, Name("body")), Delete("body", key), Skip), State(BodyEnv(query, body), []), fuel)
      == Run(Normal, State(BodyEnv(query, body - {k}), []))
  {
    var key, env := Const(Str(k)), BodyEnv(query, body);
    assert Eval(w, key, env, []) == Result(Ok(Str(k)), []);
    assert Eval(w, Name("body"), env, []) == Result(Ok(Dict(body)), []);
    assert Eval(w, In(key, Name("body")), env, []) == Result(Ok(Bool(k in body)), []);
    if k in body {
      assert env["body" := Dict(body - {k})] == BodyEnv(query, body - {k});
      assert Exec(w, Delete("body", key), State(env, []), fuel) == Run(Normal, State(BodyEnv(query, body - {k}), []));
    } else {
      assert body - {k} == body;
    }
  }

  lemma {:induction false} RunClearing(w: World, ks: seq<string>, query: string, body: map<string, Value>, fuel: nat)
    ensures Serve(w, Clearing(ks), query, Dict(body), fuel).flow == Returned(Int(if body - KeySet(ks) == map[] then 2 else 1))
  {
    RunClear(w, ks, query, body, fuel);
    var left := body - KeySet(ks);
    assert Eval(w, Name("body"), BodyEnv(query, left), []) == Result(Ok(Dict(left)), []);
    var choice := If(Name("body"), Return(Const(Int(1))), Return(Const(Int(2))));
    assert Exec(w, choice, State(BodyEnv(query, left), []), fuel).flow == Returned(Int(if left == map[] then 2 else 1));
  }

  lemma {:induction false} InOrder(keys: set<string>) returns (ks: seq<string>)
    ensures KeySet(ks) == keys
  {
    if keys == {} {
      ks := [];
    } else {
      var k :| k in keys;
      var rest := InOrder(keys - {k});
      ks := rest + [k];
      assert KeySet(ks) == KeySet(rest) + {k};
    }
  }

  /** Every handler whose report is complete with these keys answers both bodies alike. */
  ghost predicate NoneTellsApart(w: World, keys: set<string>, query: string, one: map<string, Value>, two: map<string, Value>, fuel: nat) {
    forall d :: WellFormed(d) && Covered(OfBody(d), CodeSites(d.code), keys) ==>
      AnsweredAlike(Serve(w, d, query, Dict(one), fuel), Serve(w, d, query, Dict(two), fuel))
  }

  /** Of two bodies alike at the reported keys and in being empty, no handler with a complete report tells them
      apart exactly when they are also alike in holding any other key. */
  lemma {:induction false} NoneTellsApartIff(w: World, keys: set<string>, query: string,
      one: map<string, Value>, two: map<string, Value>, fuel: nat)
    requires AgreeDicts(keys, false, one, two) && "" !in keys
    ensures NoneTellsApart(w, keys, query, one, two, fuel) <==> AgreeDicts(keys, true, one, two)
  {
    if AgreeDicts(keys, true, one, two) {
      forall d | WellFormed(d) && Covered(OfBody(d), CodeSites(d.code), keys)
        ensures AnsweredAlike(Serve(w, d, query, Dict(one), fuel), Serve(w, d, query, Dict(two), fuel))
      {
        BodyFieldsAreAllWithDelete(w, d, keys, query, one, two, fuel);
      }
    } else {
      var ks := InOrder(keys);
      var d := Clearing(ks);
      var f := OfBody(d);
      ClearCovered(f, ks, keys);
      ChoiceCovered(f, "body", Int(1), Int(2), keys);
      CoveredBoth(f, CodeSites(d.code.first), CodeSites(d.code.second), keys);
      RunClearing(w, ks, query, one, fuel);
      RunClearing(w, ks, query, two, fuel);
      NothingLeft(one, keys);
      NothingLeft(two, keys);
      assert !AnsweredAlike(Serve(w, d, query, Dict(one), fuel), Serve(w, d, query, Dict(two), fuel));
    }
  }

  lemma {:induction false} NothingLeft(body: map<string, Value>, keys: set<string>)
    ensures body - keys == map[] <==> body.Keys <= keys
  {
    if body - keys == map[] {
      forall k | k in body.Keys
        ensures k in keys
      {
        assert k !in body - keys;
      }
    }
  }
}
