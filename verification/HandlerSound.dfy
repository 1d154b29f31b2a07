/** The reading of HandlerReading is sound: when it reports that its keys are all, two requests that
    agree on those keys are answered alike. */
module HandlerSound {
  import opened HandlerLanguage
  import opened HandlerSites

  // ---- agreement ----------------------------------------------------------------------

  ghost predicate SameAt(a: map<string, Value>, b: map<string, Value>, k: string) {
    (k in a <==> k in b) && (k in a ==> a[k] == b[k])
  }

  /** Two dicts alike at the keys, and alike in being empty; `rest` asks more: alike in holding any
      other key. */
  ghost predicate AgreeDicts(keys: set<string>, rest: bool, a: map<string, Value>, b: map<string, Value>) {
    && (forall k :: k in keys ==> SameAt(a, b, k))
    && (if rest then (a.Keys <= keys <==> b.Keys <= keys) else (a == map[] <==> b == map[]))
  }

  ghost predicate Agree(keys: set<string>, rest: bool, v: Value, w: Value) {
    v == w || (v.Dict? && w.Dict? && AgreeDicts(keys, rest, v.fields, w.fields))
  }

  lemma {:induction false} AgreeTruthy(keys: set<string>, rest: bool, v: Value, w: Value)
    requires Agree(keys, rest, v, w)
    ensures Truthy(v) == Truthy(w) && TagOf(v) == TagOf(w)
  {
    if v != w && rest {
      NoneOf(keys, v.fields, w.fields);
      NoneOf(keys, w.fields, v.fields);
    }
  }

  lemma {:induction false} NoneOf(keys: set<string>, a: map<string, Value>, b: map<string, Value>)
    requires AgreeDicts(keys, true, a, b)
    ensures a == map[] ==> b == map[]
  {
    if a == map[] {
      assert a.Keys <= keys;
      forall k
        ensures k !in b
      {
        assert k in keys ==> SameAt(a, b, k);
        assert k in b.Keys ==> k in keys;
      }
    }
  }

  lemma {:induction false} AgreeAfterSet(keys: set<string>, rest: bool, v: Value, w: Value, k: string, x: Value)
    requires Agree(keys, rest, v, w) && v.Dict? && w.Dict? && k in keys
    ensures Agree(keys, rest, Dict(v.fields[k := x]), Dict(w.fields[k := x]))
  {
    if v != w {
      var a, b := v.fields[k := x], w.fields[k := x];
      forall j | j in keys
        ensures SameAt(a, b, j)
      {
        assert SameAt(v.fields, w.fields, j);
      }
      assert a.Keys == v.fields.Keys + {k} && b.Keys == w.fields.Keys + {k};
    }
  }

  lemma {:induction false} AgreeAfterDelete(keys: set<string>, v: Value, w: Value, k: string)
    requires Agree(keys, true, v, w) && v.Dict? && w.Dict? && k in keys
    ensures Agree(keys, true, Dict(v.fields - {k}), Dict(w.fields - {k}))
  {
    if v != w {
      var a, b := v.fields - {k}, w.fields - {k};
      forall j | j in keys
        ensures SameAt(a, b, j)
      {
        assert SameAt(v.fields, w.fields, j);
      }
      assert a.Keys == v.fields.Keys - {k} && b.Keys == w.fields.Keys - {k};
    }
  }

  // ---- two runs side by side ------------------------------------------------------------

  /** Two requests: the keys they agree on, and the two raw queries. */
  datatype Pair = Pair(f: Following, keys: set<string>, rest: bool, one: string, two: string)

  ghost predicate Near(p: Pair, v: Value, w: Value) { Agree(p.keys, p.rest, v, w) }

  ghost predicate SameVar(p: Pair, id: string, v: Value, w: Value) {
    || v == w
    || (id in p.f.names && Near(p, v, w))
    || (p.f.query && id == p.f.request && v == Request(p.one) && w == Request(p.two))
  }

  ghost predicate SameEnv(p: Pair, a: map<string, Value>, b: map<string, Value>) {
    a.Keys == b.Keys && forall id :: id in a ==> SameVar(p, id, a[id], b[id])
  }

  /** The two queries, parsed, agree. */
  ghost predicate ParsesAgree(w: World, p: Pair) {
    p.f.query ==>
      var x, y := w.parse([Str(p.one)]), w.parse([Str(p.two)]);
      x == y || (x.Ok? && y.Ok? && Near(p, x.value, y.value))
  }

  /** A module's name, or an attribute of one. */
  predicate PlainCallee(f: Following, func: Expr) {
    match func
    case Name(id) => id !in f.names && id != f.request
    case Attribute(value, attr) => attr != "get" && PlainCallee(f, value)
    case _ => false
  }

  /** `parse_qs(<request>.query)` or `parse_qs(<request>.query or "")`. */
  predicate PlainParse(f: Following, e: Expr) {
    && e.Call? && PlainCallee(f, e.func) && |e.args| == 1
    && var raw := Attribute(Name(f.request), "query");
       (e.args[0] == raw || e.args[0] == Or(raw, Const(Str(""))))
  }

  predicate FineSite(f: Following, keys: set<string>, site: Site) {
    var use := UseAt(f, site);
    && !use.Unknown? && (use.Key? ==> use.name in keys)
    && (f.query && IsParse(site.node) ==> PlainParse(f, site.node))
  }

  predicate Fine(f: Following, keys: set<string>, sites: seq<Site>) {
    forall site :: site in sites ==> FineSite(f, keys, site)
  }

  lemma {:induction false} FineParts(f: Following, keys: set<string>, a: seq<Site>, b: seq<Site>)
    requires Fine(f, keys, a + b)
    ensures Fine(f, keys, a) && Fine(f, keys, b)
  {
    forall s | s in a
      ensures FineSite(f, keys, s)
    {
      assert s in a + b;
    }
    forall s | s in b
      ensures FineSite(f, keys, s)
    {
      assert s in a + b;
    }
  }

  /** Expressions whose values may differ between the two runs. */
  predicate IsGetOfHolder(f: Following, e: Expr, up: seq<Parent>) {
    && e.Attribute? && e.attr == "get" && up != [] && up[0].FuncOf?
    && Holder(f, Site(e.value, [ValueOfAttribute("get")] + up))
  }

  ghost predicate CloseMethods(p: Pair, v: Value, w: Value) {
    v.Method? && w.Method? && v.name == "get" && w.name == "get" && Near(p, v.receiver, w.receiver)
  }

  ghost predicate Close(p: Pair, e: Expr, up: seq<Parent>, v: Value, w: Value) {
    || v == w
    || (Holder(p.f, Site(e, up)) && Near(p, v, w))
    || (p.f.query && IsParse(e) && Near(p, v, w))
    || (p.f.query && e == Name(p.f.request) && v == Request(p.one) && w == Request(p.two))
    || (IsGetOfHolder(p.f, e, up) && CloseMethods(p, v, w))
  }

  ghost predicate CloseAnswers(p: Pair, e: Expr, up: seq<Parent>, a: Answer, b: Answer) {
    a == b || (a.Ok? && b.Ok? && Close(p, e, up, a.value, b.value))
  }

  ghost predicate Alike(w: World, p: Pair, e: Expr, up: seq<Parent>, a: map<string, Value>, b: map<string, Value>,
                        trace: seq<Event>) {
    var x, y := Eval(w, e, a, trace), Eval(w, e, b, trace);
    x.trace == y.trace && CloseAnswers(p, e, up, x.answer, y.answer)
  }

  /** What every lemma below assumes of an expression. */
  ghost predicate Ready(w: World, p: Pair, e: Expr, up: seq<Parent>, a: map<string, Value>, b: map<string, Value>) {
    && SameEnv(p, a, b) && ParsesAgree(w, p)
    && Fine(p.f, p.keys, Sites(e, up))
    && (p.f.query ==> p.f.request !in p.f.names && !ParseAbove(up))
  }

  lemma {:induction false} SelfIsFine(w: World, p: Pair, e: Expr, up: seq<Parent>, a: map<string, Value>, b: map<string, Value>)
    requires Ready(w, p, e, up, a, b)
    ensures FineSite(p.f, p.keys, Site(e, up))
  {
    assert Site(e, up) in Sites(e, up);
  }

  /** The dict's own name, at a place where nothing is read off it, cannot be. */
  lemma {:induction false} NotAHolder(w: World, p: Pair, e: Expr, up: seq<Parent>, a: map<string, Value>, b: map<string, Value>, trace: seq<Event>)
    requires Ready(w, p, e, up, a, b) && Alike(w, p, e, up, a, b, trace)
    requires up != [] && (up[0].Elsewhere? || (up[0].ValueOfAssign? && !(p.f.query && IsParse(e))))
    ensures Eval(w, e, a, trace) == Eval(w, e, b, trace)
  {
    SelfIsFine(w, p, e, up, a, b);
    assert KeyRead(up, p.f.query).Unknown?;
  }

  lemma {:induction false} NotParseAbove(p: Pair, up: seq<Parent>, top: Parent)
    requires !ParseAbove(up)
    requires !((top.FuncOf? || top.ArgOf?) && IsParse(top.call))
    ensures !ParseAbove([top] + up)
  {
    forall i | 0 <= i < |[top] + up| && (([top] + up)[i].FuncOf? || ([top] + up)[i].ArgOf?)
      ensures !IsParse(([top] + up)[i].call)
    {
      if i > 0 {
        assert ([top] + up)[i] == up[i - 1];
      }
    }
  }

  lemma {:induction false} ReadyPart(w: World, p: Pair, e: Expr, up: seq<Parent>, part: Expr, top: Parent, rest: seq<Site>, more: seq<Site>,
                  a: map<string, Value>, b: map<string, Value>)
    requires Ready(w, p, e, up, a, b)
    requires Sites(e, up) == [Site(e, up)] + (rest + (Sites(part, [top] + up) + more))
    requires p.f.query ==> !((top.FuncOf? || top.ArgOf?) && IsParse(top.call))
    ensures Ready(w, p, part, [top] + up, a, b)
  {
    FineParts(p.f, p.keys, [Site(e, up)], rest + (Sites(part, [top] + up) + more));
    FineParts(p.f, p.keys, rest, Sites(part, [top] + up) + more);
    FineParts(p.f, p.keys, Sites(part, [top] + up), more);
    if p.f.query { NotParseAbove(p, up, top); }
  }

  // ---- expressions ----------------------------------------------------------------------

  lemma {:induction false} NameAlike(w: World, p: Pair, id: string, up: seq<Parent>, a: map<string, Value>, b: map<string, Value>, trace: seq<Event>)
    requires Ready(w, p, Name(id), up, a, b)
    ensures Alike(w, p, Name(id), up, a, b, trace)
  {
    if id in a {
      assert SameVar(p, id, a[id], b[id]);
    }
  }

  lemma {:induction false} AttributeAlike(w: World, p: Pair, e: Expr, up: seq<Parent>, a: map<string, Value>, b: map<string, Value>, trace: seq<Event>)
    requires e.Attribute? && Ready(w, p, e, up, a, b)
    requires Ready(w, p, e.value, [ValueOfAttribute(e.attr)] + up, a, b)
    requires Alike(w, p, e.value, [ValueOfAttribute(e.attr)] + up, a, b, trace)
    ensures Alike(w, p, e, up, a, b, trace)
  {
    var above := [ValueOfAttribute(e.attr)] + up;
    SelfIsFine(w, p, e, up, a, b);
    SelfIsFine(w, p, e.value, above, a, b);
    var x, y := Eval(w, e.value, a, trace).answer, Eval(w, e.value, b, trace).answer;
    if x != y {
      if Holder(p.f, Site(e.value, above)) {
        assert !KeyRead(above, p.f.query).Unknown?;
        assert e.attr == "get" && up != [] && up[0].FuncOf?;
        assert IsGetOfHolder(p.f, e, up);
        assert CloseMethods(p, GetAttribute(w, x.value, "get").value, GetAttribute(w, y.value, "get").value);
      } else if e.value == Name(p.f.request) {
        assert p.f.query && x.value == Request(p.one) && y.value == Request(p.two);
        assert e.attr != "query";
      }
    }
  }

  lemma {:induction false} SubscriptAlike(w: World, p: Pair, e: Expr, up: seq<Parent>, a: map<string, Value>, b: map<string, Value>, trace: seq<Event>)
    requires e.Subscript?
    requires var above := [ValueOfSubscript(e.index)] + up;
      Ready(w, p, e.value, above, a, b) && Alike(w, p, e.value, above, a, b, trace)
    requires var t := Eval(w, e.value, a, trace).trace; Eval(w, e.index, a, t) == Eval(w, e.index, b, t)
    ensures Alike(w, p, e, up, a, b, trace)
  {
    var above := [ValueOfSubscript(e.index)] + up;
    SelfIsFine(w, p, e.value, above, a, b);
    var x, y := Eval(w, e.value, a, trace).answer, Eval(w, e.value, b, trace).answer;
    if x != y {
      assert Holder(p.f, Site(e.value, above));
      assert KeyRead(above, p.f.query) == KeyOf(e.index);
      assert e.index.Const? && e.index.v.Str? && e.index.v.s in p.keys;
      assert SameAt(x.value.fields, y.value.fields, e.index.v.s);
    }
  }

  lemma {:induction false} InAlike(w: World, p: Pair, e: Expr, up: seq<Parent>, a: map<string, Value>, b: map<string, Value>, trace: seq<Event>)
    requires e.In?
    requires Eval(w, e.left, a, trace) == Eval(w, e.left, b, trace)
    requires var above := [RightOfIn(e.left)] + up; var t := Eval(w, e.left, a, trace).trace;
      Ready(w, p, e.right, above, a, b) && Alike(w, p, e.right, above, a, b, t)
    ensures Alike(w, p, e, up, a, b, trace)
  {
    var above := [RightOfIn(e.left)] + up;
    var t := Eval(w, e.left, a, trace).trace;
    SelfIsFine(w, p, e.right, above, a, b);
    var x, y := Eval(w, e.right, a, t).answer, Eval(w, e.right, b, t).answer;
    if x != y {
      assert Holder(p.f, Site(e.right, above));
      assert KeyRead(above, p.f.query) == KeyOf(e.left);
      assert e.left.Const? && e.left.v.Str? && e.left.v.s in p.keys;
      assert SameAt(x.value.fields, y.value.fields, e.left.v.s);
    }
  }

  /** A tested value: the two runs take the same way, or raise the same. */
  lemma {:induction false} TestedAlike(w: World, p: Pair, e: Expr, up: seq<Parent>, a: map<string, Value>, b: map<string, Value>, trace: seq<Event>)
    requires up != [] && (up[0].TestOf? || up[0].OperandOfNot?)
    requires Ready(w, p, e, up, a, b) && Alike(w, p, e, up, a, b, trace)
    ensures var x, y := Eval(w, e, a, trace), Eval(w, e, b, trace);
      x.trace == y.trace && (x.answer == y.answer || (x.answer.Ok? && y.answer.Ok? && Truthy(x.answer.value) == Truthy(y.answer.value)))
  {
    SelfIsFine(w, p, e, up, a, b);
    var x, y := Eval(w, e, a, trace).answer, Eval(w, e, b, trace).answer;
    if x != y {
      assert Holder(p.f, Site(e, up));
      AgreeTruthy(p.keys, p.rest, x.value, y.value);
    }
  }

  lemma {:induction false} PlainCalleeAlike(w: World, p: Pair, e: Expr, a: map<string, Value>, b: map<string, Value>, trace: seq<Event>)
    requires SameEnv(p, a, b) && PlainCallee(p.f, e)
    ensures Eval(w, e, a, trace) == Eval(w, e, b, trace)
    decreases e
  {
    match e
    case Name(id) => if id in a { assert SameVar(p, id, a[id], b[id]); }
    case Attribute(value, _) => PlainCalleeAlike(w, p, value, a, b, trace);
    case _ =>
  }

  /** The one argument of a plain parse: the raw query, whichever way it is written. */
  lemma PlainArgument(w: World, f: Following, arg: Expr, env: map<string, Value>, trace: seq<Event>)
    requires arg == Attribute(Name(f.request), "query") || arg == Or(Attribute(Name(f.request), "query"), Const(Str("")))
    ensures f.request in env && env[f.request].Request? ==>
      Eval(w, arg, env, trace) == Result(Ok(Str(env[f.request].query)), trace)
  {
  }

  lemma {:induction false} PlainArgumentAlike(w: World, p: Pair, arg: Expr, a: map<string, Value>, b: map<string, Value>, trace: seq<Event>)
    requires SameEnv(p, a, b) && p.f.query && p.f.request !in p.f.names
    requires arg == Attribute(Name(p.f.request), "query") || arg == Or(Attribute(Name(p.f.request), "query"), Const(Str("")))
    ensures Eval(w, arg, a, trace) == Eval(w, arg, b, trace)
      || (Eval(w, arg, a, trace) == Result(Ok(Str(p.one)), trace) && Eval(w, arg, b, trace) == Result(Ok(Str(p.two)), trace))
  {
    PlainArgument(w, p.f, arg, a, trace);
    PlainArgument(w, p.f, arg, b, trace);
    var id := p.f.request;
    if id in a {
      assert SameVar(p, id, a[id], b[id]);
      if a[id] == b[id] {
        assert Eval(w, Name(id), a, trace) == Eval(w, Name(id), b, trace);
        assert Eval(w, Attribute(Name(id), "query"), a, trace) == Eval(w, Attribute(Name(id), "query"), b, trace);
      }
    } else {
      assert Eval(w, Name(id), a, trace) == Eval(w, Name(id), b, trace);
      assert Eval(w, Attribute(Name(id), "query"), a, trace) == Eval(w, Attribute(Name(id), "query"), b, trace);
    }
  }

  lemma {:induction false} OneArgument(w: World, arg: Expr, env: map<string, Value>, trace: seq<Event>)
    ensures var v := Eval(w, arg, env, trace);
      EvalAll(w, [arg], env, trace) ==
        (if v.answer.Raise? then Results([], v.answer, v.trace) else Results([v.answer.value], Ok(Null), v.trace))
  {
    assert [arg][1..] == [];
    assert EvalAll(w, [arg][1..], env, Eval(w, arg, env, trace).trace).exception == Ok(Null);
  }

  lemma {:induction false} ParseAlike(w: World, p: Pair, e: Expr, up: seq<Parent>, a: map<string, Value>, b: map<string, Value>, trace: seq<Event>)
    requires p.f.query && IsParse(e) && Ready(w, p, e, up, a, b)
    ensures Alike(w, p, e, up, a, b, trace)
  {
    SelfIsFine(w, p, e, up, a, b);
    PlainCalleeAlike(w, p, e.func, a, b, trace);
    var f := Eval(w, e.func, a, trace);
    assert e.args == [e.args[0]];
    OneArgument(w, e.args[0], a, f.trace);
    OneArgument(w, e.args[0], b, f.trace);
    PlainArgumentAlike(w, p, e.args[0], a, b, f.trace);
  }

  // ---- calls ------------------------------------------------------------------------------

  ghost predicate ReportedKey(p: Pair, e: Expr) { e.Const? && e.v.Str? && e.v.s in p.keys }

  /** An argument's values in the two runs: alike, or the dict itself, first, in isinstance or in
      _flag with a reported name. */
  ghost predicate CloseArg(p: Pair, call: Expr, i: nat, v: Value, w: Value)
    requires call.Call?
  {
    || v == w
    || (&& Near(p, v, w) && i == 0
        && (CalleeName(call.func) == "isinstance"
            || (CalleeName(call.func) == "_flag" && |call.args| > 1 && ReportedKey(p, call.args[1]))))
  }

  /** The values of the arguments from the i-th on. */
  ghost predicate CloseArgs(p: Pair, call: Expr, i: nat, vs: seq<Value>, ws: seq<Value>)
    requires call.Call?
  {
    |vs| == |ws| && forall j :: 0 <= j < |vs| ==> CloseArg(p, call, i + j, vs[j], ws[j])
  }

  lemma {:induction false} ApplyFlag(w: World, p: Pair, v: Value, x: Value, key: string)
    requires Near(p, v, x) && key in p.keys
    ensures Lookup(v, key) == Lookup(x, key)
  {
    if v != x {
      assert SameAt(v.fields, x.fields, key);
    }
  }

  lemma {:induction false} ApplyAlike(w: World, p: Pair, call: Expr, f: Value, g: Value, vs: seq<Value>, ws: seq<Value>, trace: seq<Event>)
    requires call.Call? && CloseArgs(p, call, 0, vs, ws) && |vs| == |call.args|
    requires |vs| > 1 && call.args[1].Const? ==> vs[1] == call.args[1].v
    requires |vs| > 0 && call.args[0].Const? ==> vs[0] == call.args[0].v == ws[0]
    requires f == g || (CalleeName(call.func) == "get" && CloseMethods(p, f, g) && call.args != [] && ReportedKey(p, call.args[0]))
    ensures Apply(w, CalleeName(call.func), f, vs, trace) == Apply(w, CalleeName(call.func), g, ws, trace)
  {
    assert forall j :: 0 <= j < |vs| ==> CloseArg(p, call, 0 + j, vs[j], ws[j]);
    if vs != [] && vs[0] != ws[0] {
      assert CloseArg(p, call, 0, vs[0], ws[0]);
      AgreeTruthy(p.keys, p.rest, vs[0], ws[0]);
      assert vs[1..] == ws[1..];
      if CalleeName(call.func) == "_flag" {
        ApplyFlag(w, p, vs[0], ws[0], call.args[1].v.s);
        assert vs[2..] == ws[2..];
      }
    } else {
      assert vs == ws;
      if f != g {
        ApplyFlag(w, p, f.receiver, g.receiver, call.args[0].v.s);
      }
    }
  }

  /** One argument: alike, unless it is the first and the dict itself. */
  lemma {:induction false} ArgumentAlike(w: World, p: Pair, call: Expr, i: nat, arg: Expr, up: seq<Parent>,
                      a: map<string, Value>, b: map<string, Value>, trace: seq<Event>)
    requires call.Call? && i < |call.args| && call.args[i] == arg
    requires Ready(w, p, arg, [ArgOf(call, i)] + up, a, b) && Alike(w, p, arg, [ArgOf(call, i)] + up, a, b, trace)
    ensures var x, y := Eval(w, arg, a, trace), Eval(w, arg, b, trace);
      && x.trace == y.trace
      && (x.answer == y.answer
          || (x.answer.Ok? && y.answer.Ok? && CloseArg(p, call, i, x.answer.value, y.answer.value)))
  {
    var above := [ArgOf(call, i)] + up;
    SelfIsFine(w, p, arg, above, a, b);
    if Eval(w, arg, a, trace).answer != Eval(w, arg, b, trace).answer {
      assert Holder(p.f, Site(arg, above));
    }
  }

  ghost predicate CloseResults(p: Pair, call: Expr, i: nat, x: Results, y: Results)
    requires call.Call?
  {
    x.trace == y.trace && x.exception == y.exception && (x.exception.Ok? ==> CloseArgs(p, call, i, x.values, y.values))
  }

  lemma {:induction false} OneMoreArgument(w: World, p: Pair, call: Expr, i: nat, arg: Expr, rest: seq<Expr>,
                        a: map<string, Value>, b: map<string, Value>, trace: seq<Event>)
    requires call.Call?
    requires var x, y := Eval(w, arg, a, trace), Eval(w, arg, b, trace);
      && x.trace == y.trace
      && (x.answer == y.answer
          || (x.answer.Ok? && y.answer.Ok? && CloseArg(p, call, i, x.answer.value, y.answer.value)))
      && CloseResults(p, call, i + 1, EvalAll(w, rest, a, x.trace), EvalAll(w, rest, b, x.trace))
    ensures CloseResults(p, call, i, EvalAll(w, [arg] + rest, a, trace), EvalAll(w, [arg] + rest, b, trace))
  {
    var x, y := Eval(w, arg, a, trace), Eval(w, arg, b, trace);
    assert ([arg] + rest)[1..] == rest;
    if x.answer.Ok? {
      var xs, ys := EvalAll(w, rest, a, x.trace), EvalAll(w, rest, b, x.trace);
      if xs.exception.Ok? {
        var vs, ws := [x.answer.value] + xs.values, [y.answer.value] + ys.values;
        forall j | 0 <= j < |vs|
          ensures CloseArg(p, call, i + j, vs[j], ws[j])
        {
          if j > 0 {
            assert CloseArg(p, call, i + 1 + (j - 1), xs.values[j - 1], ys.values[j - 1]);
          }
        }
      }
    }
  }

  lemma {:induction false} ArgumentsAlike(w: World, p: Pair, call: Expr, i: nat, up: seq<Parent>,
                                          a: map<string, Value>, b: map<string, Value>, trace: seq<Event>)
    requires call.Call? && i <= |call.args| && (p.f.query ==> !IsParse(call))
    requires SameEnv(p, a, b) && ParsesAgree(w, p) && (p.f.query ==> p.f.request !in p.f.names && !ParseAbove(up))
    requires Fine(p.f, p.keys, ArgSites(call, call.args[i..], i, up))
    ensures CloseResults(p, call, i, EvalAll(w, call.args[i..], a, trace), EvalAll(w, call.args[i..], b, trace))
    decreases call, 1, |call.args| - i
  {
    if i < |call.args| {
      var arg, rest := call.args[i], call.args[i + 1..];
      assert call.args[i..] == [arg] + rest;
      assert ([arg] + rest)[1..] == rest;
      FineParts(p.f, p.keys, Sites(arg, [ArgOf(call, i)] + up), ArgSites(call, rest, i + 1, up));
      if p.f.query { NotParseAbove(p, up, ArgOf(call, i)); }
      assert arg < call;
      ExprAlike(w, p, arg, [ArgOf(call, i)] + up, a, b, trace);
      ArgumentAlike(w, p, call, i, arg, up, a, b, trace);
      var v := Eval(w, arg, a, trace);
      ArgumentsAlike(w, p, call, i + 1, up, a, b, v.trace);
      OneMoreArgument(w, p, call, i, arg, rest, a, b, trace);
    }
  }

  lemma {:induction false} CallAlike(w: World, p: Pair, e: Expr, up: seq<Parent>, a: map<string, Value>, b: map<string, Value>, trace: seq<Event>)
    requires e.Call? && Ready(w, p, e, up, a, b) && (p.f.query ==> !IsParse(e))
    requires Ready(w, p, e.func, [FuncOf(e)] + up, a, b) && Alike(w, p, e.func, [FuncOf(e)] + up, a, b, trace)
    requires Fine(p.f, p.keys, ArgSites(e, e.args, 0, up))
    ensures Alike(w, p, e, up, a, b, trace)
    decreases e, 1, |e.args| + 1
  {
    var above := [FuncOf(e)] + up;
    SelfIsFine(w, p, e.func, above, a, b);
    var x, y := Eval(w, e.func, a, trace), Eval(w, e.func, b, trace);
    assert e.args[0..] == e.args;
    ArgumentsAlike(w, p, e, 0, up, a, b, x.trace);
    if x.answer != y.answer {
      assert IsGetOfHolder(p.f, e.func, above);
      HolderOfGet(w, p, e, up, a, b);
    }
    if x.answer.Ok? {
      var vs, ws := EvalAll(w, e.args, a, x.trace), EvalAll(w, e.args, b, x.trace);
      if vs.exception.Ok? {
        ConstArguments(w, e.args, a, x.trace);
        ConstArguments(w, e.args, b, x.trace);
        ApplyAlike(w, p, e, x.answer.value, y.answer.value, vs.values, ws.values, vs.trace);
      }
    }
  }

  lemma {:induction false} HolderOfGet(w: World, p: Pair, e: Expr, up: seq<Parent>, a: map<string, Value>, b: map<string, Value>)
    requires e.Call? && Ready(w, p, e.func, [FuncOf(e)] + up, a, b) && IsGetOfHolder(p.f, e.func, [FuncOf(e)] + up)
    ensures CalleeName(e.func) == "get" && e.args != [] && ReportedKey(p, e.args[0])
  {
    var above := [FuncOf(e)] + up;
    var site := Site(e.func.value, [ValueOfAttribute("get")] + above);
    assert site in Sites(e.func.value, [ValueOfAttribute("get")] + above);
    assert site in Sites(e.func, above);
    assert FineSite(p.f, p.keys, site);
    assert ([ValueOfAttribute("get")] + above)[1] == FuncOf(e);
  }

  lemma ConstArguments(w: World, es: seq<Expr>, env: map<string, Value>, trace: seq<Event>)
    requires EvalAll(w, es, env, trace).exception.Ok?
    ensures var vs := EvalAll(w, es, env, trace).values;
      && (|es| > 0 && es[0].Const? ==> vs[0] == es[0].v)
      && (|es| > 1 && es[1].Const? ==> vs[1] == es[1].v)
  {
    if |es| > 1 {
      var rest := EvalAll(w, es[1..], env, Eval(w, es[0], env, trace).trace);
      assert es[1..][0] == es[1];
    }
  }

  // ---- the induction ------------------------------------------------------------------------

  lemma {:induction false} ExprAlike(w: World, p: Pair, e: Expr, up: seq<Parent>,
                                     a: map<string, Value>, b: map<string, Value>, trace: seq<Event>)
    requires Ready(w, p, e, up, a, b)
    ensures Alike(w, p, e, up, a, b, trace)
    decreases e, 2, 0
  {
    match e
    case Name(id) => NameAlike(w, p, id, up, a, b, trace);
    case Const(_) =>
    case Attribute(value, attr) =>
      ReadyPart(w, p, e, up, value, ValueOfAttribute(attr), [], [], a, b);
      ExprAlike(w, p, value, [ValueOfAttribute(attr)] + up, a, b, trace);
      AttributeAlike(w, p, e, up, a, b, trace);
    case Call(_, _) =>
      if p.f.query && IsParse(e) {
        ParseAlike(w, p, e, up, a, b, trace);
      } else {
        CallCase(w, p, e, up, a, b, trace);
      }
    case Subscript(_, _) => SubscriptCase(w, p, e, up, a, b, trace);
    case In(_, _) => InCase(w, p, e, up, a, b, trace);
    case Not(operand) =>
      ReadyPart(w, p, e, up, operand, OperandOfNot, [], [], a, b);
      ExprAlike(w, p, operand, [OperandOfNot] + up, a, b, trace);
      TestedAlike(w, p, operand, [OperandOfNot] + up, a, b, trace);
    case And(left, right) => BothAlike(w, p, e, left, right, up, a, b, trace);
    case Or(left, right) => BothAlike(w, p, e, left, right, up, a, b, trace);
    case Op(_, left, right) => BothAlike(w, p, e, left, right, up, a, b, trace);
    case IfExp(_, _, _) => ChoiceCase(w, p, e, up, a, b, trace);
  }

  lemma {:induction false} CallCase(w: World, p: Pair, e: Expr, up: seq<Parent>, a: map<string, Value>, b: map<string, Value>, trace: seq<Event>)
    requires e.Call? && Ready(w, p, e, up, a, b) && (p.f.query ==> !IsParse(e))
    ensures Alike(w, p, e, up, a, b, trace)
    decreases e, 1, |e.args| + 2
  {
    var above := [FuncOf(e)] + up;
    var ofArgs := ArgSites(e, e.args, 0, up);
    assert [] + (Sites(e.func, above) + ofArgs) == Sites(e.func, above) + ofArgs;
    ReadyPart(w, p, e, up, e.func, FuncOf(e), [], ofArgs, a, b);
    ExprAlike(w, p, e.func, above, a, b, trace);
    FineParts(p.f, p.keys, [Site(e, up)], Sites(e.func, above) + ofArgs);
    FineParts(p.f, p.keys, Sites(e.func, above), ofArgs);
    CallAlike(w, p, e, up, a, b, trace);
  }

  lemma {:induction false} SubscriptCase(w: World, p: Pair, e: Expr, up: seq<Parent>, a: map<string, Value>, b: map<string, Value>, trace: seq<Event>)
    requires e.Subscript? && Ready(w, p, e, up, a, b)
    ensures Alike(w, p, e, up, a, b, trace)
    decreases e, 1, 0
  {
    var s1, s2 := Sites(e.value, [ValueOfSubscript(e.index)] + up), Sites(e.index, [Elsewhere] + up);
    assert [] + (s1 + s2) == s1 + s2 && s1 + (s2 + []) == s1 + s2;
    ReadyPart(w, p, e, up, e.value, ValueOfSubscript(e.index), [], s2, a, b);
    ReadyPart(w, p, e, up, e.index, Elsewhere, s1, [], a, b);
    ExprAlike(w, p, e.value, [ValueOfSubscript(e.index)] + up, a, b, trace);
    SameWhole(w, p, e.index, up, a, b, Eval(w, e.value, a, trace).trace);
    SubscriptAlike(w, p, e, up, a, b, trace);
  }

  lemma {:induction false} InCase(w: World, p: Pair, e: Expr, up: seq<Parent>, a: map<string, Value>, b: map<string, Value>, trace: seq<Event>)
    requires e.In? && Ready(w, p, e, up, a, b)
    ensures Alike(w, p, e, up, a, b, trace)
    decreases e, 1, 0
  {
    var s1, s2 := Sites(e.left, [Elsewhere] + up), Sites(e.right, [RightOfIn(e.left)] + up);
    assert [] + (s1 + s2) == s1 + s2 && s1 + (s2 + []) == s1 + s2;
    ReadyPart(w, p, e, up, e.left, Elsewhere, [], s2, a, b);
    ReadyPart(w, p, e, up, e.right, RightOfIn(e.left), s1, [], a, b);
    SameWhole(w, p, e.left, up, a, b, trace);
    ExprAlike(w, p, e.right, [RightOfIn(e.left)] + up, a, b, Eval(w, e.left, a, trace).trace);
    InAlike(w, p, e, up, a, b, trace);
  }

  lemma {:induction false} ChoiceCase(w: World, p: Pair, e: Expr, up: seq<Parent>, a: map<string, Value>, b: map<string, Value>, trace: seq<Event>)
    requires e.IfExp? && Ready(w, p, e, up, a, b)
    ensures Alike(w, p, e, up, a, b, trace)
    decreases e, 1, 0
  {
    var s1, s2, s3 := Sites(e.test, [TestOf] + up), Sites(e.thn, [Elsewhere] + up), Sites(e.els, [Elsewhere] + up);
    assert [] + (s1 + (s2 + s3)) == s1 + s2 + s3 == s1 + (s2 + s3) == s1 + s2 + (s3 + []);
    ReadyPart(w, p, e, up, e.test, TestOf, [], s2 + s3, a, b);
    ReadyPart(w, p, e, up, e.thn, Elsewhere, s1, s3, a, b);
    ReadyPart(w, p, e, up, e.els, Elsewhere, s1 + s2, [], a, b);
    ExprAlike(w, p, e.test, [TestOf] + up, a, b, trace);
    TestedAlike(w, p, e.test, [TestOf] + up, a, b, trace);
    var t := Eval(w, e.test, a, trace).trace;
    SameWhole(w, p, e.thn, up, a, b, t);
    SameWhole(w, p, e.els, up, a, b, t);
  }

  /** An expression no key is read off: the same in both runs. */
  lemma {:induction false} SameWhole(w: World, p: Pair, e: Expr, up: seq<Parent>, a: map<string, Value>, b: map<string, Value>, trace: seq<Event>)
    requires Ready(w, p, e, [Elsewhere] + up, a, b)
    ensures Eval(w, e, a, trace) == Eval(w, e, b, trace)
    decreases e, 3, 0
  {
    ExprAlike(w, p, e, [Elsewhere] + up, a, b, trace);
    NotAHolder(w, p, e, [Elsewhere] + up, a, b, trace);
  }

  lemma {:induction false} BothAlike(w: World, p: Pair, e: Expr, left: Expr, right: Expr, up: seq<Parent>,
                  a: map<string, Value>, b: map<string, Value>, trace: seq<Event>)
    requires Ready(w, p, e, up, a, b)
    requires (e.And? || e.Or? || e.Op?) && e.left == left && e.right == right
    ensures Eval(w, e, a, trace) == Eval(w, e, b, trace)
    decreases e, 1, 0
  {
    var s1, s2 := Sites(left, [Elsewhere] + up), Sites(right, [Elsewhere] + up);
    assert [] + (s1 + s2) == s1 + s2 && s1 + (s2 + []) == s1 + s2;
    ReadyPart(w, p, e, up, left, Elsewhere, [], s2, a, b);
    ReadyPart(w, p, e, up, right, Elsewhere, s1, [], a, b);
    SameWhole(w, p, left, up, a, b, trace);
    SameWhole(w, p, right, up, a, b, Eval(w, left, a, trace).trace);
  }

  // ---- statements -----------------------------------------------------------------------------

  /** Every parsed query is bound to plain names. */
  predicate NamedParses(s: Stmt) {
    match s
    case Assign(target, e) => IsParse(e) ==> target.ToName?
    case Seq(first, second) => NamedParses(first) && NamedParses(second)
    case If(_, thn, els) => NamedParses(thn) && NamedParses(els)
    case While(_, body) => NamedParses(body)
    case For(_, _, body) => NamedParses(body)
    case Try(body, handler) => NamedParses(body) && NamedParses(handler)
    case _ => true
  }

  /** No `del` takes a key off the dict. */
  predicate NoDelete(f: Following, s: Stmt) {
    match s
    case Delete(id, _) => id !in f.names
    case Seq(first, second) => NoDelete(f, first) && NoDelete(f, second)
    case If(_, thn, els) => NoDelete(f, thn) && NoDelete(f, els)
    case While(_, body) => NoDelete(f, body)
    case For(_, _, body) => NoDelete(f, body)
    case Try(body, handler) => NoDelete(f, body) && NoDelete(f, handler)
    case _ => true
  }

  ghost predicate ReadyCode(w: World, p: Pair, s: Stmt) {
    && ParsesAgree(w, p) && Fine(p.f, p.keys, CodeSites(s))
    && (p.f.query ==> p.f.request !in p.f.names && Bound(s) <= p.f.names && NamedParses(s))
    && (p.rest || NoDelete(p.f, s))
  }

  ghost predicate SameState(p: Pair, a: State, b: State) { a.trace == b.trace && SameEnv(p, a.env, b.env) }

  ghost predicate SameRun(p: Pair, x: Run, y: Run) { x.flow == y.flow && SameState(p, x.state, y.state) }

  lemma {:induction false} TopReady(w: World, p: Pair, e: Expr, top: Parent, a: map<string, Value>, b: map<string, Value>)
    requires SameEnv(p, a, b) && ParsesAgree(w, p) && Fine(p.f, p.keys, Sites(e, [top]))
    requires p.f.query ==> p.f.request !in p.f.names
    requires !top.FuncOf? && !top.ArgOf?
    ensures Ready(w, p, e, [top], a, b)
  {
  }

  lemma {:induction false} EvaluatedAlike(w: World, p: Pair, e: Expr, a: State, b: State)
    requires SameState(p, a, b) && ParsesAgree(w, p) && Fine(p.f, p.keys, Sites(e, [Elsewhere]))
    requires p.f.query ==> p.f.request !in p.f.names
    ensures Eval(w, e, a.env, a.trace) == Eval(w, e, b.env, b.trace)
  {
    TopReady(w, p, e, Elsewhere, a.env, b.env);
    assert [Elsewhere] + [] == [Elsewhere];
    SameWhole(w, p, e, [], a.env, b.env, a.trace);
  }

  lemma {:induction false} ConditionAlike(w: World, p: Pair, e: Expr, a: State, b: State)
    requires SameState(p, a, b) && ParsesAgree(w, p) && Fine(p.f, p.keys, Sites(e, [TestOf]))
    requires p.f.query ==> p.f.request !in p.f.names
    ensures var x, y := Eval(w, e, a.env, a.trace), Eval(w, e, b.env, b.trace);
      x.trace == y.trace && (x.answer == y.answer || (x.answer.Ok? && y.answer.Ok? && Truthy(x.answer.value) == Truthy(y.answer.value)))
  {
    TopReady(w, p, e, TestOf, a.env, b.env);
    ExprAlike(w, p, e, [TestOf], a.env, b.env, a.trace);
    TestedAlike(w, p, e, [TestOf], a.env, b.env, a.trace);
  }

  lemma {:induction false} AssignedAlike(w: World, p: Pair, e: Expr, a: State, b: State)
    requires SameState(p, a, b) && ParsesAgree(w, p) && Fine(p.f, p.keys, Sites(e, [ValueOfAssign]))
    requires p.f.query ==> p.f.request !in p.f.names
    ensures var x, y := Eval(w, e, a.env, a.trace), Eval(w, e, b.env, b.trace);
      && x.trace == y.trace
      && (x.answer == y.answer || (p.f.query && IsParse(e) && x.answer.Ok? && y.answer.Ok? && Near(p, x.answer.value, y.answer.value)))
  {
    TopReady(w, p, e, ValueOfAssign, a.env, b.env);
    ExprAlike(w, p, e, [ValueOfAssign], a.env, b.env, a.trace);
    if !(p.f.query && IsParse(e)) {
      NotAHolder(w, p, e, [ValueOfAssign], a.env, b.env, a.trace);
    }
  }

  /** The dict, or any other variable, where an item of it is set or deleted. */
  lemma {:induction false} ItemAlike(w: World, p: Pair, id: string, index: Expr, a: State, b: State)
    requires SameState(p, a, b) && ParsesAgree(w, p) && (p.f.query ==> p.f.request !in p.f.names)
    requires Fine(p.f, p.keys, Sites(Subscript(Name(id), index), [Elsewhere]))
    ensures Eval(w, index, a.env, a.trace) == Eval(w, index, b.env, b.trace)
    ensures id in a.env && a.env[id] != b.env[id] ==>
      id in p.f.names && Near(p, a.env[id], b.env[id]) && ReportedKey(p, index)
  {
    var e := Subscript(Name(id), index);
    var above := [ValueOfSubscript(index)] + [Elsewhere];
    var s1, s2 := Sites(Name(id), above), Sites(index, [Elsewhere] + [Elsewhere]);
    assert [] + (s1 + s2) == s1 + s2 && s1 + (s2 + []) == s1 + s2;
    TopReady(w, p, e, Elsewhere, a.env, b.env);
    ReadyPart(w, p, e, [Elsewhere], Name(id), ValueOfSubscript(index), [], s2, a.env, b.env);
    ReadyPart(w, p, e, [Elsewhere], index, Elsewhere, s1, [], a.env, b.env);
    SameWhole(w, p, index, [Elsewhere], a.env, b.env, a.trace);
    SelfIsFine(w, p, Name(id), above, a.env, b.env);
    if id in a.env && a.env[id] != b.env[id] {
      assert SameVar(p, id, a.env[id], b.env[id]);
    }
  }

  lemma {:induction false} BoundAlike(p: Pair, a: map<string, Value>, b: map<string, Value>, id: string, v: Value, x: Value)
    requires SameEnv(p, a, b) && SameVar(p, id, v, x)
    ensures SameEnv(p, a[id := v], b[id := x])
  {
  }

  lemma {:induction false} StoreAlike(w: World, p: Pair, a: State, b: State, target: Target, e: Expr, v: Value, x: Value)
    requires SameState(p, a, b) && ReadyCode(w, p, Assign(target, e))
    requires v == x || (p.f.query && IsParse(e) && Near(p, v, x))
    ensures SameRun(p, Store(w, a, target, v), Store(w, b, target, x))
  {
    match target
    case ToName(id) => BoundAlike(p, a.env, b.env, id, v, x);
    case ToAttribute(_, _) =>
    case ToItem(id, index) =>
      FineParts(p.f, p.keys, TargetSites(target), Sites(e, [ValueOfAssign]));
      ItemAlike(w, p, id, index, a, b);
      var i := Eval(w, index, a.env, a.trace);
      if i.answer.Ok? && id in a.env && a.env[id] != b.env[id] {
        AgreeAfterSet(p.keys, p.rest, a.env[id], b.env[id], index.v.s, v);
        BoundAlike(p, a.env, b.env, id, SetItem(w, a.env[id], i.answer.value, v).value, SetItem(w, b.env[id], i.answer.value, v).value);
      }
  }

  lemma {:induction false} DeleteAlike(w: World, p: Pair, s: Stmt, a: State, b: State, fuel: nat)
    requires s.Delete? && SameState(p, a, b) && ReadyCode(w, p, s)
    ensures SameRun(p, Exec(w, s, a, fuel), Exec(w, s, b, fuel))
  {
    ItemAlike(w, p, s.id, s.index, a, b);
    var i := Eval(w, s.index, a.env, a.trace);
    if i.answer.Ok? && s.id in a.env && a.env[s.id] != b.env[s.id] {
      var v, x := a.env[s.id], b.env[s.id];
      assert SameAt(v.fields, x.fields, s.index.v.s);
      AgreeAfterDelete(p.keys, v, x, s.index.v.s);
      if s.index.v.s in v.fields {
        BoundAlike(p, a.env, b.env, s.id, Dict(v.fields - {s.index.v.s}), Dict(x.fields - {s.index.v.s}));
      }
    }
  }

  lemma {:induction false} ExecAlike(w: World, p: Pair, s: Stmt, a: State, b: State, fuel: nat)
    requires SameState(p, a, b) && ReadyCode(w, p, s)
    ensures SameRun(p, Exec(w, s, a, fuel), Exec(w, s, b, fuel))
    decreases fuel, s, 1
  {
    match s
    case Skip =>
    case ExprStmt(e) => EvaluatedAlike(w, p, e, a, b);
    case Return(e) => EvaluatedAlike(w, p, e, a, b);
    case Delete(_, _) => DeleteAlike(w, p, s, a, b, fuel);
    case Assign(target, e) =>
      FineParts(p.f, p.keys, TargetSites(target), Sites(e, [ValueOfAssign]));
      AssignedAlike(w, p, e, a, b);
      var x, y := Eval(w, e, a.env, a.trace), Eval(w, e, b.env, b.trace);
      if x.answer.Ok? {
        StoreAlike(w, p, State(a.env, x.trace), State(b.env, y.trace), target, e, x.answer.value, y.answer.value);
      }
    case Seq(first, second) =>
      FineParts(p.f, p.keys, CodeSites(first), CodeSites(second));
      ExecAlike(w, p, first, a, b, fuel);
      var r, q := Exec(w, first, a, fuel), Exec(w, first, b, fuel);
      if r.flow.Normal? { ExecAlike(w, p, second, r.state, q.state, fuel); }
    case If(test, thn, els) =>
      FineParts(p.f, p.keys, Sites(test, [TestOf]) + CodeSites(thn), CodeSites(els));
      FineParts(p.f, p.keys, Sites(test, [TestOf]), CodeSites(thn));
      ConditionAlike(w, p, test, a, b);
      var t := Eval(w, test, a.env, a.trace);
      if t.answer.Ok? {
        ExecAlike(w, p, if Truthy(t.answer.value) then thn else els, State(a.env, t.trace), State(b.env, t.trace), fuel);
      }
    case While(test, body) =>
      FineParts(p.f, p.keys, Sites(test, [TestOf]), CodeSites(body));
      ConditionAlike(w, p, test, a, b);
      var t := Eval(w, test, a.env, a.trace);
      if t.answer.Ok? && Truthy(t.answer.value) && fuel > 0 {
        ExecAlike(w, p, body, State(a.env, t.trace), State(b.env, t.trace), fuel);
        var r, q := Exec(w, body, State(a.env, t.trace), fuel), Exec(w, body, State(b.env, t.trace), fuel);
        if r.flow.Normal? { ExecAlike(w, p, s, r.state, q.state, fuel - 1); }
      }
    case For(id, iter, body) =>
      FineParts(p.f, p.keys, Sites(iter, [Elsewhere]), CodeSites(body));
      EvaluatedAlike(w, p, iter, a, b);
      var v := Eval(w, iter, a.env, a.trace);
      if v.answer.Ok? && w.iterate(v.answer.value).Items? {
        ForEachAlike(w, p, id, w.iterate(v.answer.value).items, body, State(a.env, v.trace), State(b.env, v.trace), fuel);
      }
    case Try(body, handler) =>
      FineParts(p.f, p.keys, CodeSites(body), CodeSites(handler));
      ExecAlike(w, p, body, a, b, fuel);
      var r, q := Exec(w, body, a, fuel), Exec(w, body, b, fuel);
      if r.flow.Raised? { ExecAlike(w, p, handler, r.state, q.state, fuel); }
  }

  lemma {:induction false} ForEachAlike(w: World, p: Pair, id: string, items: seq<Value>, body: Stmt, a: State, b: State, fuel: nat)
    requires SameState(p, a, b) && ReadyCode(w, p, body)
    ensures SameRun(p, ForEach(w, id, items, body, a, fuel), ForEach(w, id, items, body, b, fuel))
    decreases fuel, body, 2, |items|
  {
    if items != [] {
      BoundAlike(p, a.env, b.env, id, items[0], items[0]);
      var a1, b1 := State(a.env[id := items[0]], a.trace), State(b.env[id := items[0]], b.trace);
      ExecAlike(w, p, body, a1, b1, fuel);
      var r, q := Exec(w, body, a1, fuel), Exec(w, body, b1, fuel);
      if r.flow.Normal? { ForEachAlike(w, p, id, items[1..], body, r.state, q.state, fuel); }
    }
  }

  // ---- the theorems ---------------------------------------------------------------------------

  /** What a caller sees of a handler: how it ended and every call it made. */
  ghost predicate AnsweredAlike(x: Run, y: Run) { x.flow == y.flow && x.state.trace == y.state.trace }

  /** Two bodies, each an object, alike at the reported keys and in being empty: when `body_fields`
      reports that its keys are all, a handler that deletes no key answers both alike. */
  lemma {:induction false} BodyFieldsAreAll(w: World, d: Handler, keys: set<string>, query: string, one: map<string, Value>, two: map<string, Value>,
                         fuel: nat)
    requires WellFormed(d) && Covered(OfBody(d), CodeSites(d.code), keys)
    requires NoDelete(OfBody(d), d.code) && AgreeDicts(keys, false, one, two)
    ensures AnsweredAlike(Serve(w, d, query, Dict(one), fuel), Serve(w, d, query, Dict(two), fuel))
  {
    ServeAlike(w, d, Pair(OfBody(d), keys, false, query, query), Dict(one), Dict(two), fuel);
  }

  /** And every handler answers them alike when they are also alike in holding any other key. */
  lemma {:induction false} BodyFieldsAreAllWithDelete(w: World, d: Handler, keys: set<string>, query: string,
                                   one: map<string, Value>, two: map<string, Value>, fuel: nat)
    requires WellFormed(d) && Covered(OfBody(d), CodeSites(d.code), keys)
    requires AgreeDicts(keys, true, one, two)
    ensures AnsweredAlike(Serve(w, d, query, Dict(one), fuel), Serve(w, d, query, Dict(two), fuel))
  {
    ServeAlike(w, d, Pair(OfBody(d), keys, true, query, query), Dict(one), Dict(two), fuel);
  }

  /** Two queries whose parses are alike at the reported keys: when `query` reports that its keys are
      all, a handler that parses the raw query only, into plain names other than the request's,
      answers both alike. */
  lemma {:induction false} QueryKeysAreAll(w: World, d: Handler, keys: set<string>, one: string, two: string, body: Value, rest: bool, fuel: nat)
    requires WellFormed(d) && Covered(OfQuery(d), CodeSites(d.code), keys)
    requires NamedParses(d.code) && d.request !in Bound(d.code)
    requires forall s :: s in CodeSites(d.code) && IsParse(s.node) ==> PlainParse(OfQuery(d), s.node)
    requires rest || NoDelete(OfQuery(d), d.code)
    requires var x, y := w.parse([Str(one)]), w.parse([Str(two)]);
      x == y || (x.Ok? && y.Ok? && Agree(keys, rest, x.value, y.value))
    ensures AnsweredAlike(Serve(w, d, one, body, fuel), Serve(w, d, two, body, fuel))
  {
    var p := Pair(OfQuery(d), keys, rest, one, two);
    forall s | s in CodeSites(d.code)
      ensures FineSite(p.f, keys, s)
    {
    }
    var a: map<string, Value> := map[d.h := Opaque("handler"), d.request := Request(one), d.body := body];
    var b: map<string, Value> := map[d.h := Opaque("handler"), d.request := Request(two), d.body := body];
    assert SameEnv(p, a, b);
    ExecAlike(w, p, d.code, State(a, []), State(b, []), fuel);
  }

  lemma {:induction false} ServeAlike(w: World, d: Handler, p: Pair, one: Value, two: Value, fuel: nat)
    requires WellFormed(d) && p.f == OfBody(d) && p.one == p.two
    requires Covered(p.f, CodeSites(d.code), p.keys) && (p.rest || NoDelete(p.f, d.code))
    requires Near(p, one, two)
    ensures AnsweredAlike(Serve(w, d, p.one, one, fuel), Serve(w, d, p.one, two, fuel))
  {
    forall s | s in CodeSites(d.code)
      ensures FineSite(p.f, p.keys, s)
    {
    }
    var a: map<string, Value> := map[d.h := Opaque("handler"), d.request := Request(p.one), d.body := one];
    var b: map<string, Value> := map[d.h := Opaque("handler"), d.request := Request(p.one), d.body := two];
    assert SameEnv(p, a, b);
    ExecAlike(w, p, d.code, State(a, []), State(b, []), fuel);
  }
}
