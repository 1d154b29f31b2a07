/** A small language of route handlers, as caravan/admin/api_spec.py sees their code: Python's
    expressions and statements with the shapes its reading tells apart, and what running them does.

    A run's behaviour is its outcome and its trace: every call of a function the language does not
    know is one event, and its answer may depend on all events before it. */
module HandlerLanguage {

  datatype Value =
    | Null | Bool(b: bool) | Int(n: int) | Str(s: string)
    | List(items: seq<Value>)
    | Dict(fields: map<string, Value>)
    | Method(receiver: Value, name: string)     // a bound method
    | Request(query: string)                    // the parsed request, its raw query string inside
    | Opaque(name: string)                      // anything else: the handler object, a function, a module

  datatype Tag = NullTag | BoolTag | IntTag | StrTag | ListTag | DictTag | MethodTag | RequestTag | OpaqueTag(name: string)

  function TagOf(v: Value): Tag {
    match v
    case Null => NullTag
    case Bool(_) => BoolTag
    case Int(_) => IntTag
    case Str(_) => StrTag
    case List(_) => ListTag
    case Dict(_) => DictTag
    case Method(_, _) => MethodTag
    case Request(_) => RequestTag
    case Opaque(name) => OpaqueTag(name)
  }

  predicate Truthy(v: Value) {
    match v
    case Null => false
    case Bool(b) => b
    case Int(n) => n != 0
    case Str(s) => s != ""
    case List(items) => items != []
    case Dict(fields) => fields != map[]
    case _ => true
  }

  // ---- code -----------------------------------------------------------------------

  datatype Expr =
    | Name(id: string)
    | Const(v: Value)
    | Attribute(value: Expr, attr: string)
    | Call(func: Expr, args: seq<Expr>)
    | Subscript(value: Expr, index: Expr)
    | In(left: Expr, right: Expr)
    | Not(operand: Expr)
    | And(left: Expr, right: Expr)
    | Or(left: Expr, right: Expr)
    | IfExp(test: Expr, thn: Expr, els: Expr)
    | Op(op: string, left: Expr, right: Expr)   // any other operator or display

  datatype Target = ToName(id: string) | ToItem(id: string, index: Expr) | ToAttribute(id: string, attr: string)

  datatype Stmt =
    | Skip
    | ExprStmt(e: Expr)
    | Assign(target: Target, e: Expr)
    | Delete(id: string, index: Expr)           // del id[index]
    | Seq(first: Stmt, second: Stmt)
    | If(test: Expr, thn: Stmt, els: Stmt)
    | While(test: Expr, body: Stmt)
    | For(id: string, iter: Expr, body: Stmt)
    | Try(body: Stmt, handler: Stmt)
    | Return(e: Expr)

  /** The name a call calls by: `f(...)` and `m.f(...)` are both `f`. */
  function CalleeName(func: Expr): string {
    match func
    case Name(id) => id
    case Attribute(_, attr) => attr
    case _ => ""
  }

  // ---- running it -----------------------------------------------------------------

  datatype Event =
    | Called(callee: Value, name: string, args: seq<Value>)
    | AttributeSet(id: string, attr: string, value: Value)

  datatype Answer = Ok(value: Value) | Raise(exception: Value)

  datatype Iterated = Items(items: seq<Value>) | CannotIterate(exception: Value)

  /** Everything the language leaves open. `call` may answer by all that happened before it. */
  datatype World = World(
    call: (seq<Event>, Value, string, seq<Value>) -> Answer,
    attribute: (Value, string) -> Answer,
    ofRequest: string -> Answer,                  // an attribute of the request other than its query
    op: (string, Value, Value) -> Answer,
    isInstance: (Tag, seq<Value>) -> Answer,
    flag: (Answer, seq<Value>) -> Answer,         // _flag, by what the dict has under the name
    parse: seq<Value> -> Answer,                  // parse_qs
    index: (Value, Value) -> Answer,
    contains: (Value, Value) -> Answer,
    setIndex: (Value, Value, Value) -> Answer,
    iterate: Value -> Iterated,
    failed: (string, Tag, seq<Value>) -> Value)   // what an operation on a wrong type or a missing key raises

  datatype State = State(env: map<string, Value>, trace: seq<Event>)

  datatype Result = Result(answer: Answer, trace: seq<Event>)

  const MISSING: Answer := Raise(Null)

  /** What a dict has under a key. */
  function Lookup(v: Value, key: string): Answer {
    if v.Dict? && key in v.fields then Ok(v.fields[key]) else MISSING
  }

  function GetItem(w: World, v: Value, i: Value): Answer {
    if i.Str? && v.Dict? then
      (if i.s in v.fields then Ok(v.fields[i.s]) else Raise(w.failed("KeyError", DictTag, [i])))
    else if i.Str? && !v.Opaque? then Raise(w.failed("TypeError", TagOf(v), []))
    else w.index(v, i)
  }

  function GetAttribute(w: World, v: Value, attr: string): Answer {
    if v.Request? then (if attr == "query" then Ok(Str(v.query)) else w.ofRequest(attr))
    else if v.Opaque? || attr != "get" then w.attribute(v, attr)
    else if v.Dict? then Ok(Method(v, attr))
    else Raise(w.failed("AttributeError", TagOf(v), []))
  }

  predicate Has(v: Value, key: string) {
    (v.Dict? && key in v.fields) || (v.List? && Str(key) in v.items)
  }

  /** `left in right`, a text looked for in a dict or a list; anything else is left open. */
  function Contains(w: World, left: Value, right: Value): Answer {
    if left.Str? && (right.Dict? || right.List?) then Ok(Bool(Has(right, left.s))) else w.contains(left, right)
  }

  function SetItem(w: World, v: Value, i: Value, x: Value): Answer {
    if i.Str? && v.Dict? then Ok(Dict(v.fields[i.s := x]))
    else if i.Str? && !v.Opaque? then Raise(w.failed("TypeError", TagOf(v), []))
    else w.setIndex(v, i, x)
  }

  function DeleteItem(w: World, v: Value, i: Value): Answer {
    if i.Str? && v.Dict? then
      (if i.s in v.fields then Ok(Dict(v.fields - {i.s})) else Raise(w.failed("KeyError", DictTag, [i])))
    else Raise(w.failed("TypeError", TagOf(v), [i]))
  }

  function Apply(w: World, name: string, f: Value, args: seq<Value>, trace: seq<Event>): Result {
    if name == "isinstance" && args != [] then Result(w.isInstance(TagOf(args[0]), args[1..]), trace)
    else if name == "_flag" && |args| > 1 && args[1].Str? then
      Result(w.flag(Lookup(args[0], args[1].s), args[2..]), trace)
    else if name == "parse_qs" then Result(w.parse(args), trace)
    else if f.Method? && f.name == "get" && f.receiver.Dict? && args != [] && args[0].Str? then
      var found := Lookup(f.receiver, args[0].s);
      Result(if found.Ok? then found else Ok(if |args| > 1 then args[1] else Null), trace)
    else
      Result(w.call(trace, f, name, args), trace + [Called(f, name, args)])
  }

  function Eval(w: World, e: Expr, env: map<string, Value>, trace: seq<Event>): Result
    decreases e, 1
  {
    match e
    case Name(id) => Result(Ok(if id in env then env[id] else Opaque(id)), trace)
    case Const(v) => Result(Ok(v), trace)
    case Attribute(value, attr) =>
      var v := Eval(w, value, env, trace);
      if v.answer.Raise? then v else Result(GetAttribute(w, v.answer.value, attr), v.trace)
    case Call(func, args) =>
      var f := Eval(w, func, env, trace);
      if f.answer.Raise? then f
      else
        var vs := EvalAll(w, args, env, f.trace);
        if vs.exception.Raise? then Result(vs.exception, vs.trace)
        else Apply(w, CalleeName(func), f.answer.value, vs.values, vs.trace)
    case Subscript(value, index) =>
      var v := Eval(w, value, env, trace);
      if v.answer.Raise? then v
      else
        var i := Eval(w, index, env, v.trace);
        if i.answer.Raise? then i else Result(GetItem(w, v.answer.value, i.answer.value), i.trace)
    case In(left, right) =>
      var l := Eval(w, left, env, trace);
      if l.answer.Raise? then l
      else
        var r := Eval(w, right, env, l.trace);
        if r.answer.Raise? then r else Result(Contains(w, l.answer.value, r.answer.value), r.trace)
    case Not(operand) =>
      var v := Eval(w, operand, env, trace);
      if v.answer.Raise? then v else Result(Ok(Bool(!Truthy(v.answer.value))), v.trace)
    case And(left, right) =>
      var l := Eval(w, left, env, trace);
      if l.answer.Raise? || !Truthy(l.answer.value) then l else Eval(w, right, env, l.trace)
    case Or(left, right) =>
      var l := Eval(w, left, env, trace);
      if l.answer.Raise? || Truthy(l.answer.value) then l else Eval(w, right, env, l.trace)
    case IfExp(test, thn, els) =>
      var t := Eval(w, test, env, trace);
      if t.answer.Raise? then t
      else if Truthy(t.answer.value) then Eval(w, thn, env, t.trace)
      else Eval(w, els, env, t.trace)
    case Op(op, left, right) =>
      var l := Eval(w, left, env, trace);
      if l.answer.Raise? then l
      else
        var r := Eval(w, right, env, l.trace);
        if r.answer.Raise? then r else Result(w.op(op, l.answer.value, r.answer.value), r.trace)
  }

  /** Arguments left to right; `exception` is Ok when all were evaluated. */
  datatype Results = Results(values: seq<Value>, exception: Answer, trace: seq<Event>)

  function EvalAll(w: World, es: seq<Expr>, env: map<string, Value>, trace: seq<Event>): (r: Results)
    ensures r.exception.Ok? ==> |r.values| == |es|
    decreases es, 0
  {
    if es == [] then Results([], Ok(Null), trace)
    else
      var v := Eval(w, es[0], env, trace);
      if v.answer.Raise? then Results([], v.answer, v.trace)
      else
        var rest := EvalAll(w, es[1..], env, v.trace);
        if rest.exception.Raise? then rest else Results([v.answer.value] + rest.values, rest.exception, rest.trace)
  }

  datatype Flow = Normal | Returned(value: Value) | Raised(exception: Value) | NoFuel

  datatype Run = Run(flow: Flow, state: State)

  function Store(w: World, st: State, target: Target, v: Value): Run {
    match target
    case ToName(id) => Run(Normal, State(st.env[id := v], st.trace))
    case ToAttribute(id, attr) => Run(Normal, State(st.env, st.trace + [AttributeSet(id, attr, v)]))
    case ToItem(id, index) =>
      var i := Eval(w, index, st.env, st.trace);
      if i.answer.Raise? then Run(Raised(i.answer.exception), State(st.env, i.trace))
      else
        var holder := if id in st.env then st.env[id] else Opaque(id);
        var next := SetItem(w, holder, i.answer.value, v);
        if next.Raise? then Run(Raised(next.exception), State(st.env, i.trace))
        else Run(Normal, State(st.env[id := next.value], i.trace))
  }

  /** `fuel` bounds the rounds of loops; a handler that never ends runs out of every fuel. */
  function Exec(w: World, s: Stmt, st: State, fuel: nat): Run
    decreases fuel, s, 1
  {
    match s
    case Skip => Run(Normal, st)
    case ExprStmt(e) =>
      var v := Eval(w, e, st.env, st.trace);
      Run(if v.answer.Ok? then Normal else Raised(v.answer.exception), State(st.env, v.trace))
    case Assign(target, e) =>
      var v := Eval(w, e, st.env, st.trace);
      if v.answer.Raise? then Run(Raised(v.answer.exception), State(st.env, v.trace))
      else Store(w, State(st.env, v.trace), target, v.answer.value)
    case Delete(id, index) =>
      var i := Eval(w, index, st.env, st.trace);
      if i.answer.Raise? then Run(Raised(i.answer.exception), State(st.env, i.trace))
      else
        var next := DeleteItem(w, if id in st.env then st.env[id] else Opaque(id), i.answer.value);
        if next.Raise? then Run(Raised(next.exception), State(st.env, i.trace))
        else Run(Normal, State(st.env[id := next.value], i.trace))
    case Seq(first, second) =>
      var r := Exec(w, first, st, fuel);
      if r.flow.Normal? then Exec(w, second, r.state, fuel) else r
    case If(test, thn, els) =>
      var t := Eval(w, test, st.env, st.trace);
      if t.answer.Raise? then Run(Raised(t.answer.exception), State(st.env, t.trace))
      else Exec(w, if Truthy(t.answer.value) then thn else els, State(st.env, t.trace), fuel)
    case While(test, body) =>
      var t := Eval(w, test, st.env, st.trace);
      if t.answer.Raise? then Run(Raised(t.answer.exception), State(st.env, t.trace))
      else if !Truthy(t.answer.value) then Run(Normal, State(st.env, t.trace))
      else if fuel == 0 then Run(NoFuel, State(st.env, t.trace))
      else
        var r := Exec(w, body, State(st.env, t.trace), fuel);
        if r.flow.Normal? then Exec(w, s, r.state, fuel - 1) else r
    case For(id, iter, body) =>
      var v := Eval(w, iter, st.env, st.trace);
      if v.answer.Raise? then Run(Raised(v.answer.exception), State(st.env, v.trace))
      else
        var items := w.iterate(v.answer.value);
        if items.CannotIterate? then Run(Raised(items.exception), State(st.env, v.trace))
        else ForEach(w, id, items.items, body, State(st.env, v.trace), fuel)
    case Try(body, handler) =>
      var r := Exec(w, body, st, fuel);
      if r.flow.Raised? then Exec(w, handler, r.state, fuel) else r
    case Return(e) =>
      var v := Eval(w, e, st.env, st.trace);
      Run(if v.answer.Ok? then Returned(v.answer.value) else Raised(v.answer.exception), State(st.env, v.trace))
  }

  function ForEach(w: World, id: string, items: seq<Value>, body: Stmt, st: State, fuel: nat): Run
    decreases fuel, body, 2, |items|
  {
    if items == [] then Run(Normal, st)
    else
      var r := Exec(w, body, State(st.env[id := items[0]], st.trace), fuel);
      if r.flow.Normal? then ForEach(w, id, items[1..], body, r.state, fuel) else r
  }

  /** A route handler is (h, parsed[, body]). */
  datatype Handler = Handler(h: string, request: string, body: string, code: Stmt)

  predicate WellFormed(d: Handler) { d.h != d.request && d.h != d.body && d.request != d.body }

  function Serve(w: World, d: Handler, query: string, body: Value, fuel: nat): Run {
    Exec(w, d.code, State(map[d.h := Opaque("handler"), d.request := Request(query), d.body := body], []), fuel)
  }
}
