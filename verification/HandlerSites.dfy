/** The uses of a dict in a handler's code, as caravan/admin/api_spec.py (HandlerReading) finds them.

    The source walks the syntax tree and asks each use of the body what its parents are; here every
    expression is visited with its chain of parents. */
module HandlerSites {
  import opened HandlerLanguage

  /** What stands right above an expression, and as which part of it. */
  datatype Parent =
    | FuncOf(call: Expr) | ArgOf(call: Expr, i: nat)
    | ValueOfAttribute(attr: string)
    | ValueOfSubscript(index: Expr)
    | RightOfIn(left: Expr)
    | OperandOfNot | TestOf
    | ValueOfAssign
    | Elsewhere

  datatype Site = Site(node: Expr, up: seq<Parent>)

  datatype Use = Key(name: string) | Harmless | Unknown

  /** `_constant(...) or None`: a literal text that is not empty. */
  function KeyOf(e: Expr): Use {
    if e.Const? && e.v.Str? && e.v.s != "" then Key(e.v.s) else Unknown
  }

  /** `_key_read`: what is read off a dict the handler holds, by what stands above it. */
  function KeyRead(up: seq<Parent>, flags: bool): Use {
    if up == [] then Unknown
    else match up[0]
      case ArgOf(call, i) =>
        if !call.Call? || i != 0 then Unknown
        else if CalleeName(call.func) == "isinstance" then Harmless
        else if flags && CalleeName(call.func) == "_flag" && |call.args| > 1 then KeyOf(call.args[1])
        else Unknown
      case OperandOfNot => Harmless
      case TestOf => Harmless
      case ValueOfAttribute(attr) =>
        if attr == "get" && |up| > 1 && up[1].FuncOf? && up[1].call.Call? && up[1].call.args != []
        then KeyOf(up[1].call.args[0]) else Unknown
      case ValueOfSubscript(index) => KeyOf(index)
      case RightOfIn(left) => KeyOf(left)
      case _ => Unknown
  }

  // ---- every expression of the handler, with its parents -----------------------------

  function Sites(e: Expr, up: seq<Parent>): seq<Site>
    decreases e
  {
    [Site(e, up)] + match e
      case Name(_) => []
      case Const(_) => []
      case Attribute(value, attr) => Sites(value, [ValueOfAttribute(attr)] + up)
      case Call(func, args) => Sites(func, [FuncOf(e)] + up) + ArgSites(e, args, 0, up)
      case Subscript(value, index) => Sites(value, [ValueOfSubscript(index)] + up) + Sites(index, [Elsewhere] + up)
      case In(left, right) => Sites(left, [Elsewhere] + up) + Sites(right, [RightOfIn(left)] + up)
      case Not(operand) => Sites(operand, [OperandOfNot] + up)
      case And(left, right) => Sites(left, [Elsewhere] + up) + Sites(right, [Elsewhere] + up)
      case Or(left, right) => Sites(left, [Elsewhere] + up) + Sites(right, [Elsewhere] + up)
      case IfExp(test, thn, els) =>
        Sites(test, [TestOf] + up) + Sites(thn, [Elsewhere] + up) + Sites(els, [Elsewhere] + up)
      case Op(_, left, right) => Sites(left, [Elsewhere] + up) + Sites(right, [Elsewhere] + up)
  }

  function ArgSites(call: Expr, args: seq<Expr>, i: nat, up: seq<Parent>): seq<Site>
    requires forall a :: a in args ==> a < call
    decreases call, |args|
  {
    if args == [] then []
    else
      assert args[0] in args && forall a :: a in args[1..] ==> a in args;
      Sites(args[0], [ArgOf(call, i)] + up) + ArgSites(call, args[1..], i + 1, up)
  }

  function TargetSites(t: Target): seq<Site> {
    if t.ToItem? then Sites(Subscript(Name(t.id), t.index), [Elsewhere]) else []
  }

  function CodeSites(s: Stmt): seq<Site> {
    match s
    case Skip => []
    case ExprStmt(e) => Sites(e, [Elsewhere])
    case Assign(target, e) => TargetSites(target) + Sites(e, [ValueOfAssign])
    case Delete(id, index) => Sites(Subscript(Name(id), index), [Elsewhere])
    case Seq(first, second) => CodeSites(first) + CodeSites(second)
    case If(test, thn, els) => Sites(test, [TestOf]) + CodeSites(thn) + CodeSites(els)
    case While(test, body) => Sites(test, [TestOf]) + CodeSites(body)
    case For(_, iter, body) => Sites(iter, [Elsewhere]) + CodeSites(body)
    case Try(body, handler) => CodeSites(body) + CodeSites(handler)
    case Return(e) => Sites(e, [Elsewhere])
  }

  // ---- the two readings -----------------------------------------------------------------

  /** What a reading follows: names that hold the dict, and for the query the request and the calls
      that parse it. */
  datatype Following = Following(names: set<string>, query: bool, request: string)

  predicate IsParse(e: Expr) { e.Call? && CalleeName(e.func) == "parse_qs" }

  predicate ParseAbove(up: seq<Parent>) {
    exists i :: 0 <= i < |up| && (up[i].FuncOf? || up[i].ArgOf?) && IsParse(up[i].call)
  }

  /** A use of the dict: a name that holds it, or a parse of the query that is no assignment's value. */
  predicate Holder(f: Following, site: Site) {
    || (site.node.Name? && site.node.id in f.names)
    || (f.query && IsParse(site.node) && !(site.up != [] && site.up[0].ValueOfAssign?))
  }

  /** The raw query outside a parse, or the request handed on whole. */
  predicate Escapes(f: Following, site: Site) {
    f.query &&
    (|| (site.node.Attribute? && site.node.attr == "query" && site.node.value == Name(f.request) && !ParseAbove(site.up))
     || (site.node == Name(f.request) && !(site.up != [] && site.up[0].ValueOfAttribute?)))
  }

  function UseAt(f: Following, site: Site): Use {
    if Holder(f, site) then KeyRead(site.up, f.query)
    else if Escapes(f, site) then Unknown
    else Harmless
  }

  /** `complete`: no use is unknown, and every key read is among `keys`. */
  predicate Covered(f: Following, sites: seq<Site>, keys: set<string>) {
    forall site :: site in sites ==>
      var use := UseAt(f, site); !use.Unknown? && (use.Key? ==> use.name in keys)
  }

  function KeySet(keys: seq<string>): set<string> { set k | k in keys }

  /** `body_fields`. */
  function OfBody(d: Handler): Following { Following({d.body}, false, d.request) }

  /** The names the parsed query is bound to. */
  function Bound(s: Stmt): set<string> {
    match s
    case Assign(ToName(id), e) => if IsParse(e) then {id} else {}
    case Seq(first, second) => Bound(first) + Bound(second)
    case If(_, thn, els) => Bound(thn) + Bound(els)
    case While(_, body) => Bound(body)
    case For(_, _, body) => Bound(body)
    case Try(body, handler) => Bound(body) + Bound(handler)
    case _ => {}
  }

  /** `query`. */
  function OfQuery(d: Handler): Following { Following(Bound(d.code), true, d.request) }

  /** A statement of the code, at any depth. */
  ghost predicate Part(part: Stmt, s: Stmt) {
    || part == s
    || match s
       case Seq(first, second) => Part(part, first) || Part(part, second)
       case If(_, thn, els) => Part(part, thn) || Part(part, els)
       case While(_, body) => Part(part, body)
       case For(_, _, body) => Part(part, body)
       case Try(body, handler) => Part(part, body) || Part(part, handler)
       case _ => false
  }

  /** They are exactly those that some statement assigns a parse to. */
  lemma {:induction false} BoundIff(s: Stmt, id: string)
    ensures id in Bound(s) <==> exists e: Expr :: IsParse(e) && Part(Assign(ToName(id), e), s)
  {
    match s
    case Assign(ToName(name), e) => assert Part(Assign(ToName(name), e), s);
    case Seq(first, second) =>
      BoundIff(first, id);
      BoundIff(second, id);
    case If(_, thn, els) =>
      BoundIff(thn, id);
      BoundIff(els, id);
    case While(_, body) => BoundIff(body, id);
    case For(_, _, body) => BoundIff(body, id);
    case Try(body, handler) =>
      BoundIff(body, id);
      BoundIff(handler, id);
    case _ =>
  }
}
