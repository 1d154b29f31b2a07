/** What a handler's text reads, said from the top of each expression down: which shapes read a key, which show
    none, and what is left over. The reading of caravan/admin/api_spec.py goes the other way, from each use up to
    what stands above it; the two agree on every handler. */
module HandlerUses {
  import opened HandlerLanguage
  import opened HandlerSites

  /** The keys a piece of code reads, and whether every use in it reads one or shows none. */
  datatype Found = Found(keys: set<string>, all: bool) {
    function Plus(other: Found): Found { Found(keys + other.keys, all && other.all) }
  }

  const NOTHING := Found({}, true)

  const UNREAD := Found({}, false)

  /** A key is read when it is a text written out, and not an empty one. */
  function Literal(k: Expr): Found {
    match k
    case Const(Str(s)) => if s == "" then UNREAD else Found({s}, true)
    case _ => UNREAD
  }

  /** The dict: a name that holds it, or, of a query, a call that parses it. */
  predicate IsDict(f: Following, e: Expr) {
    match e
    case Name(id) => id in f.names
    case Call(func, _) => f.query && CalleeName(func) == "parse_qs"
    case _ => false
  }

  /** An expression in a place where the dict may stand: what a dict there reads, and what it holds itself. */
  function Placed(f: Following, e: Expr, read: Found, parsing: bool): Found
    decreases e, 3
  {
    if IsDict(f, e) then read.Plus(Inside(f, e, parsing)) else Loose(f, e, parsing)
  }

  /** An expression in any other place: neither the dict nor, of a query, the whole request may stand there. */
  function Loose(f: Following, e: Expr, parsing: bool): Found
    decreases e, 2
  {
    if IsDict(f, e) || (f.query && e == Name(f.request)) then UNREAD.Plus(Inside(f, e, parsing)) else Inside(f, e, parsing)
  }

  /** `dict.get(k, ..)`, `dict[k]`, `k in dict` and, of a query, `_flag(dict, k, ..)` read a key;
      `isinstance(dict, ..)`, `not dict` and `.. if dict else ..` show none. Of a query the raw one may stand
      inside a parse alone. */
  function Inside(f: Following, e: Expr, parsing: bool): Found
    decreases e, 1
  {
    match e
    case Name(_) => NOTHING
    case Const(_) => NOTHING
    case Attribute(value, attr) =>
      (if f.query && e == Attribute(Name(f.request), "query") && !parsing then UNREAD else NOTHING)
      .Plus(if IsDict(f, value) then UNREAD else NOTHING).Plus(Inside(f, value, parsing))
    case Call(func, args) =>
      if args == [] then Called(f, e, parsing)
      else
        assert args[0] in args;
        Called(f, e, parsing).Plus(Placed(f, args[0], First(f, e), Within(e, parsing))).Plus(AllLoose(f, args[1..], Within(e, parsing)))
    case Subscript(value, index) => Placed(f, value, Literal(index), parsing).Plus(Loose(f, index, parsing))
    case In(left, right) => Loose(f, left, parsing).Plus(Placed(f, right, Literal(left), parsing))
    case Not(operand) => Placed(f, operand, NOTHING, parsing)
    case And(left, right) => Loose(f, left, parsing).Plus(Loose(f, right, parsing))
    case Or(left, right) => Loose(f, left, parsing).Plus(Loose(f, right, parsing))
    case IfExp(test, thn, els) => Placed(f, test, NOTHING, parsing).Plus(Loose(f, thn, parsing)).Plus(Loose(f, els, parsing))
    case Op(_, left, right) => Loose(f, left, parsing).Plus(Loose(f, right, parsing))
  }

  /** Inside this call the raw query is inside a parse. */
  predicate Within(e: Expr, parsing: bool)
    requires e.Call?
  {
    parsing || CalleeName(e.func) == "parse_qs"
  }

  /** What is called: `get` on the dict reads the first argument. */
  function Called(f: Following, e: Expr, parsing: bool): Found
    requires e.Call?
    decreases e, 0
  {
    if e.args != [] && e.func.Attribute? && e.func.attr == "get" && IsDict(f, e.func.value)
    then Literal(e.args[0]).Plus(Inside(f, e.func.value, Within(e, parsing)))
    else Loose(f, e.func, Within(e, parsing))
  }

  /** What a dict as the first argument reads. */
  function First(f: Following, e: Expr): Found
    requires e.Call?
  {
    if CalleeName(e.func) == "isinstance" then NOTHING
    else if f.query && CalleeName(e.func) == "_flag" && |e.args| > 1 then Literal(e.args[1])
    else UNREAD
  }

  function AllLoose(f: Following, es: seq<Expr>, parsing: bool): Found
    decreases es, 3
  {
    if es == [] then NOTHING else Loose(f, es[0], parsing).Plus(AllLoose(f, es[1..], parsing))
  }

  function OfItem(f: Following, id: string, index: Expr): Found { Loose(f, Subscript(Name(id), index), false) }

  /** A whole handler: a test shows no key, and what a parse is assigned to is followed by its name. */
  function OfCode(f: Following, s: Stmt): Found {
    match s
    case Skip => NOTHING
    case ExprStmt(e) => Loose(f, e, false)
    case Assign(target, e) =>
      (if target.ToItem? then OfItem(f, target.id, target.index) else NOTHING)
      .Plus(if e.Call? && IsDict(f, e) then Inside(f, e, false) else Loose(f, e, false))
    case Delete(id, index) => OfItem(f, id, index)
    case Seq(first, second) => OfCode(f, first).Plus(OfCode(f, second))
    case If(test, thn, els) => Placed(f, test, NOTHING, false).Plus(OfCode(f, thn)).Plus(OfCode(f, els))
    case While(test, body) => Placed(f, test, NOTHING, false).Plus(OfCode(f, body))
    case For(_, iter, body) => Loose(f, iter, false).Plus(OfCode(f, body))
    case Try(body, handler) => OfCode(f, body).Plus(OfCode(f, handler))
    case Return(e) => Loose(f, e, false)
  }

  lemma {:induction false} Associates(a: Found, b: Found, c: Found)
    ensures a.Plus(b).Plus(c) == a.Plus(b.Plus(c)) && NOTHING.Plus(a) == a == a.Plus(NOTHING)
  {
  }

  lemma {:induction false} KeyAlone(f: Following, k: string, more: seq<Expr>, parsing: bool)
    requires k != "" && AllLoose(f, more, parsing) == NOTHING
    ensures Literal(Const(Str(k))) == Found({k}, true) && Loose(f, Const(Str(k)), parsing) == NOTHING
    ensures AllLoose(f, [Const(Str(k))] + more, parsing) == NOTHING
  {
    assert ([Const(Str(k))] + more)[1..] == more;
  }

  lemma {:induction false} NameAlone(f: Following, d: string, read: Found, parsing: bool)
    requires d in f.names
    ensures Placed(f, Name(d), read, parsing) == read && Loose(f, Name(d), parsing) == UNREAD
  {
    assert Inside(f, Name(d), parsing) == NOTHING;
    Associates(read, NOTHING, NOTHING);
    Associates(UNREAD, NOTHING, NOTHING);
  }

  /** The shapes one by one, of a dict held by a name: the key each reads, whatever else a call is given, and the
      ones that show none; the dict by itself is a use left over. */
  lemma {:induction false} CallsRead(f: Following, d: string, k: string, more: seq<Expr>)
    requires d in f.names && d != f.request && k != "" && AllLoose(f, more, false) == NOTHING
    requires "isinstance" !in f.names && "_flag" !in f.names && f.request != "isinstance" && f.request != "_flag"
    ensures var dict, key := Name(d), Const(Str(k));
      && Inside(f, Call(Attribute(dict, "get"), [key] + more), false) == Found({k}, true)
      && Inside(f, Call(Name("_flag"), [dict, key] + more), false) == (if f.query then Found({k}, true) else UNREAD)
      && Inside(f, Call(Name("isinstance"), [dict] + more), false) == NOTHING
  {
    var dict, key := Name(d), Const(Str(k));
    KeyAlone(f, k, more, false);
    var get, flag, test := [key] + more, [dict, key] + more, [dict] + more;
    assert get[0] == key && get[1..] == more;
    assert flag[0] == dict && flag[1] == key && flag[1..] == [key] + more;
    assert test[0] == dict && test[1..] == more;
    assert Placed(f, key, UNREAD, false) == NOTHING;
    Associates(NOTHING, NOTHING, NOTHING);
    Associates(Found({k}, true), NOTHING, NOTHING);
    Associates(UNREAD, NOTHING, NOTHING);
    NameAlone(f, d, NOTHING, false);
    NameAlone(f, d, UNREAD, false);
    NameAlone(f, d, Found({k}, true), false);
    assert Called(f, Call(Name("_flag"), flag), false) == NOTHING;
    assert Called(f, Call(Name("isinstance"), test), false) == NOTHING;
    hide AllLoose, Literal;
    assert Inside(f, Call(Attribute(dict, "get"), get), false) == Found({k}, true);
    assert Inside(f, Call(Name("_flag"), flag), false) == if f.query then Found({k}, true) else UNREAD;
    assert Inside(f, Call(Name("isinstance"), test), false) == NOTHING;
  }

  lemma {:induction false} PlacesRead(f: Following, d: string, k: string)
    requires d in f.names && k != ""
    ensures var dict, key := Name(d), Const(Str(k));
      && Inside(f, Subscript(dict, key), false) == Found({k}, true)
      && Inside(f, In(key, dict), false) == Found({k}, true)
      && Inside(f, Not(dict), false) == NOTHING
      && Inside(f, IfExp(dict, key, key), false) == NOTHING
      && Loose(f, dict, false) == UNREAD
  {
    var dict, key := Name(d), Const(Str(k));
    assert Loose(f, key, false) == NOTHING;
    Associates(NOTHING, NOTHING, NOTHING);
    Associates(Found({k}, true), NOTHING, NOTHING);
    NameAlone(f, d, NOTHING, false);
    NameAlone(f, d, Literal(key), false);
  }

  // ---- the two agree ------------------------------------------------------------------------

  function OfUse(use: Use): Found {
    match use
    case Key(k) => Found({k}, true)
    case Harmless => NOTHING
    case Unknown => UNREAD
  }

  /** What the reading makes of some sites. */
  ghost function OfSites(f: Following, sites: seq<Site>): Found {
    Found(set s | s in sites && UseAt(f, s).Key? :: UseAt(f, s).name, forall s :: s in sites ==> !UseAt(f, s).Unknown?)
  }

  lemma {:induction false} OfMore(f: Following, a: seq<Site>, b: seq<Site>)
    ensures OfSites(f, a + b) == OfSites(f, a).Plus(OfSites(f, b))
  {
    hide UseAt;
    var whole, both := OfSites(f, a + b), OfSites(f, a).Plus(OfSites(f, b));
    assert forall s :: s in a + b <==> s in a || s in b;
    assert whole.keys == both.keys;
    assert whole.all == both.all;
  }

  lemma {:induction false} OfOne(f: Following, s: Site)
    ensures OfSites(f, [s]) == OfUse(UseAt(f, s)) && OfSites(f, []) == NOTHING
  {
    hide UseAt;
    assert forall t :: t in [s] <==> t == s;
  }

  lemma {:induction false} Above(p: Parent, up: seq<Parent>)
    ensures ParseAbove([p] + up) <==> ((p.FuncOf? || p.ArgOf?) && IsParse(p.call)) || ParseAbove(up)
  {
    var all := [p] + up;
    if ParseAbove(up) {
      var i :| 0 <= i < |up| && (up[i].FuncOf? || up[i].ArgOf?) && IsParse(up[i].call);
      assert all[i + 1] == up[i];
    }
    if (p.FuncOf? || p.ArgOf?) && IsParse(p.call) { assert all[0] == p; }
    if ParseAbove(all) {
      var i :| 0 <= i < |all| && (all[i].FuncOf? || all[i].ArgOf?) && IsParse(all[i].call);
      if i > 0 { assert up[i - 1] == all[i]; }
    }
  }

  /** The function of a call on the dict, `dict.get`: what it reads stands in the call above it. */
  predicate Gets(f: Following, e: Expr, up: seq<Parent>) {
    && e.Attribute? && e.attr == "get" && IsDict(f, e.value)
    && up != [] && up[0].FuncOf? && up[0].call.Call? && up[0].call.args != []
  }

  lemma {:induction false} Twice(a: Found, b: Found)
    ensures a.Plus(a) == a && a.Plus(b) == b.Plus(a)
  {
  }

  /** Where a dict would read this. */
  lemma {:induction false} PlacedIs(f: Following, e: Expr, up: seq<Parent>, read: Found)
    requires up != [] && !up[0].ValueOfAssign? && !up[0].ValueOfAttribute? && read == OfUse(KeyRead(up, f.query))
    ensures OfUse(UseAt(f, Site(e, up))).Plus(Inside(f, e, ParseAbove(up))) == Placed(f, e, read, ParseAbove(up))
  {
    hide KeyRead;
    if !IsDict(f, e) { LooseIs(f, e, up); }
  }

  lemma {:induction false} LooseIs(f: Following, e: Expr, up: seq<Parent>)
    requires up != [] && !up[0].ValueOfAssign? && !up[0].ValueOfAttribute?
    requires IsDict(f, e) ==> KeyRead(up, f.query).Unknown?
    ensures OfUse(UseAt(f, Site(e, up))).Plus(Inside(f, e, ParseAbove(up))) == Loose(f, e, ParseAbove(up))
  {
    hide KeyRead;
    Associates(Inside(f, e, ParseAbove(up)), NOTHING, NOTHING);
    if e == Attribute(Name(f.request), "query") && Escapes(f, Site(e, up)) {
      var rest := (if IsDict(f, e.value) then UNREAD else NOTHING).Plus(Inside(f, e.value, ParseAbove(up)));
      Associates(UNREAD, if IsDict(f, e.value) then UNREAD else NOTHING, Inside(f, e.value, ParseAbove(up)));
      Associates(UNREAD, UNREAD, rest);
      Twice(UNREAD, rest);
    }
  }

  lemma {:induction false} PlacedFound(f: Following, e: Expr, up: seq<Parent>, read: Found)
    requires up != [] && !up[0].ValueOfAssign? && !up[0].ValueOfAttribute? && !up[0].FuncOf? && read == OfUse(KeyRead(up, f.query))
    ensures OfSites(f, Sites(e, up)) == Placed(f, e, read, ParseAbove(up))
    decreases e, 3
  {
    hide KeyRead, UseAt, Sites, OfSites, ParseAbove, Placed, Inside;
    SitesFound(f, e, up);
    PlacedIs(f, e, up, read);
  }

  lemma {:induction false} LooseFound(f: Following, e: Expr, up: seq<Parent>)
    requires up != [] && !up[0].ValueOfAssign? && !up[0].ValueOfAttribute? && KeyRead(up, f.query).Unknown? && !Gets(f, e, up)
    ensures OfSites(f, Sites(e, up)) == Loose(f, e, ParseAbove(up))
    decreases e, 3
  {
    hide KeyRead, UseAt, Sites, OfSites, ParseAbove, Loose, Inside;
    SitesFound(f, e, up);
    LooseIs(f, e, up);
  }

  /** The uses of one expression: the expression itself, by where it stands, and those inside it. */
  lemma {:induction false} SitesFound(f: Following, e: Expr, up: seq<Parent>)
    requires !Gets(f, e, up)
    ensures OfSites(f, Sites(e, up)) == OfUse(UseAt(f, Site(e, up))).Plus(Inside(f, e, ParseAbove(up)))
    decreases e, 2
  {
    hide UseAt, OfSites, ParseAbove, Placed, Loose, KeyRead;
    var parsing, own := ParseAbove(up), OfUse(UseAt(f, Site(e, up)));
    OfOne(f, Site(e, up));
    OfMore(f, [Site(e, up)], Sites(e, up)[1..]);
    assert Sites(e, up) == [Site(e, up)] + Sites(e, up)[1..];
    assert OfSites(f, Sites(e, up)[1..]) == Inside(f, e, parsing) || e.Attribute? by {
      match e
      case Name(_) =>
      case Const(_) =>
      case Attribute(_, _) =>
      case Call(func, args) => CallFound(f, e, up);
      case Subscript(value, index) => SubscriptFound(f, e, up);
      case In(left, right) => InFound(f, e, up);
      case Not(operand) => NotFound(f, e, up);
      case And(left, right) => BothFound(f, e, left, right, up);
      case Or(left, right) => BothFound(f, e, left, right, up);
      case IfExp(test, thn, els) => IfFound(f, e, up);
      case Op(_, left, right) => BothFound(f, e, left, right, up);
    }
    if e.Attribute? { AttributeFound(f, e, up); }
  }

  lemma {:induction false} BothFound(f: Following, e: Expr, left: Expr, right: Expr, up: seq<Parent>)
    requires left < e && right < e
    ensures OfSites(f, Sites(left, [Elsewhere] + up) + Sites(right, [Elsewhere] + up))
         == Loose(f, left, ParseAbove(up)).Plus(Loose(f, right, ParseAbove(up)))
    decreases e, 1
  {
    hide UseAt, OfSites, ParseAbove, Loose, Sites;
    OfMore(f, Sites(left, [Elsewhere] + up), Sites(right, [Elsewhere] + up));
    Above(Elsewhere, up);
    LooseFound(f, left, [Elsewhere] + up);
    LooseFound(f, right, [Elsewhere] + up);
  }

  lemma {:induction false} AttributeFound(f: Following, e: Expr, up: seq<Parent>)
    requires e.Attribute? && !Gets(f, e, up)
    ensures OfSites(f, Sites(e, up)) == OfUse(UseAt(f, Site(e, up))).Plus(Inside(f, e, ParseAbove(up)))
    decreases e, 1
  {
    hide OfSites, ParseAbove, Sites;
    var parsing, inner := ParseAbove(up), [ValueOfAttribute(e.attr)] + up;
    OfOne(f, Site(e, up));
    assert Sites(e, up) == [Site(e, up)] + Sites(e.value, inner) by { SitesOfAttribute(e, up); }
    OfMore(f, [Site(e, up)], Sites(e.value, inner));
    Above(ValueOfAttribute(e.attr), up);
    SitesFound(f, e.value, inner);
    ValueIs(f, e, up);
    SpokenIs(f, e, up);
    var own, spoken, unread := OfUse(UseAt(f, Site(e, up))),
      (if f.query && e == Attribute(Name(f.request), "query") && !parsing then UNREAD else NOTHING),
      (if IsDict(f, e.value) then UNREAD else NOTHING);
    Associates(spoken, unread, Inside(f, e.value, parsing));
    Associates(own, spoken, unread.Plus(Inside(f, e.value, parsing)));
  }

  lemma {:induction false} SitesOfAttribute(e: Expr, up: seq<Parent>)
    requires e.Attribute?
    ensures Sites(e, up) == [Site(e, up)] + Sites(e.value, [ValueOfAttribute(e.attr)] + up)
  {
  }

  /** Below an attribute stands nothing that reads, `get` in a call apart. */
  lemma {:induction false} ValueIs(f: Following, e: Expr, up: seq<Parent>)
    requires e.Attribute? && !Gets(f, e, up)
    ensures var inner := [ValueOfAttribute(e.attr)] + up;
      OfUse(UseAt(f, Site(e.value, inner))).Plus(Inside(f, e.value, ParseAbove(up)))
      == (if IsDict(f, e.value) then UNREAD else NOTHING).Plus(Inside(f, e.value, ParseAbove(up)))
  {
    var inner := [ValueOfAttribute(e.attr)] + up;
    assert inner[1..] == up && (up != [] ==> inner[1] == up[0]);
    if e.value == Attribute(Name(f.request), "query") && !IsDict(f, e.value) {
      Above(ValueOfAttribute(e.attr), up);
      hide ParseAbove;
      if f.query && !ParseAbove(up) {
        var rest := (if IsDict(f, e.value.value) then UNREAD else NOTHING).Plus(Inside(f, e.value.value, ParseAbove(up)));
        Associates(UNREAD, if IsDict(f, e.value.value) then UNREAD else NOTHING, Inside(f, e.value.value, ParseAbove(up)));
        Associates(UNREAD, UNREAD, rest);
      }
    }
  }

  lemma {:induction false} SpokenIs(f: Following, e: Expr, up: seq<Parent>)
    requires e.Attribute?
    ensures OfUse(UseAt(f, Site(e, up)))
         == if f.query && e == Attribute(Name(f.request), "query") && !ParseAbove(up) then UNREAD else NOTHING
  {
    hide ParseAbove;
  }

  lemma {:induction false} SubscriptFound(f: Following, e: Expr, up: seq<Parent>)
    requires e.Subscript?
    ensures OfSites(f, Sites(e, up)[1..]) == Inside(f, e, ParseAbove(up))
    decreases e, 1
  {
    hide UseAt, OfSites, ParseAbove, Loose, Placed;
    var above, beside := [ValueOfSubscript(e.index)] + up, [Elsewhere] + up;
    assert Sites(e, up)[1..] == Sites(e.value, above) + Sites(e.index, beside);
    OfMore(f, Sites(e.value, above), Sites(e.index, beside));
    Above(ValueOfSubscript(e.index), up);
    Above(Elsewhere, up);
    PlacedFound(f, e.value, above, Literal(e.index));
    LooseFound(f, e.index, beside);
  }

  lemma {:induction false} InFound(f: Following, e: Expr, up: seq<Parent>)
    requires e.In?
    ensures OfSites(f, Sites(e, up)[1..]) == Inside(f, e, ParseAbove(up))
    decreases e, 1
  {
    hide UseAt, OfSites, ParseAbove, Loose, Placed;
    var above, beside := [RightOfIn(e.left)] + up, [Elsewhere] + up;
    assert Sites(e, up)[1..] == Sites(e.left, beside) + Sites(e.right, above);
    OfMore(f, Sites(e.left, beside), Sites(e.right, above));
    Above(RightOfIn(e.left), up);
    Above(Elsewhere, up);
    LooseFound(f, e.left, beside);
    PlacedFound(f, e.right, above, Literal(e.left));
  }

  lemma {:induction false} NotFound(f: Following, e: Expr, up: seq<Parent>)
    requires e.Not?
    ensures OfSites(f, Sites(e, up)[1..]) == Inside(f, e, ParseAbove(up))
    decreases e, 1
  {
    hide UseAt, OfSites, ParseAbove, Placed;
    assert Sites(e, up)[1..] == Sites(e.operand, [OperandOfNot] + up);
    Above(OperandOfNot, up);
    PlacedFound(f, e.operand, [OperandOfNot] + up, NOTHING);
  }

  lemma {:induction false} IfFound(f: Following, e: Expr, up: seq<Parent>)
    requires e.IfExp?
    ensures OfSites(f, Sites(e, up)[1..]) == Inside(f, e, ParseAbove(up))
    decreases e, 1
  {
    hide UseAt, OfSites, ParseAbove, Loose, Placed;
    var test, thn, els := Sites(e.test, [TestOf] + up), Sites(e.thn, [Elsewhere] + up), Sites(e.els, [Elsewhere] + up);
    assert Sites(e, up)[1..] == test + thn + els;
    OfMore(f, test + thn, els);
    OfMore(f, test, thn);
    Above(TestOf, up);
    Above(Elsewhere, up);
    PlacedFound(f, e.test, [TestOf] + up, NOTHING);
    LooseFound(f, e.thn, [Elsewhere] + up);
    LooseFound(f, e.els, [Elsewhere] + up);
  }

  lemma {:induction false} FuncFound(f: Following, e: Expr, up: seq<Parent>)
    requires e.Call?
    ensures OfSites(f, Sites(e.func, [FuncOf(e)] + up)) == Called(f, e, ParseAbove(up))
    decreases e, 0
  {
    var above := [FuncOf(e)] + up;
    Above(FuncOf(e), up);
    if Gets(f, e.func, above) {
      hide OfSites, ParseAbove, Sites, Inside;
      var get, inner := e.func, [ValueOfAttribute("get")] + above;
      SitesOfAttribute(get, above);
      OfOne(f, Site(get, above));
      OfMore(f, [Site(get, above)], Sites(get.value, inner));
      Above(ValueOfAttribute("get"), above);
      SitesFound(f, get.value, inner);
      assert UseAt(f, Site(get, above)) == Harmless;
      assert inner[1] == above[0] == FuncOf(e);
      assert OfUse(UseAt(f, Site(get.value, inner))) == Literal(e.args[0]);
    } else {
      hide UseAt, OfSites, ParseAbove, Sites, Inside;
      LooseFound(f, e.func, above);
    }
  }

  lemma {:induction false} CallFound(f: Following, e: Expr, up: seq<Parent>)
    requires e.Call?
    ensures OfSites(f, Sites(e, up)[1..]) == Inside(f, e, ParseAbove(up))
    decreases e, 1
  {
    hide UseAt, OfSites, ParseAbove, Loose, Placed, AllLoose;
    var func, args := Sites(e.func, [FuncOf(e)] + up), ArgSites(e, e.args, 0, up);
    assert Sites(e, up)[1..] == func + args;
    OfMore(f, func, args);
    FuncFound(f, e, up);
    if e.args == [] {
      OfOne(f, Site(e, up));
      Associates(Called(f, e, ParseAbove(up)), NOTHING, NOTHING);
    } else {
      var first := e.args[0];
      assert first in e.args && forall a :: a in e.args[1..] ==> a in e.args;
      var above := [ArgOf(e, 0)] + up;
      assert args == Sites(first, above) + ArgSites(e, e.args[1..], 1, up);
      OfMore(f, Sites(first, above), ArgSites(e, e.args[1..], 1, up));
      Above(ArgOf(e, 0), up);
      FirstIs(f, e, up);
      PlacedFound(f, first, above, First(f, e));
      RestFound(f, e, e.args[1..], 1, up);
      Associates(Called(f, e, ParseAbove(up)), Placed(f, first, First(f, e), Within(e, ParseAbove(up))),
        AllLoose(f, e.args[1..], Within(e, ParseAbove(up))));
    }
  }

  lemma {:induction false} FirstIs(f: Following, e: Expr, up: seq<Parent>)
    requires e.Call?
    ensures First(f, e) == OfUse(KeyRead([ArgOf(e, 0)] + up, f.query))
  {
  }

  lemma {:induction false} RestFound(f: Following, e: Expr, args: seq<Expr>, i: nat, up: seq<Parent>)
    requires e.Call? && i > 0 && forall a :: a in args ==> a < e
    ensures OfSites(f, ArgSites(e, args, i, up)) == AllLoose(f, args, Within(e, ParseAbove(up)))
    decreases e, 0, |args|
  {
    hide UseAt, OfSites, ParseAbove, Loose, Sites;
    if args == [] {
      OfOne(f, Site(e, up));
    } else {
      assert args[0] in args && forall a :: a in args[1..] ==> a in args;
      var above := [ArgOf(e, i)] + up;
      OfMore(f, Sites(args[0], above), ArgSites(e, args[1..], i + 1, up));
      Above(ArgOf(e, i), up);
      LooseFound(f, args[0], above);
      RestFound(f, e, args[1..], i + 1, up);
    }
  }

  lemma {:induction false} ItemFound(f: Following, id: string, index: Expr)
    ensures OfSites(f, Sites(Subscript(Name(id), index), [Elsewhere])) == OfItem(f, id, index)
  {
    hide UseAt, OfSites, Sites, Loose;
    LooseFound(f, Subscript(Name(id), index), [Elsewhere]);
  }

  lemma {:induction false} TestFound(f: Following, test: Expr)
    ensures OfSites(f, Sites(test, [TestOf])) == Placed(f, test, NOTHING, false)
  {
    hide UseAt, OfSites, Sites, Placed;
    PlacedFound(f, test, [TestOf], NOTHING);
  }

  lemma {:induction false} AssignedFound(f: Following, e: Expr)
    ensures OfSites(f, Sites(e, [ValueOfAssign])) == if e.Call? && IsDict(f, e) then Inside(f, e, false) else Loose(f, e, false)
  {
    hide OfSites, Sites, Inside, ParseAbove;
    SitesFound(f, e, [ValueOfAssign]);
    assert !ParseAbove([ValueOfAssign]) by { NoParse(); }
    Associates(Inside(f, e, false), NOTHING, NOTHING);
    if !(e.Call? && IsDict(f, e)) { UsedLoosely(f, e); }
  }

  lemma {:induction false} NoParse()
    ensures !ParseAbove([ValueOfAssign]) && !ParseAbove([TestOf]) && !ParseAbove([Elsewhere])
  {
  }

  lemma {:induction false} UsedLoosely(f: Following, e: Expr)
    requires !(e.Call? && IsDict(f, e))
    ensures OfUse(UseAt(f, Site(e, [ValueOfAssign]))).Plus(Inside(f, e, false)) == Loose(f, e, false)
  {
    NoParse();
    Associates(Inside(f, e, false), NOTHING, NOTHING);
    if f.query && e == Attribute(Name(f.request), "query") {
      hide ParseAbove;
      var rest := (if IsDict(f, e.value) then UNREAD else NOTHING).Plus(Inside(f, e.value, false));
      Associates(UNREAD, if IsDict(f, e.value) then UNREAD else NOTHING, Inside(f, e.value, false));
      Associates(UNREAD, UNREAD, rest);
    }
  }

  /** All a handler's uses together are what its text says. */
  lemma {:induction false} CodeFound(f: Following, s: Stmt)
    ensures OfSites(f, CodeSites(s)) == OfCode(f, s)
  {
    hide UseAt, OfSites, Sites, Loose, Placed, OfItem;
    match s
    case Skip => OfOne(f, Site(Name(""), []));
    case ExprStmt(e) => LooseFound(f, e, [Elsewhere]);
    case Assign(target, e) =>
      OfMore(f, TargetSites(target), Sites(e, [ValueOfAssign]));
      if target.ToItem? { ItemFound(f, target.id, target.index); } else { OfOne(f, Site(e, [])); }
      AssignedFound(f, e);
    case Delete(id, index) => ItemFound(f, id, index);
    case Seq(first, second) =>
      OfMore(f, CodeSites(first), CodeSites(second));
      CodeFound(f, first);
      CodeFound(f, second);
    case If(test, thn, els) =>
      OfMore(f, Sites(test, [TestOf]) + CodeSites(thn), CodeSites(els));
      OfMore(f, Sites(test, [TestOf]), CodeSites(thn));
      TestFound(f, test);
      CodeFound(f, thn);
      CodeFound(f, els);
    case While(test, body) =>
      OfMore(f, Sites(test, [TestOf]), CodeSites(body));
      TestFound(f, test);
      CodeFound(f, body);
    case For(_, iter, body) =>
      OfMore(f, Sites(iter, [Elsewhere]), CodeSites(body));
      LooseFound(f, iter, [Elsewhere]);
      CodeFound(f, body);
    case Try(body, handler) =>
      OfMore(f, CodeSites(body), CodeSites(handler));
      CodeFound(f, body);
      CodeFound(f, handler);
    case Return(e) => LooseFound(f, e, [Elsewhere]);
  }
}
