/** A typing judgement for converted code. It says, for every definition and every closure at every
    depth, that a body is closed, that the closure's capture list and the body's unpacking agree,
    that slots travel as cells, and that a closure names code defined before it. */
module Typing {
  import opened Collections
  import opened CpsIr

  /** What a binding holds: a value or a slot's cell. */
  datatype Sort = OfValue | OfCell

  type Sorts = map<CpsId, Sort>

  /** The locals a definition unpacks from its capture record. */
  type Layout = seq<BindNode>

  type Codes = map<CpsId, Layout>

  function Values(ids: set<CpsId>): Sorts {
    map x | x in ids :: OfValue
  }

  function Cells(ids: set<CpsId>): Sorts {
    map x | x in ids :: OfCell
  }

  function LocalSort(b: BindNode): Sort {
    if b.kind == Slot then OfCell else OfValue
  }

  function LocalSorts(locals: Layout): Sorts {
    if locals == [] then map[] else LocalSorts(locals[1..])[locals[0].id := LocalSort(locals[0])]
  }

  function LayoutOf(body: Expr): Layout {
    if body.LetCaps? then body.binds else []
  }

  function LayoutOfCaptures(cs: seq<Capture>): Layout {
    if cs == [] then [] else [cs[0].local] + LayoutOfCaptures(cs[1..])
  }

  predicate ReadOk(v: Val, sc: Sorts) {
    forall x :: x in ValReads(v) ==> x in sc
  }

  /** A cell goes into a local of kind `Slot`, a value into any other. */
  predicate CaptureOk(c: Capture, sc: Sorts) {
    c.val.kind.Ref? && c.val.kind.target in sc && sc[c.val.kind.target] == LocalSort(c.local)
  }

  /** The slots of the program, and whether a write must be certain of its cell. */
  datatype Rules = Rules(sl: Slots, strict: bool)

  /** The slot has but one cell ever, or its cell is bound here. */
  predicate Fillable(x: CpsId, sc: Sorts, rules: Rules) {
    x in rules.sl.outer || (x in sc && sc[x] == OfCell)
  }

  /** A binding under a slot's id fills the slot and leaves a cell to be read. */
  function LetSort(x: CpsId, rules: Rules): Sort {
    if x in rules.sl.all then OfCell else OfValue
  }

  /** `codes` are the definitions made so far, `sc` what the current body has bound itself. Under strict
      rules every slot that is written must be fillable; under the others any slot passes. */
  predicate Typed(e: Expr, codes: Codes, sc: Sorts, rules: Rules)
    decreases e, 0
  {
    match e
    case LetVal(_, name, val, cont) =>
      && (rules.strict && name.id in rules.sl.all ==> Fillable(name.id, sc, rules))
      && ReadOk(val, sc) && TypedCont(cont, codes, sc[name.id := LetSort(name.id, rules)], rules)
    case LetFn(_, name, params, _, body, cont) =>
      && TypedFn(params, body, codes, rules)
      && cont.Inline? && cont.args == []
      && Typed(cont.body, codes[name.id := LayoutOf(body)], sc, rules)
    case App(_, func, args) =>
      && (forall x :: x in CallableReads(func) ==> x in sc)
      && TypedArgs(args, codes, sc, rules, func == CallBuiltIn(Pub), 0)
    case If(_, cond, thn, els) =>
      ReadOk(cond, sc) && Typed(thn, codes, sc, rules) && Typed(els, codes, sc, rules)
    case LetRec(_, slots, body) => Typed(body, codes, sc + Cells(BindIds(slots)), rules)
    case Set(_, name, val, cont) =>
      && (rules.strict ==> Fillable(name.id, sc, rules))
      && ReadOk(val, sc) && TypedCont(cont, codes, sc, rules)
    case Closure(_, funcref, captures, cont) =>
      && funcref.kind.Ref? && funcref.kind.target in codes
      && LayoutOfCaptures(captures) == codes[funcref.kind.target]
      && (forall c :: c in captures ==> CaptureOk(c, sc))
      && TypedCont(cont, codes, sc, rules)
    case LetCaps(_, _, _, _) => false
  }

  /** A definition takes its capture record first. It sees its own parameters and, if it captures
      anything, the locals it unpacks before all else; nothing reads the record again. */
  predicate TypedFn(params: seq<Param>, body: Expr, codes: Codes, rules: Rules)
    decreases body, 1
  {
    && params != [] && params[0].Name? && params[0].bind.kind == Caps
    && var own := Values(ParamIds(params[1..]));
       match body
       case LetCaps(_, caps, binds, cont) =>
         && caps.kind == Ref(params[0].bind.id) && binds != []
         && cont.Inline? && cont.args == []
         && Typed(cont.body, codes, own + LocalSorts(binds), rules)
       case _ => Typed(body, codes, own, rules)
  }

  predicate TypedCont(c: Cont, codes: Codes, sc: Sorts, rules: Rules)
    decreases c
  {
    match c
    case ContTo(k) => k in sc
    case Inline(args, body) => Typed(body, codes, sc + Values(BindIds(args)), rules)
  }

  /** The value a `Pub` exports names a global, so it need not be bound here. */
  predicate TypedArgs(args: List<Arg>, codes: Codes, sc: Sorts, rules: Rules, isPub: bool, index: nat)
    decreases args
  {
    match args
    case Nil => true
    case Cons(a, rest) =>
      && ((isPub && index == 1 && a.ArgVal?) || TypedArg(a, codes, sc, rules))
      && TypedArgs(rest, codes, sc, rules, isPub, index + 1)
  }

  predicate TypedArg(a: Arg, codes: Codes, sc: Sorts, rules: Rules)
    decreases a
  {
    match a
    case ArgVal(v) => ReadOk(v, sc)
    case ArgSpread(v) => ReadOk(v, sc)
    case ArgCont(c) => TypedCont(c, codes, sc, rules)
    case ArgExpr(e) => Typed(e, codes, sc, rules)
  }
}
