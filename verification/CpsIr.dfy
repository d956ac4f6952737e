/** The continuation-passing IR that the lifting passes rewrite.

    Every binding site owns a `CpsId`; every use names its binding by that id. Source origins are
    not modelled, so the origin table survives only as the counter of ids handed out so far. The
    call arguments are a `List` because the tree recurses through them. */
module CpsIr {
  import opened Collections

  type CpsId = int

  datatype ContKind = Ret | Succ | Fail

  datatype Bind = SynthName | Synth | ContParam(kind: ContKind) | Ctx | Caps | Slot

  datatype BindNode = BindNode(id: CpsId, kind: Bind)

  datatype Param = Name(bind: BindNode) | Spread(bind: BindNode)

  datatype Literal = BoolLit(value: bool) | DataLit(code: nat)

  /** The operations the passes treat specially; every other one is an `Operator`. */
  datatype BuiltIn = Pub | Panic(reason: nat) | FnClosure | FinkModule | Operator(tag: nat)

  datatype ValKind =
    | Ref(target: CpsId)
    | Unresolved(origin: CpsId)
    | Lit(lit: Literal)
    | ContRef(target: CpsId)
    | BuiltInVal(op: BuiltIn)

  datatype Val = Val(id: CpsId, kind: ValKind)

  datatype Callable = CallVal(val: Val) | CallBuiltIn(op: BuiltIn)

  datatype FnKind = CpsFunction | CpsClosure

  datatype Capture = Capture(local: BindNode, val: Val)

  datatype Expr =
    | LetVal(id: CpsId, name: BindNode, val: Val, cont: Cont)
    | LetFn(id: CpsId, name: BindNode, params: seq<Param>, fnKind: FnKind, fnBody: Expr, cont: Cont)
    | App(id: CpsId, func: Callable, args: List<Arg>)
    | If(id: CpsId, cond: Val, thn: Expr, els: Expr)
    | LetRec(id: CpsId, slots: seq<BindNode>, body: Expr)
    | Set(id: CpsId, name: BindNode, val: Val, cont: Cont)
    | Closure(id: CpsId, funcref: Val, captures: seq<Capture>, cont: Cont)
    | LetCaps(id: CpsId, caps: Val, binds: seq<BindNode>, cont: Cont)

  datatype Cont =
    | ContTo(target: CpsId)
    | Inline(args: seq<BindNode>, body: Expr)

  datatype Arg =
    | ArgVal(val: Val)
    | ArgSpread(val: Val)
    | ArgCont(cont: Cont)
    | ArgExpr(expr: Expr)

  datatype FnDef = FnDef(params: seq<Param>, body: Expr)

  function BindIds(binds: seq<BindNode>): set<CpsId> {
    set b | b in binds :: b.id
  }

  function ParamIds(params: seq<Param>): set<CpsId> {
    set p | p in params :: p.bind.id
  }

  /** The binding a value reads, if any. */
  function ValReads(v: Val): (r: seq<CpsId>)
    ensures |r| <= 1
  {
    match v.kind
    case Ref(x) => [x]
    case ContRef(x) => [x]
    case _ => []
  }

  function CallableReads(f: Callable): seq<CpsId> {
    if f.CallVal? then ValReads(f.val) else []
  }

  function Names(binds: seq<BindNode>): (ps: seq<Param>)
    ensures |ps| == |binds|
    ensures forall i :: 0 <= i < |ps| ==> ps[i] == Name(binds[i])
    ensures ParamIds(ps) == BindIds(binds)
  {
    var ps := seq(|binds|, i requires 0 <= i < |binds| => Name(binds[i]));
    assert forall b :: b in binds ==> Name(b) in ps by {
      forall b | b in binds ensures Name(b) in ps {
        var i :| 0 <= i < |binds| && binds[i] == b;
        assert ps[i] == Name(b);
      }
    }
    ps
  }

  /** The ids of the binding sites of an expression, with multiplicity. Capture names and `Set`
      targets name a binding that is made elsewhere. */
  function Binders(e: Expr): multiset<CpsId>
    decreases e
  {
    match e
    case LetVal(_, name, _, cont) => multiset{name.id} + ContBinders(cont)
    case LetFn(_, name, params, _, body, cont) =>
      multiset{name.id} + ParamBinders(params) + Binders(body) + ContBinders(cont)
    case App(_, _, args) => ArgsBinders(args)
    case If(_, _, thn, els) => Binders(thn) + Binders(els)
    case LetRec(_, slots, body) => NodeBinders(slots) + Binders(body)
    case Set(_, _, _, cont) => ContBinders(cont)
    case Closure(_, _, _, cont) => ContBinders(cont)
    case LetCaps(_, _, binds, cont) => NodeBinders(binds) + ContBinders(cont)
  }

  function NodeBinders(binds: seq<BindNode>): multiset<CpsId> {
    if binds == [] then multiset{} else multiset{binds[0].id} + NodeBinders(binds[1..])
  }

  function ParamBinders(params: seq<Param>): multiset<CpsId> {
    if params == [] then multiset{} else multiset{params[0].bind.id} + ParamBinders(params[1..])
  }

  function ContBinders(c: Cont): multiset<CpsId>
    decreases c
  {
    match c
    case ContTo(_) => multiset{}
    case Inline(args, body) => NodeBinders(args) + Binders(body)
  }

  function ArgsBinders(args: List<Arg>): multiset<CpsId>
    decreases args
  {
    match args
    case Nil => multiset{}
    case Cons(a, rest) => ArgBinders(a) + ArgsBinders(rest)
  }

  function ArgBinders(a: Arg): multiset<CpsId>
    decreases a
  {
    match a
    case ArgCont(c) => ContBinders(c)
    case ArgExpr(e) => Binders(e)
    case _ => multiset{}
  }

  /** No id is bound twice, slots aside: a slot is declared once and may be filled by bindings of its id. */
  ghost predicate BindersUnique(m: multiset<CpsId>, slots: set<CpsId>, bound: nat) {
    forall x :: (m[x] <= 1 || x in slots) && (x in m ==> x < bound)
  }

  // ---- Scoping -------------------------------------------------------------------------------

  /** What is fixed for a whole program: its `LetRec` slots and the number of ids handed out. */
  datatype Program = Program(slots: set<CpsId>, base: nat)

  /** The slots of a program, and those that are declared outside every function. */
  datatype Slots = Slots(all: set<CpsId>, outer: set<CpsId>)

  /** A binding site that is new to `scope` and binds a value, not a cell. */
  predicate NewValue(b: BindNode, scope: set<CpsId>, pr: Program) {
    b.id !in scope && b.id < pr.base && b.id !in pr.slots && b.kind != Slot
  }

  /** A binding under the id of a slot in scope: it fills the slot. */
  predicate Refills(b: BindNode, scope: set<CpsId>, pr: Program) {
    b.id in scope && b.id in pr.slots && b.kind != Slot
  }

  predicate NewValues(binds: seq<BindNode>, scope: set<CpsId>, pr: Program) {
    forall b :: b in binds ==> NewValue(b, scope, pr)
  }

  predicate NewParams(params: seq<Param>, scope: set<CpsId>, pr: Program) {
    forall p :: p in params ==> NewValue(p.bind, scope, pr)
  }

  predicate NewSlots(binds: seq<BindNode>, scope: set<CpsId>, pr: Program) {
    forall b :: b in binds ==> b.id !in scope && b.id < pr.base && b.id in pr.slots && b.kind != Slot
  }

  predicate ValInScope(v: Val, scope: set<CpsId>) {
    forall x :: x in ValReads(v) ==> x in scope
  }

  /** Well-scoped source IR: a use names a binding in scope, a binding never reuses an id in scope
      unless it fills a slot, and closure-converted nodes do not occur yet. The continuation of a
      `LetFn` may carry an argument, but only the function's own name is in scope there. */
  predicate WellScoped(e: Expr, scope: set<CpsId>, pr: Program)
    decreases e
  {
    match e
    case LetVal(_, name, val, cont) =>
      && ValInScope(val, scope) && (NewValue(name, scope, pr) || Refills(name, scope, pr))
      && WellScopedCont(cont, scope + {name.id}, pr)
    case LetFn(_, name, params, _, body, cont) =>
      && NewValue(name, scope, pr)
      && NewParams(params, scope, pr)
      && WellScoped(body, scope + ParamIds(params), pr)
      && (match cont
          case ContTo(k) => k in scope
          case Inline(args, rest) =>
            && |args| <= 1
            && (forall a :: a in args ==> a.id == name.id || NewValue(a, scope, pr))
            && WellScoped(rest, scope + {name.id}, pr))
    case App(_, func, args) =>
      (forall x :: x in CallableReads(func) ==> x in scope) && WellScopedArgs(args, scope, pr)
    case If(_, cond, thn, els) =>
      ValInScope(cond, scope) && WellScoped(thn, scope, pr) && WellScoped(els, scope, pr)
    case LetRec(_, slots, body) =>
      NewSlots(slots, scope, pr) && WellScoped(body, scope + BindIds(slots), pr)
    case Set(_, name, val, cont) =>
      name.id in scope && name.id in pr.slots && ValInScope(val, scope) && WellScopedCont(cont, scope, pr)
    case Closure(_, _, _, _) => false
    case LetCaps(_, _, _, _) => false
  }

  predicate WellScopedCont(c: Cont, scope: set<CpsId>, pr: Program)
    decreases c
  {
    match c
    case ContTo(k) => k in scope
    case Inline(args, body) => NewValues(args, scope, pr) && WellScoped(body, scope + BindIds(args), pr)
  }

  predicate WellScopedArgs(args: List<Arg>, scope: set<CpsId>, pr: Program)
    decreases args
  {
    match args
    case Nil => true
    case Cons(a, rest) => WellScopedArg(a, scope, pr) && WellScopedArgs(rest, scope, pr)
  }

  predicate WellScopedArg(a: Arg, scope: set<CpsId>, pr: Program)
    decreases a
  {
    match a
    case ArgVal(v) => ValInScope(v, scope)
    case ArgSpread(v) => ValInScope(v, scope)
    case ArgCont(c) => WellScopedCont(c, scope, pr)
    case ArgExpr(e) => WellScoped(e, scope, pr)
  }

  // ---- Calling convention --------------------------------------------------------------------

  predicate CtxFirst(params: seq<Param>) {
    params != [] && params[0].Name? && params[0].bind.kind == Ctx
  }

  /** A call whose inline continuation stays part of the calling function. */
  predicate KeepsInline(f: Callable) {
    f.CallBuiltIn? && (f.op.Pub? || f.op.Panic? || f.op.FnClosure? || f.op.FinkModule?)
  }
}
