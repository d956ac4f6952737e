/** Closure conversion as functions on trees: what the `convert` pass computes. */
module Convert {
  import opened Collections
  import opened CpsIr
  import opened FreeVars

  type Renaming = map<CpsId, CpsId>

  // ---- Renaming of captured references --------------------------------------------------------

  function RenameId(x: CpsId, ren: Renaming): CpsId {
    if x in ren then ren[x] else x
  }

  function RenameVal(v: Val, ren: Renaming): Val {
    match v.kind
    case Ref(x) => Val(v.id, Ref(RenameId(x, ren)))
    case ContRef(x) => Val(v.id, ContRef(RenameId(x, ren)))
    case _ => v
  }

  /** Rewrites the references of one function's own body. Binding sites stay, and so do nested
      function bodies: their references are theirs. */
  function Rename(e: Expr, ren: Renaming): Expr
    decreases e
  {
    match e
    case LetVal(id, name, val, cont) => LetVal(id, name, RenameVal(val, ren), RenameCont(cont, ren))
    case LetFn(id, name, params, fnKind, body, cont) =>
      LetFn(id, name, params, fnKind, body, RenameCont(cont, ren))
    case App(id, func, args) =>
      var func' := if func.CallVal? then CallVal(RenameVal(func.val, ren)) else func;
      App(id, func', RenameArgs(args, ren, func == CallBuiltIn(Pub), 0))
    case If(id, cond, thn, els) => If(id, RenameVal(cond, ren), Rename(thn, ren), Rename(els, ren))
    case LetRec(id, slots, body) => LetRec(id, slots, Rename(body, ren))
    case Set(id, name, val, cont) =>
      Set(id, name.(id := RenameId(name.id, ren)), RenameVal(val, ren), RenameCont(cont, ren))
    case Closure(id, funcref, captures, cont) =>
      Closure(id, RenameVal(funcref, ren), RenameCaptures(captures, ren), RenameCont(cont, ren))
    case LetCaps(id, caps, binds, cont) => LetCaps(id, RenameVal(caps, ren), binds, RenameCont(cont, ren))
  }

  function RenameCaptures(cs: seq<Capture>, ren: Renaming): (r: seq<Capture>)
    ensures |r| == |cs|
    ensures forall i :: 0 <= i < |cs| ==> r[i] == Capture(cs[i].local, RenameVal(cs[i].val, ren))
  {
    if cs == [] then [] else [Capture(cs[0].local, RenameVal(cs[0].val, ren))] + RenameCaptures(cs[1..], ren)
  }

  function RenameCont(c: Cont, ren: Renaming): Cont
    decreases c
  {
    match c
    case ContTo(k) => ContTo(RenameId(k, ren))
    case Inline(args, body) => Inline(args, Rename(body, ren))
  }

  /** `index` is the position of the first argument. The value a `Pub` exports sits at position 1
      and keys a global, so it keeps its id. */
  function RenameArgs(args: List<Arg>, ren: Renaming, isPub: bool, index: nat): List<Arg>
    decreases args
  {
    match args
    case Nil => Nil
    case Cons(a, rest) =>
      var a' := if isPub && index == 1 && a.ArgVal? then a else RenameArg(a, ren);
      Cons(a', RenameArgs(rest, ren, isPub, index + 1))
  }

  function RenameArg(a: Arg, ren: Renaming): Arg
    decreases a
  {
    match a
    case ArgVal(v) => ArgVal(RenameVal(v, ren))
    case ArgSpread(v) => ArgSpread(RenameVal(v, ren))
    case ArgCont(c) => ArgCont(RenameCont(c, ren))
    case ArgExpr(e) => ArgExpr(Rename(e, ren))
  }

  /** Renaming with nothing to rename gives the tree back, which is why the pass may skip it. */
  lemma {:induction false} RenameNothing(e: Expr)
    ensures Rename(e, map[]) == e
    decreases e
  {
    match e
    case LetVal(_, _, _, cont) => RenameNothingCont(cont);
    case LetFn(_, _, _, _, _, cont) => RenameNothingCont(cont);
    case App(_, func, args) => RenameNothingArgs(args, func == CallBuiltIn(Pub), 0);
    case If(_, _, thn, els) =>
      RenameNothing(thn);
      RenameNothing(els);
    case LetRec(_, _, body) => RenameNothing(body);
    case Set(_, _, _, cont) => RenameNothingCont(cont);
    case Closure(_, _, captures, cont) =>
      RenameNothingCont(cont);
      assert RenameCaptures(captures, map[]) == captures;
    case LetCaps(_, _, _, cont) => RenameNothingCont(cont);
  }

  lemma {:induction false} RenameNothingCont(c: Cont)
    ensures RenameCont(c, map[]) == c
    decreases c
  {
    if c.Inline? {
      RenameNothing(c.body);
    }
  }

  lemma {:induction false} RenameNothingArgs(args: List<Arg>, isPub: bool, index: nat)
    ensures RenameArgs(args, map[], isPub, index) == args
    decreases args
  {
    match args
    case Nil =>
    case Cons(a, rest) =>
      RenameNothingArgs(rest, isPub, index + 1);
      match a
      case ArgCont(c) => RenameNothingCont(c);
      case ArgExpr(x) => RenameNothing(x);
      case _ =>
  }

  // ---- Snapshots of the input tree ------------------------------------------------------------

  /** Every `LetRec` slot of the tree. */
  function SlotIds(e: Expr): set<CpsId>
    decreases e
  {
    match e
    case LetVal(_, _, _, cont) => SlotIdsCont(cont)
    case LetFn(_, _, _, _, body, cont) => SlotIds(body) + SlotIdsCont(cont)
    case App(_, _, args) => SlotIdsArgs(args)
    case If(_, _, thn, els) => SlotIds(thn) + SlotIds(els)
    case LetRec(_, slots, body) => BindIds(slots) + SlotIds(body)
    case Set(_, _, _, cont) => SlotIdsCont(cont)
    case Closure(_, _, _, cont) => SlotIdsCont(cont)
    case LetCaps(_, _, _, cont) => SlotIdsCont(cont)
  }

  function SlotIdsCont(c: Cont): set<CpsId>
    decreases c
  {
    if c.Inline? then SlotIds(c.body) else {}
  }

  function SlotIdsArgs(args: List<Arg>): set<CpsId>
    decreases args
  {
    match args
    case Nil => {}
    case Cons(ArgCont(c), rest) => SlotIdsCont(c) + SlotIdsArgs(rest)
    case Cons(ArgExpr(e), rest) => SlotIds(e) + SlotIdsArgs(rest)
    case Cons(_, rest) => SlotIdsArgs(rest)
  }

  /** The slots declared inside some function of the tree. */
  function InnerSlots(e: Expr): set<CpsId>
    decreases e
  {
    match e
    case LetVal(_, _, _, cont) => InnerSlotsCont(cont)
    case LetFn(_, _, _, _, body, cont) => SlotIds(body) + InnerSlotsCont(cont)
    case App(_, _, args) => InnerSlotsArgs(args)
    case If(_, _, thn, els) => InnerSlots(thn) + InnerSlots(els)
    case LetRec(_, _, body) => InnerSlots(body)
    case Set(_, _, _, cont) => InnerSlotsCont(cont)
    case Closure(_, _, _, cont) => InnerSlotsCont(cont)
    case LetCaps(_, _, _, cont) => InnerSlotsCont(cont)
  }

  function InnerSlotsCont(c: Cont): set<CpsId>
    decreases c
  {
    if c.Inline? then InnerSlots(c.body) else {}
  }

  function InnerSlotsArgs(args: List<Arg>): set<CpsId>
    decreases args
  {
    match args
    case Nil => {}
    case Cons(ArgCont(c), rest) => InnerSlotsCont(c) + InnerSlotsArgs(rest)
    case Cons(ArgExpr(e), rest) => InnerSlots(e) + InnerSlotsArgs(rest)
    case Cons(_, rest) => InnerSlotsArgs(rest)
  }

  function SlotsOf(root: Expr): Slots {
    Slots(SlotIds(root), SlotIds(root) - InnerSlots(root))
  }

  /** Every bind node of the tree in visiting order; the last one for an id decides its kind. */
  function BindNodes(e: Expr): seq<BindNode>
    decreases e
  {
    match e
    case LetVal(_, name, _, cont) => [name] + BindNodesCont(cont)
    case LetFn(_, name, params, _, body, cont) =>
      [name] + ParamNodes(params) + BindNodes(body) + BindNodesCont(cont)
    case App(_, _, args) => BindNodesArgs(args)
    case If(_, _, thn, els) => BindNodes(thn) + BindNodes(els)
    case LetRec(_, slots, body) => slots + BindNodes(body)
    case Set(_, name, _, cont) => [name] + BindNodesCont(cont)
    case Closure(_, _, captures, cont) => CaptureNodes(captures) + BindNodesCont(cont)
    case LetCaps(_, _, binds, cont) => binds + BindNodesCont(cont)
  }

  function ParamNodes(params: seq<Param>): seq<BindNode> {
    if params == [] then [] else [params[0].bind] + ParamNodes(params[1..])
  }

  function CaptureNodes(cs: seq<Capture>): seq<BindNode> {
    if cs == [] then [] else [cs[0].local] + CaptureNodes(cs[1..])
  }

  function BindNodesCont(c: Cont): seq<BindNode>
    decreases c
  {
    if c.Inline? then c.args + BindNodes(c.body) else []
  }

  function BindNodesArgs(args: List<Arg>): seq<BindNode>
    decreases args
  {
    match args
    case Nil => []
    case Cons(ArgCont(c), rest) => BindNodesCont(c) + BindNodesArgs(rest)
    case Cons(ArgExpr(e), rest) => BindNodes(e) + BindNodesArgs(rest)
    case Cons(_, rest) => BindNodesArgs(rest)
  }

  function KindTable(nodes: seq<BindNode>): (r: map<CpsId, Bind>)
    ensures forall x :: x in r ==> BindNode(x, r[x]) in nodes
  {
    if nodes == [] then map[]
    else
      var last := nodes[|nodes| - 1];
      KindTable(nodes[..|nodes| - 1])[last.id := last.kind]
  }

  /** What the pass remembers of the tree it was given. */
  datatype Snapshot = Snapshot(kinds: map<CpsId, Bind>, slots: set<CpsId>)

  function SnapshotOf(root: Expr): Snapshot {
    Snapshot(KindTable(BindNodes(root)), SlotIds(root))
  }

  /** The kind a local standing for `outer` gets: a captured slot stays a cell. */
  function OuterKind(snap: Snapshot, outer: CpsId): Bind {
    if outer in snap.slots then Slot
    else if outer in snap.kinds then snap.kinds[outer]
    else SynthName
  }

  // ---- Lifting one function -------------------------------------------------------------------

  /** The fresh locals of a lifted body are consecutive: `first` stands for `frees[0]`, and so on. */
  function Locals(snap: Snapshot, frees: seq<CpsId>, first: nat): (r: seq<BindNode>)
    ensures |r| == |frees|
    ensures forall i :: 0 <= i < |frees| ==> r[i] == BindNode(first + i, OuterKind(snap, frees[i]))
  {
    seq(|frees|, i requires 0 <= i < |frees| => BindNode(first + i, OuterKind(snap, frees[i])))
  }

  function RenamingTo(frees: seq<CpsId>, first: nat): (r: Renaming)
    ensures forall x :: x in r <==> x in frees
    ensures forall x :: x in r ==> first <= r[x] < first + |frees| && frees[r[x] - first] == x
  {
    map x | x in frees :: first + IndexOf(frees, x)
  }

  /** The closure-converted definition of a function: a leading capture record, then its own
      parameters; the body unpacks the record unless it is empty. */
  function LiftedDef(snap: Snapshot, params: seq<Param>, body: Expr, frees: seq<CpsId>, first: nat): FnDef {
    var capsId := first + |frees|;
    var renamed := Rename(body, RenamingTo(frees, first));
    FnDef([Name(BindNode(capsId, Caps))] + params,
          if frees == [] then renamed
          else LetCaps(capsId + 2, Val(capsId + 1, Ref(capsId)), Locals(snap, frees, first),
                       Inline([], renamed)))
  }

  function CapturesOf(snap: Snapshot, frees: seq<CpsId>, first: nat, firstVal: nat): (r: seq<Capture>)
    ensures |r| == |frees|
    ensures forall i :: 0 <= i < |frees| ==>
              r[i] == Capture(BindNode(first + i, OuterKind(snap, frees[i])), Val(firstVal + i, Ref(frees[i])))
  {
    seq(|frees|, i requires 0 <= i < |frees| =>
      Capture(BindNode(first + i, OuterKind(snap, frees[i])), Val(firstVal + i, Ref(frees[i]))))
  }

  /** The call that hands a new closure to a named continuation. */
  function ForwardCall(k: CpsId, ctx: CpsId, name: CpsId, next: nat): Expr {
    App(next + 3, CallVal(Val(next, ContRef(k))),
        Cons(ArgVal(Val(next + 1, Ref(ctx))), Cons(ArgVal(Val(next + 2, Ref(name))), Nil)))
  }

  /** Renaming a forwarding call renames the continuation and the context it names. */
  lemma ForwardRenamed(k: CpsId, c: CpsId, name: BindNode, at: nat, ren: Renaming)
    requires RenameId(name.id, ren) == name.id
    ensures RenameCont(Inline([name], ForwardCall(k, c, name.id, at)), ren)
            == Inline([name], ForwardCall(RenameId(k, ren), RenameId(c, ren), name.id, at))
  {
    var last := Cons(ArgVal(Val(at + 2, Ref(name.id))), Nil);
    assert RenameArgs(last, ren, false, 1) == last;
    var args := ForwardCall(k, c, name.id, at).args;
    assert RenameArgs(args, ren, false, 0) == Cons(ArgVal(Val(at + 1, Ref(RenameId(c, ren)))), last);
  }

  /** What runs once the closure is bound to `name`: the original continuation, whose own argument
      is dropped, or an explicit call of the named one with the enclosing context. Without an
      enclosing context the pass panics; `Forwardable` excludes that case, so what stands for it
      here does not matter. */
  function ClosureCont(name: BindNode, cont: Cont, stack: CtxStack, next: nat): (r: (Cont, nat))
    ensures r.1 >= next
  {
    match cont
    case Inline(_, rest) => (Inline([name], rest), next)
    case ContTo(k) => if stack == [] then (cont, next) else (Inline([name], ForwardCall(k, stack[|stack| - 1], name.id, next)), next + 4)
  }

  /** The id of the lifted function: after its locals, its record and the capture reads. */
  function LiftedId(frees: seq<CpsId>, next: nat): nat {
    next + |frees| + 3 + |frees|
  }

  /** A lifted function and the closure built from it, given the already converted `body` and
      `cont` and the variables `frees` that the body captures. Ids from `next` on are handed out
      in the order the pass asks for them. */
  function LiftFn(snap: Snapshot, id: CpsId, name: BindNode, params: seq<Param>, fnKind: FnKind, body: Expr,
                  cont: Cont, stack: CtxStack, frees: seq<CpsId>, next: nat): (r: (Expr, nat))
    ensures r.1 > LiftedId(frees, next) > next
    ensures r.0.LetFn? && r.0.name.id == LiftedId(frees, next) && r.0.cont.Inline? && r.0.cont.args == []
    ensures r.0.cont.body.Closure? && r.0.cont.body.funcref.kind == Ref(LiftedId(frees, next))
    ensures r.0.cont.body.captures == CapturesOf(snap, frees, next, next + |frees| + 3)
    ensures r.0.cont.body.cont == ClosureCont(name, cont, stack, LiftedId(frees, next) + 2).0
  {
    var def := LiftedDef(snap, params, body, frees, next);
    var liftedId := LiftedId(frees, next);
    var result := ClosureCont(name, cont, stack, liftedId + 2);
    var closure := Closure(result.1, Val(liftedId + 1, Ref(liftedId)),
                           CapturesOf(snap, frees, next, next + |frees| + 3), result.0);
    (LetFn(id, BindNode(liftedId, name.kind), def.params, fnKind, def.body, Inline([], closure)),
     result.1 + 1)
  }

  // ---- The pass -------------------------------------------------------------------------------

  /** A function whose continuation is a name must sit inside a function with a context parameter;
      the pass stops with a panic otherwise. */
  predicate Forwardable(e: Expr, inFn: bool)
    decreases e
  {
    match e
    case LetVal(_, _, _, cont) => ForwardableCont(cont, inFn)
    case LetFn(_, _, params, _, body, cont) =>
      Forwardable(body, inFn || CtxParam(params).Some?) && (cont.ContTo? ==> inFn) && ForwardableCont(cont, inFn)
    case App(_, _, args) => ForwardableArgs(args, inFn)
    case If(_, _, thn, els) => Forwardable(thn, inFn) && Forwardable(els, inFn)
    case LetRec(_, _, body) => Forwardable(body, inFn)
    case Set(_, _, _, cont) => ForwardableCont(cont, inFn)
    case Closure(_, _, _, cont) => ForwardableCont(cont, inFn)
    case LetCaps(_, _, _, cont) => ForwardableCont(cont, inFn)
  }

  predicate ForwardableCont(c: Cont, inFn: bool)
    decreases c
  {
    c.Inline? ==> Forwardable(c.body, inFn)
  }

  predicate ForwardableArgs(args: List<Arg>, inFn: bool)
    decreases args
  {
    match args
    case Nil => true
    case Cons(a, rest) => ForwardableArg(a, inFn) && ForwardableArgs(rest, inFn)
  }

  predicate ForwardableArg(a: Arg, inFn: bool)
    decreases a
  {
    match a
    case ArgCont(c) => ForwardableCont(c, inFn)
    case ArgExpr(e) => Forwardable(e, inFn)
    case _ => true
  }

  /** Converts `e`, handing out ids from `next` on; returns the new tree and the next free id. */
  function ConvertExpr(snap: Snapshot, e: Expr, stack: CtxStack, next: nat): (r: (Expr, nat))
    ensures r.1 >= next
    decreases e
  {
    match e
    case LetVal(id, name, val, cont) =>
      var c := ConvertCont(snap, cont, stack, next);
      (LetVal(id, name, val, c.0), c.1)
    case LetFn(id, name, params, fnKind, body, cont) =>
      var b := ConvertExpr(snap, body, Enter(params, stack), next);
      var c := ConvertCont(snap, cont, stack, b.1);
      LiftFn(snap, id, name, params, fnKind, b.0, c.0, stack, Collect(b.0, ParamIds(params), []), c.1)
    case App(id, func, args) =>
      var a := ConvertArgs(snap, args, stack, next);
      (App(id, func, a.0), a.1)
    case If(id, cond, thn, els) =>
      var t := ConvertExpr(snap, thn, stack, next);
      var f := ConvertExpr(snap, els, stack, t.1);
      (If(id, cond, t.0, f.0), f.1)
    case LetRec(id, slots, body) =>
      var b := ConvertExpr(snap, body, stack, next);
      (LetRec(id, slots, b.0), b.1)
    case Set(id, name, val, cont) =>
      var c := ConvertCont(snap, cont, stack, next);
      (Set(id, name, val, c.0), c.1)
    case Closure(id, funcref, captures, cont) =>
      var c := ConvertCont(snap, cont, stack, next);
      (Closure(id, funcref, captures, c.0), c.1)
    case LetCaps(id, caps, binds, cont) =>
      var c := ConvertCont(snap, cont, stack, next);
      (LetCaps(id, caps, binds, c.0), c.1)
  }

  function ConvertCont(snap: Snapshot, c: Cont, stack: CtxStack, next: nat): (r: (Cont, nat))
    ensures r.1 >= next
    ensures c.ContTo? ==> r.0 == c
    decreases c
  {
    match c
    case ContTo(_) => (c, next)
    case Inline(args, body) =>
      var b := ConvertExpr(snap, body, stack, next);
      (Inline(args, b.0), b.1)
  }

  function ConvertArgs(snap: Snapshot, args: List<Arg>, stack: CtxStack, next: nat): (r: (List<Arg>, nat))
    ensures r.1 >= next
    decreases args
  {
    match args
    case Nil => (Nil, next)
    case Cons(a, rest) =>
      var h := ConvertArg(snap, a, stack, next);
      var t := ConvertArgs(snap, rest, stack, h.1);
      (Cons(h.0, t.0), t.1)
  }

  function ConvertArg(snap: Snapshot, a: Arg, stack: CtxStack, next: nat): (r: (Arg, nat))
    ensures r.1 >= next
    decreases a
  {
    match a
    case ArgCont(c) =>
      var c' := ConvertCont(snap, c, stack, next);
      (ArgCont(c'.0), c'.1)
    case ArgExpr(e) =>
      var e' := ConvertExpr(snap, e, stack, next);
      (ArgExpr(e'.0), e'.1)
    case _ => (a, next)
  }

  function ConvertProgram(root: Expr, next: nat): (Expr, nat)
  {
    ConvertExpr(SnapshotOf(root), root, [], next)
  }
}
