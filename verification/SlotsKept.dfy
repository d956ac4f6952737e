/** Conversion and hoisting keep the declarations: no slot is dropped and none is added. */
module SlotsKept {
  import opened Collections
  import opened CpsIr
  import opened FreeVars
  import opened Convert
  import opened Definitions
  import opened Hoist

  // ---- Conversion -----------------------------------------------------------------------------------

  lemma {:induction false} RenameKeepsSlots(e: Expr, ren: Renaming)
    ensures SlotIds(Rename(e, ren)) == SlotIds(e)
    decreases e
  {
    match e
    case LetVal(_, _, _, cont) => RenameContKeepsSlots(cont, ren);
    case LetFn(_, _, _, _, _, cont) => RenameContKeepsSlots(cont, ren);
    case App(_, func, args) => RenameArgsKeepsSlots(args, ren, func == CallBuiltIn(Pub), 0);
    case If(_, _, thn, els) =>
      RenameKeepsSlots(thn, ren);
      RenameKeepsSlots(els, ren);
    case LetRec(_, _, body) => RenameKeepsSlots(body, ren);
    case Set(_, _, _, cont) => RenameContKeepsSlots(cont, ren);
    case Closure(_, _, _, cont) => RenameContKeepsSlots(cont, ren);
    case LetCaps(_, _, _, cont) => RenameContKeepsSlots(cont, ren);
  }

  lemma {:induction false} RenameContKeepsSlots(c: Cont, ren: Renaming)
    ensures SlotIdsCont(RenameCont(c, ren)) == SlotIdsCont(c)
    decreases c
  {
    if c.Inline? {
      RenameKeepsSlots(c.body, ren);
    }
  }

  lemma {:induction false} RenameArgsKeepsSlots(args: List<Arg>, ren: Renaming, isPub: bool, index: nat)
    ensures SlotIdsArgs(RenameArgs(args, ren, isPub, index)) == SlotIdsArgs(args)
    decreases args
  {
    match args
    case Nil =>
    case Cons(a, rest) =>
      RenameArgsKeepsSlots(rest, ren, isPub, index + 1);
      match a
      case ArgCont(c) => RenameContKeepsSlots(c, ren);
      case ArgExpr(e) => RenameKeepsSlots(e, ren);
      case _ =>
  }

  lemma ForwardDeclaresNothing(k: CpsId, ctx: CpsId, name: CpsId, next: nat)
    ensures SlotIds(ForwardCall(k, ctx, name, next)) == {}
  {
    var args := ForwardCall(k, ctx, name, next).args;
    assert SlotIdsArgs(args.tail) == SlotIdsArgs(Nil) == {};
  }

  lemma LiftedKeepsSlots(snap: Snapshot, id: CpsId, name: BindNode, params: seq<Param>, fnKind: FnKind, body: Expr,
                         cont: Cont, stack: CtxStack, frees: seq<CpsId>, next: nat)
    ensures SlotIds(LiftFn(snap, id, name, params, fnKind, body, cont, stack, frees, next).0) == SlotIds(body) + SlotIdsCont(cont)
  {
    hide Rename, Locals, CapturesOf, ForwardCall;
    var def := LiftedDef(snap, params, body, frees, next);
    RenameKeepsSlots(body, RenamingTo(frees, next));
    assert SlotIds(def.body) == SlotIds(body);
    var k := ClosureCont(name, cont, stack, LiftedId(frees, next) + 2).0;
    if cont.ContTo? && stack != [] {
      ForwardDeclaresNothing(cont.target, stack[|stack| - 1], name.id, LiftedId(frees, next) + 2);
    }
    assert SlotIdsCont(k) == SlotIdsCont(cont);
    var r := LiftFn(snap, id, name, params, fnKind, body, cont, stack, frees, next).0;
    assert SlotIds(r.cont.body) == SlotIdsCont(k) && SlotIdsCont(r.cont) == SlotIds(r.cont.body);
  }

  lemma {:induction false} ConvertKeepsSlots(snap: Snapshot, e: Expr, stack: CtxStack, next: nat)
    ensures SlotIds(ConvertExpr(snap, e, stack, next).0) == SlotIds(e)
    decreases e
  {
    match e
    case LetVal(_, _, _, cont) => ConvertContKeepsSlots(snap, cont, stack, next);
    case LetFn(id, name, params, fnKind, body, cont) =>
      var b := ConvertExpr(snap, body, Enter(params, stack), next);
      var c := ConvertCont(snap, cont, stack, b.1);
      ConvertKeepsSlots(snap, body, Enter(params, stack), next);
      ConvertContKeepsSlots(snap, cont, stack, b.1);
      LiftedKeepsSlots(snap, id, name, params, fnKind, b.0, c.0, stack, Collect(b.0, ParamIds(params), []), c.1);
    case App(_, _, args) => ConvertArgsKeepsSlots(snap, args, stack, next);
    case If(_, _, thn, els) =>
      ConvertKeepsSlots(snap, thn, stack, next);
      ConvertKeepsSlots(snap, els, stack, ConvertExpr(snap, thn, stack, next).1);
    case LetRec(_, _, body) => ConvertKeepsSlots(snap, body, stack, next);
    case Set(_, _, _, cont) => ConvertContKeepsSlots(snap, cont, stack, next);
    case Closure(_, _, _, cont) => ConvertContKeepsSlots(snap, cont, stack, next);
    case LetCaps(_, _, _, cont) => ConvertContKeepsSlots(snap, cont, stack, next);
  }

  lemma {:induction false} ConvertContKeepsSlots(snap: Snapshot, c: Cont, stack: CtxStack, next: nat)
    ensures SlotIdsCont(ConvertCont(snap, c, stack, next).0) == SlotIdsCont(c)
    decreases c
  {
    if c.Inline? {
      ConvertKeepsSlots(snap, c.body, stack, next);
    }
  }

  lemma {:induction false} ConvertArgsKeepsSlots(snap: Snapshot, args: List<Arg>, stack: CtxStack, next: nat)
    ensures SlotIdsArgs(ConvertArgs(snap, args, stack, next).0) == SlotIdsArgs(args)
    decreases args
  {
    match args
    case Nil =>
    case Cons(a, rest) =>
      ConvertArgsKeepsSlots(snap, rest, stack, ConvertArg(snap, a, stack, next).1);
      match a
      case ArgCont(c) => ConvertContKeepsSlots(snap, c, stack, next);
      case ArgExpr(e) => ConvertKeepsSlots(snap, e, stack, next);
      case _ =>
  }

  // ---- Hoisting -------------------------------------------------------------------------------------

  function SlotsOfAll(hs: seq<Definition>): set<CpsId> {
    if hs == [] then {} else SlotIds(hs[0].body) + SlotsOfAll(hs[1..])
  }

  lemma {:induction false} SlotsOfBoth(a: seq<Definition>, b: seq<Definition>)
    ensures SlotsOfAll(Hoisted(a + b)) == SlotsOfAll(Hoisted(a)) + SlotsOfAll(Hoisted(b))
    decreases a
  {
    if a == [] {
      assert a + b == b;
    } else {
      SlotsOfBoth(a[1..], b);
      assert (a + b)[1..] == a[1..] + b;
      assert Hoisted(a + b)[1..] == Hoisted(a[1..] + b) && Hoisted(a)[1..] == Hoisted(a[1..]);
    }
  }

  lemma {:induction false} WalkKeepsSlots(e: Expr)
    ensures SlotIds(Walked(e)) + SlotsOfAll(Hoisted(DefsOf(e))) == SlotIds(e)
    decreases e
  {
    match e
    case LetVal(_, _, _, cont) => WalkContKeepsSlots(cont);
    case LetFn(id, name, params, fnKind, body, cont) =>
      var self := Definition(id, name, params, fnKind, body);
      WalkKeepsSlots(body);
      WalkContKeepsSlots(cont);
      SlotsOfBoth(DefsOf(body) + [self], DefsOfCont(cont));
      SlotsOfBoth(DefsOf(body), [self]);
      assert Hoisted([self])[1..] == [];
      assert SlotsOfAll(Hoisted([self])) == SlotIds(Walked(body));
      assert SlotIds(Walked(e)) == SlotIdsCont(WalkedCont(cont));
    case App(_, _, args) => WalkArgsKeepsSlots(args);
    case If(_, _, thn, els) =>
      WalkKeepsSlots(thn);
      WalkKeepsSlots(els);
      SlotsOfBoth(DefsOf(thn), DefsOf(els));
    case LetRec(_, _, body) => WalkKeepsSlots(body);
    case Set(_, _, _, cont) => WalkContKeepsSlots(cont);
    case Closure(_, _, _, cont) => WalkContKeepsSlots(cont);
    case LetCaps(_, _, _, cont) => WalkContKeepsSlots(cont);
  }

  lemma {:induction false} WalkContKeepsSlots(c: Cont)
    ensures SlotIdsCont(WalkedCont(c)) + SlotsOfAll(Hoisted(DefsOfCont(c))) == SlotIdsCont(c)
    decreases c
  {
    if c.Inline? {
      WalkKeepsSlots(c.body);
    }
  }

  lemma {:induction false} WalkArgsKeepsSlots(args: List<Arg>)
    ensures SlotIdsArgs(WalkedArgs(args)) + SlotsOfAll(Hoisted(DefsOfArgs(args))) == SlotIdsArgs(args)
    decreases args
  {
    match args
    case Nil =>
    case Cons(a, rest) =>
      WalkArgsKeepsSlots(rest);
      SlotsOfBoth(DefsOfArg(a), DefsOfArgs(rest));
      match a
      case ArgCont(c) => WalkContKeepsSlots(c);
      case ArgExpr(e) => WalkKeepsSlots(e);
      case _ =>
  }

  lemma {:induction false} ChainKeepsSlots(hs: seq<Definition>, root: Expr)
    ensures SlotIds(Chain(hs, root)) == SlotsOfAll(hs) + SlotIds(root)
    decreases hs
  {
    if hs != [] {
      ChainKeepsSlots(hs[1..], root);
      assert SlotIdsCont(Inline([], Chain(hs[1..], root))) == SlotIds(Chain(hs[1..], root));
    }
  }

  /** The converted and hoisted program declares the slots of its source, each by the code that declared it. */
  lemma ConvertAndHoistKeepSlots(root: Expr, next: nat)
    ensures SlotIds(HoistProgram(ConvertProgram(root, next).0)) == SlotIds(root)
  {
    var c := ConvertProgram(root, next).0;
    ConvertKeepsSlots(SnapshotOf(root), root, [], next);
    WalkKeepsSlots(c);
    ChainKeepsSlots(Hoisted(DefsOf(c)), Walked(c));
  }
}
