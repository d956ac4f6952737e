/** The four lifting passes in the order the compiler runs them, and what they guarantee together. */
module LiftPipeline {
  import opened CpsIr
  import opened Convert
  import opened ConvertInput
  import opened ConvertTyping
  import opened ConvertProof
  import opened ConvertPass
  import opened Typing
  import opened ContLift
  import opened ContLiftScope
  import opened LiftToConvert
  import opened ThreadCtx
  import opened ThreadCtxScope
  import opened SlotUses
  import opened SlotsKept
  import opened Definitions
  import opened Hoist
  import opened HoistStrict
  import opened Uniqueness
  import opened Machine
  import EnvMachine

  function Lifted(root: Expr, next: nat): (Expr, nat) {
    var t := ThreadProgram(root, next);
    LiftExpr(t.0, t.1)
  }

  function Converted(root: Expr, next: nat): (Expr, nat) {
    var l := Lifted(root, next);
    ConvertProgram(l.0, l.1)
  }

  function LiftProgram(root: Expr, next: nat): (Expr, nat) {
    var c := Converted(root, next);
    (HoistProgram(c.0), c.1)
  }

  /** The pipeline as it runs: one pass after the other, sharing the id counter. */
  method RunPasses(root: Expr, next: nat) returns (r: Expr, end: nat)
    requires ReadyToThread(root, next)
    ensures (r, end) == LiftProgram(root, next)
  {
    LiftedReady(root, next);
    var threader := new Threader(next);
    var threaded := threader.ThreadRoot(root);
    var lifter := new Lifter(threader.next);
    var lifted := lifter.Lift(threaded);
    var converter := new Converter(SnapshotOf(lifted), lifter.next);
    var converted := converter.ConvertE(lifted);
    r := HoistAll(converted);
    end := converter.next;
  }

  lemma LiftedReady(root: Expr, next: nat)
    requires ReadyToThread(root, next)
    ensures var l := Lifted(root, next);
            && ConvertAccepts(l.0, l.1) && SlotIds(l.0) == SlotIds(root)
            && (SetsReach(l.0, [], SlotsOf(l.0)) ==> ReadyToConvert(l.0, l.1))
  {
    ThreadedIsReady(root, next);
    var t := ThreadProgram(root, next);
    LiftedIsReady(t.0, t.1);
    ThreadProgramKeepsSlots(root, next);
    LiftKeepsSlots(t.0, t.1);
  }

  /** The condition under which conversion is faithful to the lifted program is one on the module: its functions,
      and the continuations that become functions, reach the slots they fill. */
  lemma LiftedReaches(root: Expr, next: nat)
    requires ReadyToThread(root, next)
    ensures var l := Lifted(root, next).0;
            SlotsOf(l) == SlotsIn(root) && (SetsReach(l, [], SlotsOf(l)) <==> SlotsReached(root))
  {
    hide WellScoped, Forwards, UsesOf, SetsReach, InnerSlots, Forwardable;
    LiftedReady(root, next);
    var all := SlotIds(root);
    LiftedUsesAre(root, next, Slots(all, {}));
    LiftedUsesAre(root, next, SlotsIn(root));
  }

  lemma LiftedUsesAre(root: Expr, next: nat, sl: Slots)
    requires ReadyToThread(root, next) && sl.all == SlotIds(root)
    ensures UsesOf(root, sl) == UsesLifted(Lifted(root, next).0, [], sl)
  {
    hide Forwards, UsesOf, UsesLifted, Forwardable, SetsReach, InlineKept, SlotIds;
    LiftedReady(root, next);
    var l := Lifted(root, next);
    var t := ThreadProgram(root, next);
    ModuleParts(root, false, Program(sl.all, next));
    var m := root.args.head.cont;
    assert m.args[0] in m.args && NewValue(m.args[0], {}, Program(sl.all, next));
    PassesKeepUses(root, next, sl);
    LiftLeavesInline(t.0, t.1);
    LiftedUses(l.0, [], {}, Program(sl.all, l.1), sl);
  }

  lemma ThreadedLiftSame(rt: Runtime, fuel: nat, root: Expr, next: nat, ctx: Value, sh: Shared)
    requires ReadyToThread(root, next)
    ensures EnvMachine.Eval(rt, fuel, Lifted(root, next).0, map[], ctx, sh, [])
            == EnvMachine.Eval(rt, fuel, ThreadProgram(root, next).0, map[], ctx, sh, [])
  {
    hide EnvMachine.Eval, WellScoped, Threaded, Forwards, IdsBelow;
    ThreadedIsReady(root, next);
    var t := ThreadProgram(root, next);
    ScopedBelow(t.0, {}, Program(SlotIds(t.0), t.1));
    LiftPreservesMeaning(rt, fuel, t.0, t.1, ctx, sh);
  }

  lemma ConvertedSame(rt: Runtime, fuel: nat, root: Expr, next: nat, ctx: Value, sh: Shared)
    requires ReadyToThread(root, next) && SlotsReached(root) && rt.slots == SlotIds(root)
    ensures FlatMeaning(rt, fuel, Converted(root, next).0, ctx, sh)
            == EnvMachine.Eval(rt, fuel, Lifted(root, next).0, map[], ctx, sh, [])
  {
    hide EnvMachine.Eval, WellScoped, Forwards, SetsReach, Convertible, Forwardable, ConvertExpr, LiftExpr, DefsOf,
         SlotsReached, SlotsIn, SlotsOf;
    LiftedReady(root, next);
    LiftedReaches(root, next);
    var l := Lifted(root, next);
    var c := ConvertProgram(l.0, l.1).0;
    ConvertedCovered(l.0, l.1);
    ConvertPreservesMeaning(rt, fuel, l.0, l.1, TableFrom(DefsOf(c)), ctx, sh);
  }

  /** On every well-scoped module, the program that comes out is closed, with capture lists and unpacked
      locals in agreement, slots passed as cells and no code named before it is defined; every write is certain
      of its cell too exactly when the module's functions reach the slots they fill. */
  lemma PipelineTyped(root: Expr, next: nat)
    requires ReadyToThread(root, next)
    ensures Typed(LiftProgram(root, next).0, map[], map[], Rules(SlotsIn(root), false))
    ensures Typed(LiftProgram(root, next).0, map[], map[], Rules(SlotsIn(root), true)) <==> SlotsReached(root)
  {
    hide Typed, WellScoped, Forwards, SetsReach, Forwardable, ConvertExpr, LiftExpr, DefsOf, HoistProgram,
         SlotsReached, SlotsIn, SlotsOf;
    LiftedReady(root, next);
    LiftedReaches(root, next);
    var l := Lifted(root, next);
    ConvertedProgramTyped(l.0, l.1);
    ConvertedDefs(SnapshotOf(l.0), l.0, [], l.1);
    var c := ConvertProgram(l.0, l.1).0;
    HoistKeepsTyping(c, Rules(SlotsIn(root), false));
    HoistKeepsStrictness(c, SlotsIn(root));
  }

  /** The main theorem. For every module whose functions reach the slots they fill, and for every runtime,
      context and amount of fuel, the lifted program, run from its own table of functions, ends like the threaded
      source run with environments and shared slot cells: same outcome, same answers, same cells, same exports,
      same operator calls. */
  lemma PipelinePreservesMeaning(rt: Runtime, fuel: nat, root: Expr, next: nat, ctx: Value, sh: Shared)
    requires ReadyToThread(root, next) && SlotsReached(root) && rt.slots == SlotIds(root)
    ensures FlatMeaning(rt, fuel, LiftProgram(root, next).0, ctx, sh)
            == EnvMachine.Eval(rt, fuel, ThreadProgram(root, next).0, map[], ctx, sh, [])
  {
    hide EnvMachine.Eval, FlatMeaning, SlotsReached, ReadyToThread, Typed, HoistProgram;
    ThreadedLiftSame(rt, fuel, root, next, ctx, sh);
    ConvertedSame(rt, fuel, root, next, ctx, sh);
    ConvertedInline(root, next);
    HoistPreservesMeaning(rt, fuel, Converted(root, next).0, ctx, sh);
  }

  /** The ids that code generation finds declared in the final tree are those of the module. */
  lemma PipelineKeepsSlots(root: Expr, next: nat)
    requires ReadyToThread(root, next)
    ensures SlotIds(LiftProgram(root, next).0) == SlotIds(root)
  {
    hide ReadyToThread, HoistProgram, ConvertProgram, LiftExpr, ThreadProgram;
    LiftedReady(root, next);
    var l := Lifted(root, next);
    ConvertAndHoistKeepSlots(l.0, l.1);
  }

  lemma ConvertedInline(root: Expr, next: nat)
    requires ReadyToThread(root, next)
    ensures DefsInline(Converted(root, next).0)
  {
    hide Typed, WellScoped, Forwards, SetsReach, Forwardable, ConvertExpr, LiftExpr;
    LiftedReady(root, next);
    var l := Lifted(root, next);
    ConvertedProgramTyped(l.0, l.1);
    TypedInline(ConvertProgram(l.0, l.1).0, map[], map[], Rules(SlotsOf(l.0), false));
  }

  /** No pass ever makes two bindings of one id, slots aside: those may be filled by bindings of their id. */
  lemma PipelineKeepsBindersUnique(root: Expr, next: nat)
    requires ReadyToThread(root, next) && BindersUnique(Binders(root), SlotIds(root), next)
    ensures BindersUnique(Binders(LiftProgram(root, next).0), SlotIds(root), LiftProgram(root, next).1)
  {
    hide BindersUnique, Binders, ReadyToThread, LiftExpr, ConvertExpr, HoistProgram;
    var t := ThreadProgram(root, next);
    var slots := SlotIds(root);
    ThreadKeepsBindersUnique(root, slots, next);
    LiftKeepsBindersUnique(t.0, slots, t.1);
    LiftedReady(root, next);
    var l := Lifted(root, next);
    ConvertKeepsBindersUnique(l.0, slots, l.1);
    HoistKeepsBindersUnique(Converted(root, next).0, slots, LiftProgram(root, next).1);
  }
}
