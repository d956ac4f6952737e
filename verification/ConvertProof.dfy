/** Closure conversion preserves meaning: for every runtime and every amount of fuel, the flat
    machine on the converted program and the environment machine on the source end alike. */
module ConvertProof {
  import opened Collections
  import opened CpsIr
  import opened FreeVars
  import opened Convert
  import opened Captures
  import opened ConvertInput
  import opened Machine
  import EnvMachine
  import FlatMachine

  // ---- What is fixed, where we are, and what the machines hold --------------------------------

  /** `outer` are the slots declared outside every function. */
  datatype Setting = Setting(rt: Runtime, table: FlatMachine.FnTable, snap: Snapshot, pr: Program, outer: set<CpsId>)

  ghost predicate ValidSetting(st: Setting) {
    && st.snap.slots == st.pr.slots == st.rt.slots && st.outer <= st.pr.slots
    && forall x :: x in st.snap.kinds ==> st.snap.kinds[x] != Slot
  }

  function SlotsAt(st: Setting): Slots {
    Slots(st.pr.slots, st.outer)
  }

  /** A place in the source program: the enclosing contexts, the ids in scope, the id counter of
      the conversion there and the renaming of the function that contains it. */
  datatype Place = Place(stack: CtxStack, scope: set<CpsId>, next: nat, ren: Renaming)

  ghost predicate ValidPlace(st: Setting, p: Place) {
    && StackIn(p.stack, p.scope) && Below(p.scope, st.pr.base) && st.pr.base <= p.next
    && forall x :: x in p.ren ==> x in p.scope && p.ren[x] >= st.pr.base
  }

  /** A slot that is filled by a binding of its id is an outer one, or the function has not captured it. */
  ghost predicate FillsDirect(st: Setting, p: Place, names: set<CpsId>) {
    forall x :: x in names && x in st.pr.slots ==> x in st.outer || x !in p.ren
  }

  ghost predicate At(st: Setting, p: Place, e: Expr) {
    && ValidPlace(st, p) && FillsDirect(st, p, LetNames(e))
    && WellScoped(e, p.scope, st.pr) && Convertible(e, p.stack, SlotsAt(st)) && Forwardable(e, p.stack != [])
    && Covers(st.table, ConvertExpr(st.snap, e, p.stack, p.next).0)
  }

  ghost predicate AtCont(st: Setting, p: Place, c: Cont) {
    && ValidPlace(st, p) && FillsDirect(st, p, LetNamesCont(c))
    && WellScopedCont(c, p.scope, st.pr) && ConvertibleCont(c, p.stack, SlotsAt(st)) && ForwardableCont(c, p.stack != [])
    && CoversCont(st.table, ConvertCont(st.snap, c, p.stack, p.next).0)
  }

  function Need(st: Setting, e: Expr, stack: CtxStack): set<CpsId> {
    Elements(Occ(e, stack)) + SetTargets(e) + LetNames(e) * st.pr.slots
  }

  function NeedCont(st: Setting, c: Cont, stack: CtxStack): set<CpsId> {
    Elements(OccCont(c, stack)) + SetTargetsCont(c) + LetNamesCont(c) * st.pr.slots
  }

  /** Both machines hold the same under the ids a place may use. */
  ghost predicate Agree(need: set<CpsId>, ren: Renaming, source: Env, flat: Env, slots: set<CpsId>) {
    forall x :: x in need ==> AgreeAt(x, ren, source, flat, slots)
  }

  ghost predicate AgreeAt(x: CpsId, ren: Renaming, source: Env, flat: Env, slots: set<CpsId>) {
    && x in source && RenameId(x, ren) in flat && flat[RenameId(x, ren)] == source[x]
    && !source[x].Record? && (source[x].Cell? <==> x in slots)
  }

  ghost predicate HoldsCtx(stack: CtxStack, source: Env, ctx: Value) {
    stack != [] ==> stack[|stack| - 1] in source && source[stack[|stack| - 1]] == Holds(ctx)
  }

  /** A function value of both machines, and where in the source it was made. */
  datatype Origin = Origin(stack: CtxStack, scope: set<CpsId>, next: nat, first: nat)

  datatype Key = Key

  ghost predicate Turned(k: Key) {
    k.Key?
  }

  /** `Lifts`, behind a key: the prover looks inside only where a lemma turns it. */
  ghost predicate SameFn(st: Setting, f: EnvMachine.EnvFn, g: FlatMachine.FlatFn, o: Origin) {
    forall k: Key :: Turned(k) ==> Lifts(st, f, g, o)
  }

  lemma OpenFn(st: Setting, f: EnvMachine.EnvFn, g: FlatMachine.FlatFn, o: Origin)
    requires SameFn(st, f, g, o)
    ensures Lifts(st, f, g, o)
  {
    assert Turned(Key);
  }

  /** The flat function is the conversion of the source one, with its free variables captured. */
  ghost predicate Lifts(st: Setting, f: EnvMachine.EnvFn, g: FlatMachine.FlatFn, o: Origin) {
    var inner := Enter(f.params, o.stack);
    var frees := FreeVarsOf(f.params, f.body, o.stack);
    && OwnsCtx(f.params) && NewParams(f.params, o.scope, st.pr) && ReachesSlots(f.params, f.body, o.stack, SlotsAt(st))
    && StackIn(o.stack, o.scope) && Below(o.scope, st.pr.base) && o.first >= o.next
    && At(st, Place(inner, o.scope + ParamIds(f.params), o.next, map[]), f.body)
    && g.code in st.table
    && st.table[g.code] == LiftedDef(st.snap, f.params, ConvertExpr(st.snap, f.body, inner, o.next).0, frees, o.first)
    && Captured(g.captures, frees, f.env, st.pr.slots)
  }

  /** The record holds what the environment holds under the captured ids, cells for slots only. */
  ghost predicate Captured(captures: seq<Entry>, frees: seq<CpsId>, env: Env, slots: set<CpsId>) {
    && |captures| == |frees|
    && forall i :: 0 <= i < |frees| ==>
         && frees[i] in env && env[frees[i]] == captures[i]
         && !captures[i].Record? && (captures[i].Cell? <==> frees[i] in slots)
  }

  ghost predicate SameFns(st: Setting, fs: seq<EnvMachine.EnvFn>, gs: seq<FlatMachine.FlatFn>, os: seq<Origin>) {
    |fs| == |gs| == |os| && forall i :: 0 <= i < |fs| ==> SameFn(st, fs[i], gs[i], os[i])
  }

  // ---- Reading ----------------------------------------------------------------------------------

  lemma SameRead(v: Val, ren: Renaming, source: Env, flat: Env, slots: set<CpsId>, sh: Shared)
    requires Agree(Elements(ValReads(v)), ren, source, flat, slots)
    ensures ReadVal(v, source, sh) == ReadVal(RenameVal(v, ren), flat, sh)
  {
    if v.kind.Ref? || v.kind.ContRef? {
      assert AgreeAt(v.kind.target, ren, source, flat, slots);
    }
  }

  lemma SameReadId(x: CpsId, occ: seq<CpsId>, ren: Renaming, source: Env, flat: Env, slots: set<CpsId>, sh: Shared)
    requires x in occ && Agree(Elements(occ), ren, source, flat, slots)
    ensures x in source && ReadId(x, source, sh) == ReadId(RenameId(x, ren), flat, sh)
  {
    assert x in Elements(occ);
  }

  lemma AgreeLess(less: set<CpsId>, need: set<CpsId>, ren: Renaming, source: Env, flat: Env, slots: set<CpsId>)
    requires less <= need && Agree(need, ren, source, flat, slots)
    ensures Agree(less, ren, source, flat, slots)
  {
  }

  /** The globals of slots outside `declared` are what they were. */
  ghost predicate SameGlobals(sh: Shared, sh': Shared, declared: set<CpsId>) {
    forall x :: x !in declared ==> (x in sh'.globals <==> x in sh.globals) && (x in sh.globals ==> sh'.globals[x] == sh.globals[x])
  }

  /** New bindings of the body keep both machines in agreement. */
  lemma AgreeMore(st: Setting, p: Place, need': set<CpsId>, need: set<CpsId>, source: Env, flat: Env, more: Env,
                  sh: Shared, sh': Shared)
    requires ValidPlace(st, p) && Agree(need, p.ren, source, Sees(st.rt.slots, flat, sh), st.pr.slots)
    requires need' <= need + more.Keys && SameGlobals(sh, sh', more.Keys)
    requires forall x :: x in more ==>
               x !in p.scope && x < st.pr.base && !more[x].Record? && (more[x].Cell? <==> x in st.pr.slots)
    ensures Agree(need', p.ren, source + more, Sees(st.rt.slots, flat + more, sh'), st.pr.slots)
  {
    forall x | x in need'
      ensures AgreeAt(x, p.ren, source + more, Sees(st.rt.slots, flat + more, sh'), st.pr.slots)
    {
      if x in more {
        assert x !in p.ren;
      } else {
        assert AgreeAt(x, p.ren, source, Sees(st.rt.slots, flat, sh), st.pr.slots);
        var y := RenameId(x, p.ren);
        assert y !in more;
      }
    }
  }

  lemma CtxKept(p: Place, source: Env, more: Env, ctx: Value)
    requires HoldsCtx(p.stack, source, ctx) && StackIn(p.stack, p.scope)
    requires forall x :: x in more ==> x !in p.scope
    ensures HoldsCtx(p.stack, source + more, ctx)
  {
    if p.stack != [] {
      var c := p.stack[|p.stack| - 1];
      assert c in p.scope;
      assert c !in more;
    }
  }

  // ---- Arguments --------------------------------------------------------------------------------

  lemma {:induction false} SameArgs(st: Setting, p: Place, args: List<Arg>, index: nat, source: Env, flat: Env,
                                    sh: Shared, fns: seq<EnvMachine.EnvFn>)
    requires ForwardableArgs(args, p.stack != []) && NoInline(args)
    requires Agree(Elements(OccArgs(args, p.stack)), p.ren, source, flat, st.pr.slots)
    ensures var args' := RenameArgs(ConvertArgs(st.snap, args, p.stack, p.next).0, p.ren, false, index);
            EnvMachine.EvalArgs(args, source, sh, fns)
            == (match FlatMachine.EvalArgs(args', flat, sh) case None => None case Some(vs) => Some((vs, fns)))
    decreases args
  {
    match args
    case Nil =>
    case Cons(a, rest) =>
      AgreeLess(Elements(OccArg(a, p.stack)), Elements(OccArgs(args, p.stack)), p.ren, source, flat, st.pr.slots);
      AgreeLess(Elements(OccArgs(rest, p.stack)), Elements(OccArgs(args, p.stack)), p.ren, source, flat, st.pr.slots);
      var h := ConvertArg(st.snap, a, p.stack, p.next);
      SameArgs(st, p.(next := h.1), rest, index + 1, source, flat, sh, fns);
      SameArg(st, p, a, source, flat, sh, fns);
  }

  lemma SameArg(st: Setting, p: Place, a: Arg, source: Env, flat: Env, sh: Shared, fns: seq<EnvMachine.EnvFn>)
    requires ForwardableArg(a, p.stack != []) && (a.ArgCont? ==> a.cont.ContTo?)
    requires Agree(Elements(OccArg(a, p.stack)), p.ren, source, flat, st.pr.slots)
    ensures EnvMachine.EvalArg(a, source, sh, fns)
            == (match FlatMachine.EvalArg(RenameArg(ConvertArg(st.snap, a, p.stack, p.next).0, p.ren), flat, sh)
                case None => None
                case Some(vs) => Some((vs, fns)))
  {
    match a
    case ArgVal(v) => SameRead(v, p.ren, source, flat, st.pr.slots, sh);
    case ArgSpread(v) => SameRead(v, p.ren, source, flat, st.pr.slots, sh);
    case ArgCont(c) => SameReadId(c.target, OccCont(c, p.stack), p.ren, source, flat, st.pr.slots, sh);
    case ArgExpr(_) =>
  }

  lemma {:induction false} SameCaptures(cs: seq<Capture>, frees: seq<CpsId>, ren: Renaming, source: Env, flat: Env,
                                        slots: set<CpsId>)
    requires |cs| == |frees| && forall i :: 0 <= i < |cs| ==> cs[i].val.kind == Ref(frees[i])
    requires Agree(Elements(frees), ren, source, flat, slots)
    ensures var es := FlatMachine.CaptureAll(RenameCaptures(cs, ren), flat);
            es.Some? && TakenFrom(es.value, frees, source)
    decreases cs
  {
    if cs != [] {
      var cs' := RenameCaptures(cs, ren);
      assert cs' == [cs'[0]] + RenameCaptures(cs[1..], ren);
      assert AgreeAt(frees[0], ren, source, flat, slots);
      AgreeLess(Elements(frees[1..]), Elements(frees), ren, source, flat, slots);
      SameCaptures(cs[1..], frees[1..], ren, source, flat, slots);
    }
  }

  // ---- The simulation ---------------------------------------------------------------------------

  /** The converted form of an expression as it stands in its function's final body. */
  function Final(st: Setting, p: Place, e: Expr): Expr
  {
    Rename(ConvertExpr(st.snap, e, p.stack, p.next).0, p.ren)
  }

  function FinalCont(st: Setting, p: Place, c: Cont): Cont
  {
    RenameCont(ConvertCont(st.snap, c, p.stack, p.next).0, p.ren)
  }

  /** The state of both machines: an environment each, everything else shared or paired up. */
  datatype Both = Both(source: Env, flat: Env, ctx: Value, sh: Shared, fs: seq<EnvMachine.EnvFn>,
                       gs: seq<FlatMachine.FlatFn>, os: seq<Origin>)

  /** What the flat machine finds, globals included. */
  function Seen(st: Setting, m: Both): Env {
    Sees(st.rt.slots, m.flat, m.sh)
  }

  function SourceRun(st: Setting, fuel: nat, e: Expr, m: Both): Result {
    EnvMachine.Eval(st.rt, fuel, e, m.source, m.ctx, m.sh, m.fs)
  }

  function FlatRun(st: Setting, fuel: nat, e: Expr, m: Both): Result {
    FlatMachine.Eval(st.rt, st.table, fuel, e, m.flat, m.ctx, m.sh, m.gs)
  }

  function SourceCall(st: Setting, fuel: nat, k: Cont, args: seq<Value>, m: Both): Result {
    EnvMachine.RunCall(st.rt, fuel, k, args, m.source, m.ctx, m.sh, m.fs)
  }

  function FlatCall(st: Setting, fuel: nat, k: Cont, args: seq<Value>, m: Both): Result {
    FlatMachine.RunCall(st.rt, st.table, fuel, k, args, m.flat, m.ctx, m.sh, m.gs)
  }

  function SourceInvoke(st: Setting, fuel: nat, f: Value, args: seq<Value>, m: Both): Result {
    EnvMachine.Invoke(st.rt, fuel, f, args, m.sh, m.fs)
  }

  function FlatInvoke(st: Setting, fuel: nat, f: Value, args: seq<Value>, m: Both): Result {
    FlatMachine.Invoke(st.rt, st.table, fuel, f, args, m.sh, m.gs)
  }

  function Bind(m: Both, more: Env): Both {
    m.(source := m.source + more, flat := m.flat + more)
  }

  /** Every outer slot in scope is bound to its one cell, the one its global holds. */
  ghost predicate OuterKept(st: Setting, scope: set<CpsId>, env: Env, sh: Shared) {
    forall x :: x in st.outer && x in scope ==> x in env && x in sh.globals && env[x] == Cell(sh.globals[x])
  }

  ghost predicate FlatKept(st: Setting, scope: set<CpsId>, flat: Env, sh: Shared) {
    forall x :: x in st.outer && x in scope && x in flat && x in sh.globals ==> flat[x] == Cell(sh.globals[x])
  }

  ghost predicate FnsKept(st: Setting, fs: seq<EnvMachine.EnvFn>, os: seq<Origin>, sh: Shared) {
    |fs| == |os| && forall i :: 0 <= i < |fs| ==> OuterKept(st, os[i].scope, fs[i].env, sh)
  }

  /** Outside every function, all functions so far were made in a part of the scope. */
  ghost predicate Grown(p: Place, os: seq<Origin>) {
    p.stack == [] ==> forall i :: 0 <= i < |os| ==> os[i].scope <= p.scope
  }

  ghost predicate Anchored(st: Setting, p: Place, m: Both) {
    && OuterKept(st, p.scope, m.source, m.sh) && FlatKept(st, p.scope, m.flat, m.sh)
    && FnsKept(st, m.fs, m.os, m.sh) && Grown(p, m.os)
  }

  ghost predicate Paired(st: Setting, p: Place, need: set<CpsId>, m: Both) {
    && ValidSetting(st) && SameFns(st, m.fs, m.gs, m.os) && Anchored(st, p, m)
    && Agree(need, p.ren, m.source, Seen(st, m), st.pr.slots) && HoldsCtx(p.stack, m.source, m.ctx)
  }

  lemma PairedLess(st: Setting, p: Place, less: set<CpsId>, need: set<CpsId>, m: Both)
    requires Paired(st, p, need, m) && less <= need
    ensures Paired(st, p, less, m)
  {
    AgreeLess(less, need, p.ren, m.source, Seen(st, m), st.pr.slots);
  }

  /** Neither the cells nor the exports nor the log matter to agreement. */
  lemma PairedCells(st: Setting, p: Place, need: set<CpsId>, m: Both, sh': Shared)
    requires Paired(st, p, need, m) && sh'.globals == m.sh.globals
    ensures Paired(st, p, need, m.(sh := sh'))
  {
    assert Seen(st, m.(sh := sh')) == Seen(st, m);
  }

  /** New values, slots excluded. */
  lemma AnchoredMore(st: Setting, p: Place, p': Place, m: Both, more: Env)
    requires ValidSetting(st) && Anchored(st, p, m) && p' == p.(scope := p.scope + more.Keys)
    requires forall x :: x in more ==> x !in st.pr.slots
    ensures Anchored(st, p', Bind(m, more))
  {
  }

  lemma PairedMore(st: Setting, p: Place, p': Place, need': set<CpsId>, need: set<CpsId>, m: Both, more: Env)
    requires ValidPlace(st, p) && Paired(st, p, need, m) && p' == p.(scope := p.scope + more.Keys)
    requires need' <= need + more.Keys
    requires forall x :: x in more ==> x !in p.scope && x < st.pr.base && more[x].Holds? && x !in st.pr.slots
    ensures Paired(st, p', need', Bind(m, more))
  {
    AnchoredMore(st, p, p', m, more);
    AgreeMore(st, p, need', need, m.source, m.flat, more, m.sh, m.sh);
    CtxKept(p, m.source, more, m.ctx);
  }

  lemma DeclaredGlobals(slots: seq<BindNode>, sh: Shared)
    ensures var more := SlotEntries(slots, |sh.cells|);
            && more.Keys == BindIds(slots) && SameGlobals(sh, Declare(slots, sh), more.Keys)
            && forall x :: x in more ==> x in Declare(slots, sh).globals && more[x] == Cell(Declare(slots, sh).globals[x])
  {
  }

  /** Newly declared slots: outside every function they are new to all functions so far, inside one they are
      no outer slots. */
  lemma AnchoredSlots(st: Setting, p: Place, p': Place, m: Both, slots: seq<BindNode>)
    requires Anchored(st, p, m) && p' == p.(scope := p.scope + BindIds(slots))
    requires NewSlots(slots, p.scope, st.pr) && (p.stack != [] ==> BindIds(slots) !! st.outer)
    ensures Anchored(st, p', Bind(m, SlotEntries(slots, |m.sh.cells|)).(sh := Declare(slots, m.sh)))
  {
    hide SlotEntries, Declare;
    var more, sh' := SlotEntries(slots, |m.sh.cells|), Declare(slots, m.sh);
    DeclaredGlobals(slots, m.sh);
    forall i | 0 <= i < |m.fs|
      ensures OuterKept(st, m.os[i].scope, m.fs[i].env, sh')
    {
      assert OuterKept(st, m.os[i].scope, m.fs[i].env, m.sh);
      assert forall x :: x in st.outer && x in m.os[i].scope ==> x !in BindIds(slots);
    }
  }

  lemma PairedSlots(st: Setting, p: Place, p': Place, need': set<CpsId>, need: set<CpsId>, m: Both, slots: seq<BindNode>)
    requires ValidPlace(st, p) && Paired(st, p, need, m) && p' == p.(scope := p.scope + BindIds(slots))
    requires need' <= need + BindIds(slots)
    requires NewSlots(slots, p.scope, st.pr) && (p.stack != [] ==> BindIds(slots) !! st.outer)
    ensures Paired(st, p', need', Bind(m, SlotEntries(slots, |m.sh.cells|)).(sh := Declare(slots, m.sh)))
  {
    hide Anchored, SameFns;
    AnchoredSlots(st, p, p', m, slots);
    DeclaredGlobals(slots, m.sh);
    var more := SlotEntries(slots, |m.sh.cells|);
    AgreeMore(st, p, need', need, m.source, m.flat, more, m.sh, Declare(slots, m.sh));
    CtxKept(p, m.source, more, m.ctx);
  }

  lemma PairedFn(st: Setting, p: Place, need: set<CpsId>, m: Both, fn: EnvMachine.EnvFn, g: FlatMachine.FlatFn, o: Origin)
    requires Paired(st, p, need, m) && SameFn(st, fn, g, o) && fn.env == m.source && o.scope == p.scope
    ensures Paired(st, p, need, m.(fs := m.fs + [fn], gs := m.gs + [g], os := m.os + [o]))
  {
    hide Agree, HoldsCtx, ValidSetting, SameFn, OuterKept, FlatKept;
    var m' := m.(fs := m.fs + [fn], gs := m.gs + [g], os := m.os + [o]);
    assert Seen(st, m') == Seen(st, m);
  }

  // One step of either machine, for each kind of node.

  lemma StepLetVal(st: Setting, fuel: nat, id: CpsId, name: BindNode, val: Val, val': Val, cont: Cont, cont': Cont,
                   v: Value, m: Both)
    requires ReadVal(val, m.source, m.sh) == Some(v) && ReadVal(val', Seen(st, m), m.sh) == Some(v)
    requires cont.ContTo? == cont'.ContTo? && name.id !in st.rt.slots
    ensures var m' := Bind(m, map[name.id := Holds(v)]);
            && SourceRun(st, fuel, LetVal(id, name, val, cont), m)
               == SourceCall(st, fuel, cont, ContArgs(cont, [v], m.ctx), m')
            && FlatRun(st, fuel, LetVal(id, name, val', cont'), m)
               == FlatCall(st, fuel, cont', ContArgs(cont, [v], m.ctx), m')
  {
    PutIsAdd(m.source, name.id, v);
    PutIsAdd(m.flat, name.id, v);
  }

  /** A binding under a slot's id fills the slot. */
  lemma StepLetSlot(st: Setting, fuel: nat, id: CpsId, name: BindNode, val: Val, val': Val, cont: Cont, cont': Cont,
                    v: Value, sh': Shared, m: Both)
    requires ReadVal(val, m.source, m.sh) == Some(v) && ReadVal(val', Seen(st, m), m.sh) == Some(v)
    requires FillSlot(name.id, v, m.source, m.sh) == Some(sh') && FillSlot(name.id, v, Seen(st, m), m.sh) == Some(sh')
    requires cont.ContTo? == cont'.ContTo? && name.id in st.rt.slots
    ensures var m' := m.(sh := sh');
            && SourceRun(st, fuel, LetVal(id, name, val, cont), m)
               == SourceCall(st, fuel, cont, ContArgs(cont, [v], m.ctx), m')
            && FlatRun(st, fuel, LetVal(id, name, val', cont'), m)
               == FlatCall(st, fuel, cont', ContArgs(cont, [v], m.ctx), m')
  {
  }

  lemma StepInline(st: Setting, fuel: nat, binds: seq<BindNode>, body: Expr, body': Expr, args: seq<Value>, more: Env, m: Both)
    requires BindParams(Names(binds), args) == Some(more)
    ensures SourceCall(st, fuel, Inline(binds, body), args, m) == SourceRun(st, fuel, body, Bind(m, more))
    ensures FlatCall(st, fuel, Inline(binds, body'), args, m) == FlatRun(st, fuel, body', Bind(m, more))
  {
  }

  lemma StepLetRec(st: Setting, fuel: nat, id: CpsId, slots: seq<BindNode>, body: Expr, body': Expr, m: Both)
    ensures var m' := Bind(m, SlotEntries(slots, |m.sh.cells|)).(sh := Declare(slots, m.sh));
            && SourceRun(st, fuel, LetRec(id, slots, body), m) == SourceRun(st, fuel, body, m')
            && FlatRun(st, fuel, LetRec(id, slots, body'), m) == FlatRun(st, fuel, body', m')
  {
  }

  lemma StepSet(st: Setting, fuel: nat, id: CpsId, name: BindNode, name': BindNode, val: Val, val': Val, cont: Cont,
                cont': Cont, v: Value, sh': Shared, m: Both)
    requires ReadVal(val, m.source, m.sh) == Some(v) && ReadVal(val', Seen(st, m), m.sh) == Some(v)
    requires FillSlot(name.id, v, m.source, m.sh) == Some(sh') && FillSlot(name'.id, v, Seen(st, m), m.sh) == Some(sh')
    requires cont.ContTo? == cont'.ContTo?
    ensures var m' := m.(sh := sh');
            && SourceRun(st, fuel, Set(id, name, val, cont), m)
               == SourceCall(st, fuel, cont, ContArgs(cont, [], m.ctx), m')
            && FlatRun(st, fuel, Set(id, name', val', cont'), m)
               == FlatCall(st, fuel, cont', ContArgs(cont, [], m.ctx), m')
  {
  }

  lemma StepApp(st: Setting, fuel: nat, id: CpsId, callee: Val, callee': Val, args: List<Arg>, args': List<Arg>,
                f: Value, vals: seq<Value>, m: Both)
    requires ReadVal(callee, m.source, m.sh) == Some(f) && ReadVal(callee', Seen(st, m), m.sh) == Some(f)
    requires EnvMachine.EvalArgs(args, m.source, m.sh, m.fs) == Some((vals, m.fs))
    requires FlatMachine.EvalArgs(args', Seen(st, m), m.sh) == Some(vals)
    ensures SourceRun(st, fuel, App(id, CallVal(callee), args), m) == SourceInvoke(st, fuel, f, vals, m)
    ensures FlatRun(st, fuel, App(id, CallVal(callee'), args'), m) == FlatInvoke(st, fuel, f, vals, m)
  {
  }

  lemma {:induction false} EvalSame(st: Setting, p: Place, fuel: nat, e: Expr, m: Both)
    requires At(st, p, e) && Paired(st, p, Need(st, e, p.stack), m)
    ensures SourceRun(st, fuel, e, m) == FlatRun(st, fuel, Final(st, p, e), m)
    decreases fuel, 1, e, 5
  {
    match e
    case LetVal(_, _, _, _) => LetValSame(st, p, fuel, e, m);
    case LetFn(_, _, _, _, _, _) => LetFnSame(st, p, fuel, e, m);
    case App(_, CallBuiltIn(_), _) => CallOpSame(st, p, fuel, e, m);
    case App(_, CallVal(_), _) => CallSame(st, p, fuel, e, m);
    case If(_, _, _, _) => IfSame(st, p, fuel, e, m);
    case LetRec(_, _, _) => LetRecSame(st, p, fuel, e, m);
    case Set(_, _, _, _) => SetSame(st, p, fuel, e, m);
  }

  lemma LetValPlace(st: Setting, p: Place, e: Expr)
    requires e.LetVal? && At(st, p, e)
    ensures var p' := p.(scope := p.scope + {e.name.id});
            && AtCont(st, p', e.cont) && FinalCont(st, p', e.cont).ContTo? == e.cont.ContTo?
            && Final(st, p, e) == LetVal(e.id, e.name, RenameVal(e.val, p.ren), FinalCont(st, p', e.cont))
            && NeedCont(st, e.cont, p.stack) <= Need(st, e, p.stack) + {e.name.id}
    ensures Elements(ValReads(e.val)) <= Need(st, e, p.stack)
    ensures if e.name.id in st.pr.slots then Refills(e.name, p.scope, st.pr) && e.name.id in Need(st, e, p.stack)
            else NewValue(e.name, p.scope, st.pr)
    ensures ValidPlace(st, p) && FillsDirect(st, p, {e.name.id})
  {
    hide Covers, CoversCont, Convertible, ConvertibleCont, Forwardable, ForwardableCont;
    LetValFits(st, p, e);
    InMinus(OccCont(e.cont, p.stack), {e.name.id});
    assert LetNames(e) == {e.name.id} + LetNamesCont(e.cont);
  }

  lemma LetValFits(st: Setting, p: Place, e: Expr)
    requires e.LetVal? && At(st, p, e)
    ensures ConvertibleCont(e.cont, p.stack, SlotsAt(st)) && ForwardableCont(e.cont, p.stack != [])
    ensures CoversCont(st.table, ConvertCont(st.snap, e.cont, p.stack, p.next).0)
  {
  }

  lemma {:induction false} LetValSame(st: Setting, p: Place, fuel: nat, e: Expr, m: Both)
    requires e.LetVal? && At(st, p, e) && Paired(st, p, Need(st, e, p.stack), m)
    ensures SourceRun(st, fuel, e, m) == FlatRun(st, fuel, Final(st, p, e), m)
    decreases fuel, 1, e, 2
  {
    hide At, AtCont, Need, NeedCont, Final, FinalCont, Agree, HoldsCtx, SameFns, Anchored, Sees;
    var LetVal(id, name, val, cont) := e;
    LetValPlace(st, p, e);
    AgreeLess(Elements(ValReads(val)), Need(st, e, p.stack), p.ren, m.source, Seen(st, m), st.pr.slots);
    SameRead(val, p.ren, m.source, Seen(st, m), st.pr.slots, m.sh);
    var r := ReadVal(val, m.source, m.sh);
    if r.Some? {
      if name.id in st.rt.slots {
        LetSlotSame(st, p, fuel, e, m, r.value);
      } else {
        LetValueSame(st, p, fuel, e, m, r.value);
      }
    }
  }

  lemma {:induction false} LetValueSame(st: Setting, p: Place, fuel: nat, e: Expr, m: Both, v: Value)
    requires e.LetVal? && At(st, p, e) && Paired(st, p, Need(st, e, p.stack), m) && e.name.id !in st.rt.slots
    requires ReadVal(e.val, m.source, m.sh) == Some(v) && ReadVal(RenameVal(e.val, p.ren), Seen(st, m), m.sh) == Some(v)
    ensures SourceRun(st, fuel, e, m) == FlatRun(st, fuel, Final(st, p, e), m)
    decreases fuel, 1, e, 1
  {
    hide At, AtCont, Need, NeedCont, Final, FinalCont, Agree, HoldsCtx, SameFns, Anchored, Seen, SourceRun, FlatRun, ReadVal,
         EnvMachine.Eval, EnvMachine.RunCall, EnvMachine.Invoke, FlatMachine.Eval, FlatMachine.RunCall, FlatMachine.Invoke;
    var LetVal(id, name, val, cont) := e;
    LetValPlace(st, p, e);
    var more: Env := map[name.id := Holds(v)];
    var p' := p.(scope := p.scope + {name.id});
    assert more.Keys == {name.id};
    PairedMore(st, p, p', NeedCont(st, cont, p.stack), Need(st, e, p.stack), m, more);
    StepLetVal(st, fuel, id, name, val, RenameVal(val, p.ren), cont, FinalCont(st, p', cont), v, m);
    RunCallSame(st, p', fuel, cont, ContArgs(cont, [v], m.ctx), Bind(m, more));
  }

  /** A slot that is filled by a binding of its id is found by both machines, under its own id. */
  lemma FillFound(st: Setting, p: Place, need: set<CpsId>, m: Both, x: CpsId)
    requires Paired(st, p, need, m) && x in need && x in p.scope && (x in st.outer || x !in p.ren)
    ensures x in m.source && x in Seen(st, m) && Seen(st, m)[x] == m.source[x]
  {
    assert AgreeAt(x, p.ren, m.source, Seen(st, m), st.pr.slots);
  }

  lemma {:induction false} LetSlotSame(st: Setting, p: Place, fuel: nat, e: Expr, m: Both, v: Value)
    requires e.LetVal? && At(st, p, e) && Paired(st, p, Need(st, e, p.stack), m) && e.name.id in st.rt.slots
    requires ReadVal(e.val, m.source, m.sh) == Some(v) && ReadVal(RenameVal(e.val, p.ren), Seen(st, m), m.sh) == Some(v)
    ensures SourceRun(st, fuel, e, m) == FlatRun(st, fuel, Final(st, p, e), m)
    decreases fuel, 1, e, 1
  {
    hide At, AtCont, Need, NeedCont, Final, FinalCont, Agree, HoldsCtx, SameFns, Anchored, Sees, ReadVal;
    var LetVal(id, name, val, cont) := e;
    LetValPlace(st, p, e);
    assert p.scope + {name.id} == p.scope;
    FillFound(st, p, Need(st, e, p.stack), m, name.id);
    var sh' := FillSlot(name.id, v, m.source, m.sh);
    assert sh' == FillSlot(name.id, v, Seen(st, m), m.sh);
    if sh'.Some? {
      StepLetSlot(st, fuel, id, name, val, RenameVal(val, p.ren), cont, FinalCont(st, p, cont), v, sh'.value, m);
      PairedCells(st, p, Need(st, e, p.stack), m, sh'.value);
      PairedLess(st, p, NeedCont(st, cont, p.stack), Need(st, e, p.stack), m.(sh := sh'.value));
      RunCallSame(st, p, fuel, cont, ContArgs(cont, [v], m.ctx), m.(sh := sh'.value));
    }
  }

  lemma {:induction false} CallSame(st: Setting, p: Place, fuel: nat, e: Expr, m: Both)
    requires e.App? && e.func.CallVal? && At(st, p, e) && Paired(st, p, Need(st, e, p.stack), m)
    ensures SourceRun(st, fuel, e, m) == FlatRun(st, fuel, Final(st, p, e), m)
    decreases fuel, 1, e, 2
  {
    var App(id, func, args) := e;
    AgreeLess(Elements(ValReads(func.val)), Need(st, e, p.stack), p.ren, m.source, Seen(st, m), st.pr.slots);
    AgreeLess(Elements(OccArgs(args, p.stack)), Need(st, e, p.stack), p.ren, m.source, Seen(st, m), st.pr.slots);
    SameRead(func.val, p.ren, m.source, Seen(st, m), st.pr.slots, m.sh);
    SameArgs(st, p, args, 0, m.source, Seen(st, m), m.sh, m.fs);
    var f, a := ReadVal(func.val, m.source, m.sh), EnvMachine.EvalArgs(args, m.source, m.sh, m.fs);
    if f.Some? && a.Some? {
      var args' := RenameArgs(ConvertArgs(st.snap, args, p.stack, p.next).0, p.ren, false, 0);
      StepApp(st, fuel, id, func.val, RenameVal(func.val, p.ren), args, args', f.value, a.value.0, m);
      InvokeSame(st, fuel, f.value, a.value.0, m);
    }
  }

  lemma IfPlaces(st: Setting, p: Place, e: Expr)
    requires e.If? && At(st, p, e)
    ensures var p' := p.(next := ConvertExpr(st.snap, e.thn, p.stack, p.next).1);
            && At(st, p, e.thn) && At(st, p', e.els)
            && Final(st, p, e) == If(e.id, RenameVal(e.cond, p.ren), Final(st, p, e.thn), Final(st, p', e.els))
    ensures Elements(ValReads(e.cond)) <= Need(st, e, p.stack)
    ensures Need(st, e.thn, p.stack) <= Need(st, e, p.stack) && Need(st, e.els, p.stack) <= Need(st, e, p.stack)
  {
  }

  lemma {:induction false} IfSame(st: Setting, p: Place, fuel: nat, e: Expr, m: Both)
    requires e.If? && At(st, p, e) && Paired(st, p, Need(st, e, p.stack), m)
    ensures SourceRun(st, fuel, e, m) == FlatRun(st, fuel, Final(st, p, e), m)
    decreases fuel, 1, e, 2
  {
    hide At, Need, Final, Agree, HoldsCtx, SameFns, ValidSetting, Sees, OuterKept, FlatKept, FnsKept;
    var If(id, cond, thn, els) := e;
    IfPlaces(st, p, e);
    AgreeLess(Elements(ValReads(cond)), Need(st, e, p.stack), p.ren, m.source, Seen(st, m), st.pr.slots);
    PairedLess(st, p, Need(st, thn, p.stack), Need(st, e, p.stack), m);
    PairedLess(st, p, Need(st, els, p.stack), Need(st, e, p.stack), m);
    SameRead(cond, p.ren, m.source, Seen(st, m), st.pr.slots, m.sh);
    var r := ReadVal(cond, m.source, m.sh);
    if r == Some(BoolValue(true)) {
      EvalSame(st, p, fuel, thn, m);
    } else if r == Some(BoolValue(false)) {
      EvalSame(st, p.(next := ConvertExpr(st.snap, thn, p.stack, p.next).1), fuel, els, m);
    }
  }

  lemma {:induction false} LetRecSame(st: Setting, p: Place, fuel: nat, e: Expr, m: Both)
    requires e.LetRec? && At(st, p, e) && Paired(st, p, Need(st, e, p.stack), m)
    ensures SourceRun(st, fuel, e, m) == FlatRun(st, fuel, Final(st, p, e), m)
    decreases fuel, 1, e, 2
  {
    hide EnvMachine.Eval, EnvMachine.RunCall, EnvMachine.Invoke, FlatMachine.Eval, FlatMachine.RunCall, FlatMachine.Invoke;
    var LetRec(id, slots, body) := e;
    InMinus(Occ(body, p.stack), BindIds(slots));
    var p' := p.(scope := p.scope + BindIds(slots));
    PairedSlots(st, p, p', Need(st, body, p.stack), Need(st, e, p.stack), m, slots);
    StepLetRec(st, fuel, id, slots, body, Final(st, p', body), m);
    EvalSame(st, p', fuel, body, Bind(m, SlotEntries(slots, |m.sh.cells|)).(sh := Declare(slots, m.sh)));
  }

  lemma SetPlace(st: Setting, p: Place, e: Expr)
    requires e.Set? && At(st, p, e)
    ensures AtCont(st, p, e.cont) && FinalCont(st, p, e.cont).ContTo? == e.cont.ContTo?
    ensures Final(st, p, e) == Set(e.id, e.name.(id := RenameId(e.name.id, p.ren)), RenameVal(e.val, p.ren), FinalCont(st, p, e.cont))
    ensures Elements(ValReads(e.val)) <= Need(st, e, p.stack) && NeedCont(st, e.cont, p.stack) <= Need(st, e, p.stack)
    ensures e.name.id in Need(st, e, p.stack)
  {
  }

  lemma {:induction false} SetSame(st: Setting, p: Place, fuel: nat, e: Expr, m: Both)
    requires e.Set? && At(st, p, e) && Paired(st, p, Need(st, e, p.stack), m)
    ensures SourceRun(st, fuel, e, m) == FlatRun(st, fuel, Final(st, p, e), m)
    decreases fuel, 1, e, 2
  {
    hide At, AtCont, Need, NeedCont, Final, FinalCont, HoldsCtx, SameFns, ValidSetting, Anchored, Sees;
    var Set(id, name, val, cont) := e;
    SetPlace(st, p, e);
    AgreeLess(Elements(ValReads(val)), Need(st, e, p.stack), p.ren, m.source, Seen(st, m), st.pr.slots);
    SameRead(val, p.ren, m.source, Seen(st, m), st.pr.slots, m.sh);
    var r := ReadVal(val, m.source, m.sh);
    var name' := name.(id := RenameId(name.id, p.ren));
    assert AgreeAt(name.id, p.ren, m.source, Seen(st, m), st.pr.slots);
    hide Agree;
    if r.Some? {
      var sh' := FillSlot(name.id, r.value, m.source, m.sh);
      assert sh' == FillSlot(name'.id, r.value, Seen(st, m), m.sh);
      if sh'.Some? {
        StepSet(st, fuel, id, name, name', val, RenameVal(val, p.ren), cont, FinalCont(st, p, cont), r.value, sh'.value, m);
        PairedCells(st, p, Need(st, e, p.stack), m, sh'.value);
        PairedLess(st, p, NeedCont(st, cont, p.stack), Need(st, e, p.stack), m.(sh := sh'.value));
        RunCallSame(st, p, fuel, cont, ContArgs(cont, [], m.ctx), m.(sh := sh'.value));
      }
    }
  }

  lemma {:induction false} RunCallSame(st: Setting, p: Place, fuel: nat, k: Cont, args: seq<Value>, m: Both)
    requires AtCont(st, p, k) && Paired(st, p, NeedCont(st, k, p.stack), m)
    ensures SourceCall(st, fuel, k, args, m) == FlatCall(st, fuel, FinalCont(st, p, k), args, m)
    decreases fuel, 1, k, 0
  {
    match k
    case ContTo(x) =>
      SameReadId(x, [x], p.ren, m.source, Seen(st, m), st.pr.slots, m.sh);
      var f := ReadId(x, m.source, m.sh);
      if f.Some? {
        InvokeSame(st, fuel, f.value, args, m);
      }
    case Inline(binds, body) =>
      var more := BindParams(Names(binds), args);
      if more.Some? {
        BelowBinds(binds, p.scope, st.pr.base);
        InMinus(Occ(body, p.stack), BindIds(binds));
        var p' := p.(scope := p.scope + BindIds(binds));
        PairedMore(st, p, p', Need(st, body, p.stack), NeedCont(st, k, p.stack), m, more.value);
        EvalSame(st, p', fuel, body, Bind(m, more.value));
        var body' := Final(st, p', body);
        assert FinalCont(st, p, k) == Inline(binds, body');
        StepInline(st, fuel, binds, body, body', args, more.value, m);
      }
  }

  lemma {:induction false} CallOpSame(st: Setting, p: Place, fuel: nat, e: Expr, m: Both)
    requires e.App? && e.func.CallBuiltIn? && At(st, p, e) && Paired(st, p, Need(st, e, p.stack), m)
    ensures SourceRun(st, fuel, e, m) == FlatRun(st, fuel, Final(st, p, e), m)
    decreases fuel, 1, e, 2
  {
    match e.func.op
    case Panic(_) =>
    case FnClosure =>
    case Operator(_) => OperatorSame(st, p, fuel, e, m);
    case FinkModule => ModuleSame(st, p, fuel, e, m);
    case Pub => PubSame(st, p, fuel, e, m);
  }

  lemma {:induction false} OperatorSame(st: Setting, p: Place, fuel: nat, e: Expr, m: Both)
    requires e.App? && e.func.CallBuiltIn? && e.func.op.Operator? && At(st, p, e) && Paired(st, p, Need(st, e, p.stack), m)
    ensures SourceRun(st, fuel, e, m) == FlatRun(st, fuel, Final(st, p, e), m)
    decreases fuel, 1, e, 1
  {
    hide HoldsCtx, SameFns, ValidPlace,
         EnvMachine.Eval, EnvMachine.RunCall, EnvMachine.Invoke, FlatMachine.Eval, FlatMachine.RunCall, FlatMachine.Invoke;
    AgreeLess(Elements(OccArgs(e.args, p.stack)), Need(st, e, p.stack), p.ren, m.source, Seen(st, m), st.pr.slots);
    SameArgs(st, p, e.args, 0, m.source, Seen(st, m), m.sh, m.fs);
    var args' := RenameArgs(ConvertArgs(st.snap, e.args, p.stack, p.next).0, p.ren, false, 0);
    StepOperator(st, fuel, e.id, e.func.op, e.args, args', m);
    var a := EnvMachine.EvalArgs(e.args, m.source, m.sh, m.fs);
    if a.Some? {
      var sh' := Logged(e.func.op, a.value.0, m.sh);
      var next := st.rt.answer(sh'.log);
      if next.TailCall? {
        InvokeSame(st, fuel, next.callee, next.args, m.(sh := sh'));
      }
    }
  }

  lemma StepOperator(st: Setting, fuel: nat, id: CpsId, op: BuiltIn, args: List<Arg>, args': List<Arg>, m: Both)
    requires op.Operator?
    requires EnvMachine.EvalArgs(args, m.source, m.sh, m.fs)
             == (match FlatMachine.EvalArgs(args', Seen(st, m), m.sh) case None => None case Some(vs) => Some((vs, m.fs)))
    ensures match FlatMachine.EvalArgs(args', Seen(st, m), m.sh)
            case None =>
              && SourceRun(st, fuel, App(id, CallBuiltIn(op), args), m) == Trap(m.sh)
              && FlatRun(st, fuel, App(id, CallBuiltIn(op), args'), m) == Trap(m.sh)
            case Some(vs) =>
              var sh' := Logged(op, vs, m.sh);
              var m' := m.(sh := sh');
              match st.rt.answer(sh'.log)
              case OpFails =>
                && SourceRun(st, fuel, App(id, CallBuiltIn(op), args), m) == Trap(sh')
                && FlatRun(st, fuel, App(id, CallBuiltIn(op), args'), m) == Trap(sh')
              case TailCall(f, ws) =>
                && SourceRun(st, fuel, App(id, CallBuiltIn(op), args), m) == SourceInvoke(st, fuel, f, ws, m')
                && FlatRun(st, fuel, App(id, CallBuiltIn(op), args'), m) == FlatInvoke(st, fuel, f, ws, m')
  {
  }

  ghost predicate AtArgs(st: Setting, p: Place, args: List<Arg>) {
    && ValidPlace(st, p) && FillsDirect(st, p, LetNamesArgs(args))
    && WellScopedArgs(args, p.scope, st.pr) && ConvertibleArgs(args, p.stack, SlotsAt(st)) && ForwardableArgs(args, p.stack != [])
    && CoversArgs(st.table, ConvertArgs(st.snap, args, p.stack, p.next).0)
  }

  function FinalArgs(st: Setting, p: Place, args: List<Arg>, isPub: bool, index: nat): List<Arg>
  {
    RenameArgs(ConvertArgs(st.snap, args, p.stack, p.next).0, p.ren, isPub, index)
  }

  function NeedArgs(st: Setting, args: List<Arg>, stack: CtxStack): set<CpsId> {
    Elements(OccArgs(args, stack)) + SetTargetsArgs(args) + LetNamesArgs(args) * st.pr.slots
  }

  /** A value argument converts to a value argument and leaves the others where they are. */
  lemma ValueArg(st: Setting, p: Place, args: List<Arg>, isPub: bool, index: nat)
    requires AtArgs(st, p, args) && args.Cons? && args.head.ArgVal?
    ensures AtArgs(st, p, args.tail) && NeedArgs(st, args.tail, p.stack) <= NeedArgs(st, args, p.stack)
    ensures FinalArgs(st, p, args, isPub, index)
            == Cons(if isPub && index == 1 then args.head else RenameArg(args.head, p.ren),
                    FinalArgs(st, p, args.tail, isPub, index + 1))
  {
    assert ConvertArg(st.snap, args.head, p.stack, p.next) == (args.head, p.next);
  }

  /** The only continuation of a call converts in place. */
  lemma LoneContArg(st: Setting, p: Place, args: List<Arg>, k: Cont, isPub: bool, index: nat)
    requires args == Cons(ArgCont(k), Nil) && AtArgs(st, p, args)
    ensures AtCont(st, p, k) && NeedCont(st, k, p.stack) <= NeedArgs(st, args, p.stack)
    ensures FinalArgs(st, p, args, isPub, index) == Cons(ArgCont(FinalCont(st, p, k)), Nil)
  {
    assert WellScopedArg(args.head, p.scope, st.pr) && ConvertibleArg(args.head, p.stack, SlotsAt(st))
        && ForwardableArg(args.head, p.stack != []);
    var c := ConvertCont(st.snap, k, p.stack, p.next);
    assert ConvertArgs(st.snap, Nil, p.stack, c.1) == (Nil, c.1);
    assert ConvertArg(st.snap, args.head, p.stack, p.next) == (ArgCont(c.0), c.1);
    assert ConvertArgs(st.snap, args, p.stack, p.next).0 == Cons(ArgCont(c.0), Nil);
    assert CoversArgs(st.table, Cons(ArgCont(c.0), Nil)) && CoversArg(st.table, ArgCont(c.0));
    assert OccArgs(args, p.stack) == OccCont(k, p.stack) + OccArgs(Nil, p.stack) && OccArgs(Nil, p.stack) == [];
    assert SetTargetsArgs(args) == SetTargetsArg(args.head) + SetTargetsArgs(Nil);
    assert LetNamesArgs(args) == LetNamesArg(args.head) + LetNamesArgs(Nil);
    assert RenameArgs(Cons(ArgCont(c.0), Nil), p.ren, isPub, index)
        == Cons(RenameArg(ArgCont(c.0), p.ren), RenameArgs(Nil, p.ren, isPub, index + 1));
  }

  /** Arguments that are not a lone continuation do not become one. */
  lemma OtherArgs(st: Setting, p: Place, args: List<Arg>, isPub: bool, index: nat)
    requires ForwardableArgs(args, p.stack != [])
    ensures var args' := FinalArgs(st, p, args, isPub, index);
            (args.Cons? && args.head.ArgCont? && args.tail == Nil)
            == (args'.Cons? && args'.head.ArgCont? && args'.tail == Nil)
    ensures var args' := FinalArgs(st, p, args, isPub, index);
            args'.Cons? == args.Cons? && (args.Cons? ==> args'.head.ArgVal? == args.head.ArgVal?)
  {
    if args.Cons? {
      var h := ConvertArg(st.snap, args.head, p.stack, p.next);
      var t := ConvertArgs(st.snap, args.tail, p.stack, h.1).0;
      var h' := if isPub && index == 1 && h.0.ArgVal? then h.0 else RenameArg(h.0, p.ren);
      assert h.0.ArgCont? == args.head.ArgCont? && h.0.ArgVal? == args.head.ArgVal?;
      assert h'.ArgCont? == h.0.ArgCont? && h'.ArgVal? == h.0.ArgVal?;
      assert FinalArgs(st, p, args, isPub, index) == Cons(h', RenameArgs(t, p.ren, isPub, index + 1));
      assert t.Nil? <==> args.tail.Nil?;
      assert ConvertArgs(st.snap, args, p.stack, p.next).0 == Cons(h.0, t);
      assert RenameArgs(t, p.ren, isPub, index + 1).Nil? <==> t.Nil?;
    }
  }

  lemma {:induction false} ModuleSame(st: Setting, p: Place, fuel: nat, e: Expr, m: Both)
    requires e.App? && e.func == CallBuiltIn(FinkModule) && At(st, p, e) && Paired(st, p, Need(st, e, p.stack), m)
    ensures SourceRun(st, fuel, e, m) == FlatRun(st, fuel, Final(st, p, e), m)
    decreases fuel, 1, e, 1
  {
    hide EnvMachine.Eval, EnvMachine.RunCall, EnvMachine.Invoke, FlatMachine.Eval, FlatMachine.RunCall, FlatMachine.Invoke;
    var args := e.args;
    if args.Cons? && args.head.ArgCont? && args.tail == Nil {
      var k := args.head.cont;
      LoneContArg(st, p, args, k, false, 0);
      PairedLess(st, p, NeedCont(st, k, p.stack), Need(st, e, p.stack), m);
      RunCallSame(st, p, fuel, k, [m.ctx, HostDone], m);
      StepModule(st, fuel, e.id, k, FinalCont(st, p, k), m);
    } else {
      OtherArgs(st, p, args, false, 0);
      StepNoModule(st, fuel, e.id, args, m);
      StepNoModule(st, fuel, e.id, FinalArgs(st, p, args, false, 0), m);
    }
  }

  lemma StepModule(st: Setting, fuel: nat, id: CpsId, k: Cont, k': Cont, m: Both)
    ensures SourceRun(st, fuel, App(id, CallBuiltIn(FinkModule), Cons(ArgCont(k), Nil)), m)
            == SourceCall(st, fuel, k, [m.ctx, HostDone], m)
    ensures FlatRun(st, fuel, App(id, CallBuiltIn(FinkModule), Cons(ArgCont(k'), Nil)), m)
            == FlatCall(st, fuel, k', [m.ctx, HostDone], m)
  {
  }

  lemma StepNoModule(st: Setting, fuel: nat, id: CpsId, args: List<Arg>, m: Both)
    requires !(args.Cons? && args.head.ArgCont? && args.tail == Nil)
    ensures SourceRun(st, fuel, App(id, CallBuiltIn(FinkModule), args), m) == Trap(m.sh)
    ensures FlatRun(st, fuel, App(id, CallBuiltIn(FinkModule), args), m) == Trap(m.sh)
  {
  }

  lemma {:induction false} PubSame(st: Setting, p: Place, fuel: nat, e: Expr, m: Both)
    requires e.App? && e.func == CallBuiltIn(Pub) && At(st, p, e) && Paired(st, p, Need(st, e, p.stack), m)
    ensures SourceRun(st, fuel, e, m) == FlatRun(st, fuel, Final(st, p, e), m)
    decreases fuel, 1, e, 1
  {
    hide EnvMachine.Eval, EnvMachine.RunCall, EnvMachine.Invoke, FlatMachine.Eval, FlatMachine.RunCall, FlatMachine.Invoke;
    PubShape(st, p, e);
    StepPub(st, fuel, e.id, e.args, Final(st, p, e).args, m);
    var key := PubKey(e.args);
    if key.Some? {
      var (x, k) := key.value;
      var sh' := ExportSlot(x, m.sh);
      if sh'.Some? {
        PairedCells(st, p, Need(st, e, p.stack), m, sh'.value);
        PairedLess(st, p, NeedCont(st, k, p.stack), Need(st, e, p.stack), m.(sh := sh'.value));
        RunCallSame(st, p, fuel, k, [m.ctx], m.(sh := sh'.value));
      }
    }
  }

  lemma StepPub(st: Setting, fuel: nat, id: CpsId, args: List<Arg>, args': List<Arg>, m: Both)
    requires match PubKey(args)
             case None => PubKey(args') == None
             case Some((x, _)) => PubKey(args').Some? && PubKey(args').value.0 == x
    ensures var here := SourceRun(st, fuel, App(id, CallBuiltIn(Pub), args), m);
            var there := FlatRun(st, fuel, App(id, CallBuiltIn(Pub), args'), m);
            match PubKey(args)
            case None => here == there
            case Some((x, k)) =>
              match ExportSlot(x, m.sh)
              case None => here == there
              case Some(sh') =>
                && here == SourceCall(st, fuel, k, [m.ctx], m.(sh := sh'))
                && there == FlatCall(st, fuel, PubKey(args').value.1, [m.ctx], m.(sh := sh'))
  {
  }

  /** An export keeps its key and converts its continuation. */
  lemma PubShape(st: Setting, p: Place, e: Expr)
    requires e.App? && e.func == CallBuiltIn(Pub) && At(st, p, e)
    ensures Final(st, p, e).App? && Final(st, p, e).func == CallBuiltIn(Pub)
    ensures match PubKey(e.args)
            case None => PubKey(Final(st, p, e).args) == None
            case Some((x, k)) =>
              && AtCont(st, p, k) && NeedCont(st, k, p.stack) <= Need(st, e, p.stack)
              && PubKey(Final(st, p, e).args) == Some((x, FinalCont(st, p, k)))
  {
    hide RenameArgs, ConvertArgs, WellScopedArgs, ConvertibleArgs, ForwardableArgs, CoversArgs, OccArgs,
         SetTargetsArgs, LetNamesArgs, PubKey;
    assert AtArgs(st, p, e.args) && Final(st, p, e).args == FinalArgs(st, p, e.args, true, 0);
    PubArgs(st, p, e.args);
    assert OccArgs(e.args, p.stack) == Occ(e, p.stack);
  }

  lemma PubArgs(st: Setting, p: Place, args: List<Arg>)
    requires AtArgs(st, p, args)
    ensures match PubKey(args)
            case None => PubKey(FinalArgs(st, p, args, true, 0)) == None
            case Some((x, k)) =>
              && AtCont(st, p, k) && NeedCont(st, k, p.stack) <= NeedArgs(st, args, p.stack)
              && PubKey(FinalArgs(st, p, args, true, 0)) == Some((x, FinalCont(st, p, k)))
  {
    hide RenameArgs, ConvertArgs, WellScopedArgs, ConvertibleArgs, CoversArgs, OccArgs, SetTargetsArgs, LetNamesArgs,
         FinalArgs, AtCont, FinalCont, NeedCont;
    OtherArgs(st, p, args, true, 0);
    if args.Cons? && args.head.ArgVal? {
      ValueArg(st, p, args, true, 0);
      var a1 := args.tail;
      OtherArgs(st, p, a1, true, 1);
      if a1.Cons? && a1.head.ArgVal? {
        ValueArg(st, p, a1, true, 1);
        OtherArgs(st, p, a1.tail, true, 2);
        if a1.tail.Cons? && a1.tail.head.ArgCont? && a1.tail.tail == Nil {
          LoneContArg(st, p, a1.tail, a1.tail.head.cont, true, 2);
        }
      }
    }
  }

  // ---- Making a function ------------------------------------------------------------------------

  lemma {:induction false} LetFnSame(st: Setting, p: Place, fuel: nat, e: Expr, m: Both)
    requires e.LetFn? && At(st, p, e) && Paired(st, p, Need(st, e, p.stack), m)
    ensures SourceRun(st, fuel, e, m) == FlatRun(st, fuel, Final(st, p, e), m)
    decreases fuel, 1, e, 4
  {
    NewClosure(st, p, e, m.source, Seen(st, m));
    var def := ConvertExpr(st.snap, e, p.stack, p.next).0;
    DefineSame(st, p, fuel, e, m, def, FlatMachine.CaptureAll(RenameCaptures(def.cont.body.captures, p.ren), Seen(st, m)).value);
  }

  lemma {:induction false} DefineSame(st: Setting, p: Place, fuel: nat, e: Expr, m: Both, def: Expr, entries: seq<Entry>)
    requires e.LetFn? && At(st, p, e) && Paired(st, p, Need(st, e, p.stack), m)
    requires def == ConvertExpr(st.snap, e, p.stack, p.next).0 && def.LetFn? && def.cont.Inline? && def.cont.body.Closure?
    requires FlatMachine.CaptureAll(RenameCaptures(def.cont.body.captures, p.ren), Seen(st, m)) == Some(entries)
    requires TakenFrom(entries, FreeVarsOf(e.params, e.fnBody, p.stack), m.source)
    ensures SourceRun(st, fuel, e, m) == FlatRun(st, fuel, Rename(def, p.ren), m)
    decreases fuel, 1, e, 3
  {
    hide EnvMachine.Eval, EnvMachine.RunCall, EnvMachine.Invoke, FlatMachine.Eval, FlatMachine.RunCall, FlatMachine.Invoke;
    DefinitionShape(st, p, e);
    var g := FlatMachine.FlatFn(def.name.id, entries);
    var fn := EnvMachine.EnvFn(e.params, e.fnBody, m.source);
    var o := Origin(p.stack, p.scope, p.next, NextAfterBody(st, p, e));
    NewSameFn(st, p, e, m.source, Seen(st, m), g);
    var m' := m.(fs := m.fs + [fn], gs := m.gs + [g], os := m.os + [o]);
    StepLetFn(st, fuel, e, def, p.ren, entries, m, m');
    PairedFn(st, p, Need(st, e, p.stack), m, fn, g, o);
    ClosureContSame(st, p, fuel, e, AfterFuncref(st, p, e), m', FnAt(|m.fs|));
  }

  /** A capture record as the source environment has it. */
  ghost predicate TakenFrom(entries: seq<Entry>, frees: seq<CpsId>, env: Env) {
    |entries| == |frees| && forall i :: 0 <= i < |frees| ==> frees[i] in env && entries[i] == env[frees[i]]
  }

  /** The first id after those of the lifted function and its funcref. */
  function AfterFuncref(st: Setting, p: Place, e: Expr): nat
    requires e.LetFn?
  {
    var b := ConvertExpr(st.snap, e.fnBody, Enter(e.params, p.stack), p.next);
    var frees := Collect(b.0, ParamIds(e.params), []);
    LiftedId(frees, NextAfterBody(st, p, e)) + 2
  }

  lemma DefinitionShape(st: Setting, p: Place, e: Expr)
    requires e.LetFn? && At(st, p, e)
    ensures var def := ConvertExpr(st.snap, e, p.stack, p.next).0;
            var b := ConvertExpr(st.snap, e.fnBody, Enter(e.params, p.stack), p.next);
            var c := ConvertCont(st.snap, e.cont, p.stack, b.1).0;
            && def.LetFn? && def.cont.Inline? && def.cont.body.Closure?
            && def.cont.body.funcref.kind == Ref(def.name.id) && def.name.id >= st.pr.base && def.name.id !in p.ren
            && def.cont.body.cont == ClosureCont(e.name, c, p.stack, AfterFuncref(st, p, e)).0
            && def.cont.body.cont.Inline?
  {
    var b := ConvertExpr(st.snap, e.fnBody, Enter(e.params, p.stack), p.next);
    var c := ConvertCont(st.snap, e.cont, p.stack, b.1);
    assert LiftedId(Collect(b.0, ParamIds(e.params), []), c.1) >= c.1;
  }

  /** Where the locals of a lifted function start. */
  function NextAfterBody(st: Setting, p: Place, e: Expr): nat
    requires e.LetFn?
  {
    var b := ConvertExpr(st.snap, e.fnBody, Enter(e.params, p.stack), p.next);
    ConvertCont(st.snap, e.cont, p.stack, b.1).1
  }

  /** The source machine makes an environment function; the flat one passes over the definition and
      builds a closure. */
  lemma StepLetFn(st: Setting, fuel: nat, e: Expr, def: Expr, ren: Renaming, entries: seq<Entry>, m: Both, m': Both)
    requires e.LetFn? && def.LetFn? && def.cont.Inline? && def.cont.body.Closure?
    requires def.cont.body.funcref.kind == Ref(def.name.id) && def.name.id !in ren && def.cont.body.cont.Inline?
    requires FlatMachine.CaptureAll(RenameCaptures(def.cont.body.captures, ren), Seen(st, m)) == Some(entries)
    requires |m.fs| == |m.gs|
    requires m' == m.(fs := m.fs + [EnvMachine.EnvFn(e.params, e.fnBody, m.source)],
                      gs := m.gs + [FlatMachine.FlatFn(def.name.id, entries)], os := m'.os)
    ensures SourceRun(st, fuel, e, m)
            == SourceCall(st, fuel, e.cont, ContArgs(e.cont, [FnAt(|m.fs|)], m.ctx),
                          m'.(source := m.source[e.name.id := Holds(FnAt(|m.fs|))]))
    ensures FlatRun(st, fuel, Rename(def, ren), m)
            == FlatCall(st, fuel, RenameCont(def.cont.body.cont, ren), [FnAt(|m.fs|)], m')
  {
    var closure := Rename(def.cont.body, ren);
    assert Rename(def, ren).cont == Inline(def.cont.args, closure);
    assert closure.funcref.kind == Ref(def.name.id);
    var k := RenameCont(def.cont.body.cont, ren);
    assert closure.cont == k && k.Inline?;
    assert FlatRun(st, fuel, Rename(def, ren), m) == FlatRun(st, fuel, closure, m);
  }

  /** The variables a function captures are ones its surroundings agree on. */
  lemma NewFnFrees(st: Setting, p: Place, e: Expr)
    requires e.LetFn? && At(st, p, e)
    ensures var frees := FreeVarsOf(e.params, e.fnBody, p.stack);
            var b := ConvertExpr(st.snap, e.fnBody, Enter(e.params, p.stack), p.next).0;
            && Collect(b, ParamIds(e.params), []) == frees
            && Elements(frees) <= Need(st, e, p.stack) && Elements(frees) <= p.scope
  {
    var inner := Enter(e.params, p.stack);
    BelowParams(e.params, p.scope, st.pr.base);
    CapturesAreFreeVars(st.snap, e.params, e.fnBody, p.stack, p.next, p.scope, st.pr);
    var occ := Occ(e.fnBody, inner);
    InInsertAll([], Minus(occ, ParamIds(e.params)));
  }

  lemma NewClosure(st: Setting, p: Place, e: Expr, source: Env, flat: Env)
    requires e.LetFn? && At(st, p, e)
    requires Agree(Need(st, e, p.stack), p.ren, source, flat, st.pr.slots)
    ensures var def := ConvertExpr(st.snap, e, p.stack, p.next).0;
            var frees := FreeVarsOf(e.params, e.fnBody, p.stack);
            && def.LetFn? && def.cont.Inline? && def.cont.body.Closure?
            && var es := FlatMachine.CaptureAll(RenameCaptures(def.cont.body.captures, p.ren), flat);
               es.Some? && TakenFrom(es.value, frees, source)
  {
    NewFnFrees(st, p, e);
    var frees := FreeVarsOf(e.params, e.fnBody, p.stack);
    AgreeLess(Elements(frees), Need(st, e, p.stack), p.ren, source, flat, st.pr.slots);
    SameCaptures(ConvertExpr(st.snap, e, p.stack, p.next).0.cont.body.captures, frees, p.ren, source, flat, st.pr.slots);
  }

  lemma NewSameFn(st: Setting, p: Place, e: Expr, source: Env, flat: Env, g: FlatMachine.FlatFn)
    requires e.LetFn? && ValidSetting(st) && At(st, p, e)
    requires Agree(Need(st, e, p.stack), p.ren, source, flat, st.pr.slots)
    requires g.code == ConvertExpr(st.snap, e, p.stack, p.next).0.name.id
    requires TakenFrom(g.captures, FreeVarsOf(e.params, e.fnBody, p.stack), source)
    ensures SameFn(st, EnvMachine.EnvFn(e.params, e.fnBody, source), g,
                   Origin(p.stack, p.scope, p.next, NextAfterBody(st, p, e)))
  {
    var inner := Enter(e.params, p.stack);
    var b := ConvertExpr(st.snap, e.fnBody, inner, p.next);
    var frees := FreeVarsOf(e.params, e.fnBody, p.stack);
    NewFnFrees(st, p, e);
    NewFnDefined(st, p, e);
    forall i | 0 <= i < |frees|
      ensures frees[i] in source && source[frees[i]] == g.captures[i]
              && !g.captures[i].Record? && (g.captures[i].Cell? <==> frees[i] in st.pr.slots)
    {
      assert frees[i] in Elements(frees);
      assert AgreeAt(frees[i], p.ren, source, flat, st.pr.slots);
    }
  }

  /** The table holds the lifted definition, and its body is a place of its own. */
  lemma NewFnDefined(st: Setting, p: Place, e: Expr)
    requires e.LetFn? && At(st, p, e)
    ensures var inner := Enter(e.params, p.stack);
            var code := ConvertExpr(st.snap, e, p.stack, p.next).0.name.id;
            && code in st.table
            && st.table[code] == LiftedDef(st.snap, e.params, ConvertExpr(st.snap, e.fnBody, inner, p.next).0,
                                           FreeVarsOf(e.params, e.fnBody, p.stack), NextAfterBody(st, p, e))
            && At(st, Place(inner, p.scope + ParamIds(e.params), p.next, map[]), e.fnBody)
  {
    NewFnFrees(st, p, e);
    BelowParams(e.params, p.scope, st.pr.base);
    CtxParamIsParam(e.params);
    CoversLifted(st.table, st.snap, e.params, ConvertExpr(st.snap, e.fnBody, Enter(e.params, p.stack), p.next).0,
                 FreeVarsOf(e.params, e.fnBody, p.stack), NextAfterBody(st, p, e));
  }

  lemma CoversLifted(table: FlatMachine.FnTable, snap: Snapshot, params: seq<Param>, body: Expr, frees: seq<CpsId>, first: nat)
    ensures Covers(table, LiftedDef(snap, params, body, frees, first).body) == Covers(table, body)
  {
    CoversRename(table, body, RenamingTo(frees, first));
  }

  /** Renaming does not touch definitions. */
  lemma {:induction false} CoversRename(table: FlatMachine.FnTable, e: Expr, ren: Renaming)
    ensures Covers(table, Rename(e, ren)) == Covers(table, e)
    decreases e
  {
    match e
    case LetVal(_, _, _, cont) => CoversRenameCont(table, cont, ren);
    case LetFn(_, _, _, _, _, cont) => CoversRenameCont(table, cont, ren);
    case App(_, func, args) => CoversRenameArgs(table, args, ren, func == CallBuiltIn(Pub), 0);
    case If(_, _, thn, els) =>
      CoversRename(table, thn, ren);
      CoversRename(table, els, ren);
    case LetRec(_, _, body) => CoversRename(table, body, ren);
    case Set(_, _, _, cont) => CoversRenameCont(table, cont, ren);
    case Closure(_, _, _, cont) => CoversRenameCont(table, cont, ren);
    case LetCaps(_, _, _, cont) => CoversRenameCont(table, cont, ren);
  }

  lemma {:induction false} CoversRenameCont(table: FlatMachine.FnTable, c: Cont, ren: Renaming)
    ensures CoversCont(table, RenameCont(c, ren)) == CoversCont(table, c)
    decreases c
  {
    if c.Inline? {
      CoversRename(table, c.body, ren);
    }
  }

  lemma {:induction false} CoversRenameArgs(table: FlatMachine.FnTable, args: List<Arg>, ren: Renaming, isPub: bool, index: nat)
    ensures CoversArgs(table, RenameArgs(args, ren, isPub, index)) == CoversArgs(table, args)
    decreases args
  {
    match args
    case Nil =>
    case Cons(a, rest) =>
      CoversRenameArgs(table, rest, ren, isPub, index + 1);
      match a
      case ArgCont(c) => CoversRenameCont(table, c, ren);
      case ArgExpr(x) => CoversRename(table, x, ren);
      case _ =>
  }

  /** After the closure is made, both machines go on with the original continuation. */
  lemma {:induction false} ClosureContSame(st: Setting, p: Place, fuel: nat, e: Expr, at: nat, m: Both, f: Value)
    requires e.LetFn? && At(st, p, e) && Paired(st, p, Need(st, e, p.stack), m)
    ensures var b := ConvertExpr(st.snap, e.fnBody, Enter(e.params, p.stack), p.next);
            var c := ConvertCont(st.snap, e.cont, p.stack, b.1).0;
            SourceCall(st, fuel, e.cont, ContArgs(e.cont, [f], m.ctx), m.(source := m.source[e.name.id := Holds(f)]))
            == FlatCall(st, fuel, RenameCont(ClosureCont(e.name, c, p.stack, at).0, p.ren), [f], m)
    decreases fuel, 1, e, 1
  {
    var b := ConvertExpr(st.snap, e.fnBody, Enter(e.params, p.stack), p.next);
    var c := ConvertCont(st.snap, e.cont, p.stack, b.1).0;
    if e.cont.ContTo? {
      assert c == e.cont && ContArgs(e.cont, [f], m.ctx) == [m.ctx] + [f] == [m.ctx, f];
      ForwardSame(st, p, fuel, e, at, m, f);
    } else {
      assert c.Inline? && ContArgs(e.cont, [f], m.ctx) == [f];
      assert RenameCont(ClosureCont(e.name, c, p.stack, at).0, p.ren) == Inline([e.name], Rename(c.body, p.ren));
      InlineClosureSame(st, p, fuel, e, m, f);
    }
  }

  lemma {:induction false} InlineClosureSame(st: Setting, p: Place, fuel: nat, e: Expr, m: Both, f: Value)
    requires e.LetFn? && e.cont.Inline? && At(st, p, e) && Paired(st, p, Need(st, e, p.stack), m)
    ensures var b := ConvertExpr(st.snap, e.fnBody, Enter(e.params, p.stack), p.next);
            var c := ConvertCont(st.snap, e.cont, p.stack, b.1).0;
            SourceCall(st, fuel, e.cont, [f], m.(source := m.source[e.name.id := Holds(f)]))
            == FlatCall(st, fuel, Inline([e.name], Rename(c.body, p.ren)), [f], m)
    decreases fuel, 1, e, 0
  {
    hide Paired, At, Need, BindParams, Seen,
         EnvMachine.Eval, EnvMachine.RunCall, EnvMachine.Invoke, FlatMachine.Eval, FlatMachine.RunCall, FlatMachine.Invoke;
    var name, rest := e.name, e.cont.body;
    var named: Env := map[name.id := Holds(f)];
    var p' := p.(scope := p.scope + {name.id}, next := ConvertExpr(st.snap, e.fnBody, Enter(e.params, p.stack), p.next).1);
    BindOne(name, f);
    AtRest(st, p, e);
    DroppedArg(st, p, e, f);
    var extra := BindParams(Names(e.cont.args), [f]).value;
    var m' := Bind(m, named);
    PairedNamed(st, p, p', e, m, f, extra);
    PutIsAdd(m.source, name.id, f);
    EvalSame(st, p', fuel, rest, m'.(source := m'.source + extra));
    var rest' := Final(st, p', rest);
    StepInline(st, fuel, [name], rest, rest', [f], named, m);
    StepInline(st, fuel, e.cont.args, rest, rest', [f], extra, m');
  }

  /** Binding the closure under its name pairs the states again, and the argument that is dropped changes nothing. */
  lemma PairedNamed(st: Setting, p: Place, p': Place, e: Expr, m: Both, f: Value, extra: Env)
    requires e.LetFn? && e.cont.Inline? && At(st, p, e) && Paired(st, p, Need(st, e, p.stack), m)
    requires p' == p.(scope := p.scope + {e.name.id}, next := p'.next)
    requires forall x :: x in extra ==>
               x !in p.scope && extra[x] == Holds(f) && (x == e.name.id || x !in Need(st, e.cont.body, p.stack))
    ensures var m' := Bind(m, map[e.name.id := Holds(f)]);
            Paired(st, p', Need(st, e.cont.body, p.stack), m'.(source := m'.source + extra))
  {
    assert NewValue(e.name, p.scope, st.pr) && ValidPlace(st, p) && WellScoped(e, p.scope, st.pr);
    hide Paired, Need, At, WellScoped;
    var need, named: Env := Need(st, e.cont.body, p.stack), map[e.name.id := Holds(f)];
    assert named.Keys == {e.name.id};
    RestNeeds(st, p, e);
    PairedMore(st, p, p.(scope := p.scope + {e.name.id}), need, Need(st, e, p.stack), m, named);
    PairedExtra(st, p', need, Bind(m, named), extra);
  }

  /** Source bindings that nothing reads, or that repeat what is bound already, keep the states paired. */
  lemma PairedExtra(st: Setting, p: Place, need: set<CpsId>, m: Both, extra: Env)
    requires Paired(st, p.(next := 0), need, m) && StackIn(p.stack, p.scope)
    requires forall x :: x in extra ==> (x !in need && x !in p.scope) || (x in m.source && m.source[x] == extra[x])
    ensures Paired(st, p, need, m.(source := m.source + extra))
  {
    hide SameFns, AgreeAt, ValidSetting, FnsKept, Sees;
    forall x | x in need
      ensures AgreeAt(x, p.ren, m.source + extra, Seen(st, m), st.pr.slots)
    {
      AgreeSame(x, p.ren, m.source, m.source + extra, Seen(st, m), st.pr.slots);
    }
    if p.stack != [] {
      var c := p.stack[|p.stack| - 1];
      assert c in p.scope && c in m.source && (m.source + extra)[c] == m.source[c];
    }
  }

  lemma AgreeSame(x: CpsId, ren: Renaming, source: Env, source': Env, flat: Env, slots: set<CpsId>)
    requires AgreeAt(x, ren, source, flat, slots) && (x in source ==> x in source' && source'[x] == source[x])
    ensures AgreeAt(x, ren, source', flat, slots)
  {
  }

  /** The body after a definition is a place whose scope has the function's name only. */
  lemma AtRest(st: Setting, p: Place, e: Expr)
    requires e.LetFn? && e.cont.Inline? && At(st, p, e)
    ensures var next := ConvertExpr(st.snap, e.fnBody, Enter(e.params, p.stack), p.next).1;
            At(st, p.(scope := p.scope + {e.name.id}, next := next), e.cont.body)
  {
    hide Covers, ConvertExpr, ReachesSlots, Need;
    var rest := e.cont.body;
    CoversRest(st, p, e);
    assert ConvertibleCont(e.cont, p.stack, SlotsAt(st)) == Convertible(rest, p.stack, SlotsAt(st));
    assert WellScoped(rest, p.scope + {e.name.id}, st.pr) && e.name.id < st.pr.base;
    assert LetNames(e) == LetNamesCont(e.cont) == LetNames(rest);
  }

  /** What the body after a definition needs is in scope there, and the definition needs it too. */
  lemma RestNeeds(st: Setting, p: Place, e: Expr)
    requires e.LetFn? && e.cont.Inline? && WellScoped(e, p.scope, st.pr) && StackIn(p.stack, p.scope)
    ensures Need(st, e.cont.body, p.stack) <= p.scope + {e.name.id}
    ensures Need(st, e.cont.body, p.stack) <= Need(st, e, p.stack) + {e.name.id}
  {
    var rest := e.cont.body;
    assert WellScoped(rest, p.scope + {e.name.id}, st.pr);
    hide WellScoped;
    OccInScope(rest, p.stack, p.scope + {e.name.id}, st.pr);
    SetTargetsInScope(rest, p.scope + {e.name.id}, st.pr);
    LetNamesInScope(rest, p.scope + {e.name.id}, st.pr);
    InMinus(Occ(rest, p.stack), {e.name.id});
    var occ := Occ(rest, p.stack);
    forall x | x in Elements(occ)
      ensures x in p.scope + {e.name.id} && x in Elements(Occ(e, p.stack)) + {e.name.id}
    {
      assert x in occ;
      assert x == e.name.id || x in Minus(occ, {e.name.id});
    }
    assert SetTargets(e) >= SetTargets(rest) - {e.name.id};
    assert LetNames(e) == LetNamesCont(e.cont) == LetNames(rest);
  }

  lemma CoversRest(st: Setting, p: Place, e: Expr)
    requires e.LetFn? && e.cont.Inline? && At(st, p, e)
    ensures ForwardableCont(e.cont, p.stack != []) == Forwardable(e.cont.body, p.stack != [])
    ensures var next := ConvertExpr(st.snap, e.fnBody, Enter(e.params, p.stack), p.next).1;
            Covers(st.table, ConvertExpr(st.snap, e.cont.body, p.stack, next).0)
  {
    DefinitionShape(st, p, e);
    var def := ConvertExpr(st.snap, e, p.stack, p.next).0;
    var closure := def.cont.body;
    assert Covers(st.table, def) ==> CoversCont(st.table, def.cont);
    assert CoversCont(st.table, def.cont) == Covers(st.table, closure);
    assert Covers(st.table, closure) == CoversCont(st.table, closure.cont);
    assert CoversCont(st.table, closure.cont) == Covers(st.table, closure.cont.body);
  }

  /** The argument a definition's continuation may carry is the name itself or read by nobody. */
  lemma DroppedArg(st: Setting, p: Place, e: Expr, f: Value)
    requires e.LetFn? && e.cont.Inline? && At(st, p, e)
    ensures var extra := BindParams(Names(e.cont.args), [f]);
            && extra.Some?
            && forall x :: x in extra.value ==>
                 x !in p.scope && extra.value[x] == Holds(f) && (x == e.name.id || x !in Need(st, e.cont.body, p.stack))
  {
    hide Agree, AgreeAt, BindParams, Convertible, ConvertExpr, Forwardable;
    var args := e.cont.args;
    if args == [] {
      BindNone([f]);
    } else {
      assert args == [args[0]];
      BindOne(args[0], f);
      RestNeeds(st, p, e);
      assert args[0] in args;
    }
  }

  /** The synthesised call names the continuation and the innermost context, neither of them the function's name. */
  lemma ForwardNames(st: Setting, p: Place, e: Expr, at: nat)
    requires e.LetFn? && e.cont.ContTo? && At(st, p, e)
    ensures p.stack != []
    ensures var k, c := e.cont.target, p.stack[|p.stack| - 1];
            var k', c' := RenameId(k, p.ren), RenameId(c, p.ren);
            && k in Need(st, e, p.stack) && c in Need(st, e, p.stack) && k != e.name.id && k' != e.name.id && c' != e.name.id
            && RenameCont(ClosureCont(e.name, e.cont, p.stack, at).0, p.ren) == Inline([e.name], ForwardCall(k', c', e.name.id, at))
  {
    hide Rename, RenameCont, ConvertExpr, ReachesSlots, Covers, Convertible;
    var name, k := e.name.id, e.cont.target;
    var c := p.stack[|p.stack| - 1];
    assert [k] + Innermost(p.stack) == [k, c];
    InMinus([k, c], {name});
    assert k in Occ(e, p.stack) && c in Occ(e, p.stack) by {
      assert k in Minus([k, c], {name}) && c in Minus([k, c], {name});
    }
    assert RenameId(name, p.ren) == name;
    ForwardRenamed(k, c, e.name, at, p.ren);
  }

  /** A named continuation gets the context and the closure, by the synthesised call. */
  lemma {:induction false} ForwardSame(st: Setting, p: Place, fuel: nat, e: Expr, at: nat, m: Both, f: Value)
    requires e.LetFn? && e.cont.ContTo? && At(st, p, e) && Paired(st, p, Need(st, e, p.stack), m)
    ensures SourceCall(st, fuel, e.cont, [m.ctx, f], m.(source := m.source[e.name.id := Holds(f)]))
            == FlatCall(st, fuel, RenameCont(ClosureCont(e.name, e.cont, p.stack, at).0, p.ren), [f], m)
    decreases fuel, 1, e, 0
  {
    hide At, Need, SameFns, RenameCont, ClosureCont, FlatCall, SourceCall, Paired,
         EnvMachine.Eval, EnvMachine.RunCall, EnvMachine.Invoke, FlatMachine.Eval, FlatMachine.RunCall, FlatMachine.Invoke;
    ForwardNames(st, p, e, at);
    var k, c := e.cont.target, p.stack[|p.stack| - 1];
    ForwardFinds(st, p, Need(st, e, p.stack), m, k);
    ForwardRuns(st, fuel, e.name, RenameId(k, p.ren), RenameId(c, p.ren), at, m, f);
    StepContTo(st, fuel, k, [m.ctx, f], m.(source := m.source[e.name.id := Holds(f)]));
    var callee := ReadId(k, m.source, m.sh);
    if callee.Some? {
      InvokeSame(st, fuel, callee.value, [m.ctx, f], m);
    }
  }

  /** Both machines find the continuation and the innermost context alike. */
  lemma ForwardFinds(st: Setting, p: Place, need: set<CpsId>, m: Both, k: CpsId)
    requires Paired(st, p, need, m) && p.stack != [] && k in need && p.stack[|p.stack| - 1] in need
    ensures var c' := RenameId(p.stack[|p.stack| - 1], p.ren);
            c' in Seen(st, m) && Seen(st, m)[c'] == Holds(m.ctx)
    ensures ReadId(k, m.source, m.sh) == ReadId(RenameId(k, p.ren), Seen(st, m), m.sh)
    ensures ValidSetting(st) && SameFns(st, m.fs, m.gs, m.os) && FnsKept(st, m.fs, m.os, m.sh)
  {
    hide Sees, SameFns, ValidSetting, OuterKept, FlatKept, FnsKept;
    assert AgreeAt(k, p.ren, m.source, Seen(st, m), st.pr.slots);
    assert AgreeAt(p.stack[|p.stack| - 1], p.ren, m.source, Seen(st, m), st.pr.slots);
  }

  lemma StepContTo(st: Setting, fuel: nat, k: CpsId, args: seq<Value>, m: Both)
    ensures SourceCall(st, fuel, ContTo(k), args, m)
            == (match ReadId(k, m.source, m.sh)
                case None => Trap(m.sh)
                case Some(f) => SourceInvoke(st, fuel, f, args, m))
  {
  }

  /** What is found once the closure is bound under its name. */
  lemma SeesNamed(slots: set<CpsId>, flat: Env, sh: Shared, name: CpsId, f: Value)
    ensures var seen, seen' := Sees(slots, flat, sh), Sees(slots, flat + map[name := Holds(f)], sh);
            seen' == seen[name := Holds(f)]
  {
  }

  lemma ForwardArgs(k: CpsId, c: CpsId, name: CpsId, at: nat, env: Env, sh: Shared, ctx: Value, f: Value)
    requires c in env && env[c] == Holds(ctx) && name in env && env[name] == Holds(f)
    ensures FlatMachine.EvalArgs(ForwardCall(k, c, name, at).args, env, sh) == Some([ctx, f])
  {
    var args := ForwardCall(k, c, name, at).args;
    assert FlatMachine.EvalArg(args.head, env, sh) == Some([ctx]) && FlatMachine.EvalArg(args.tail.head, env, sh) == Some([f]);
    assert FlatMachine.EvalArgs(args.tail.tail, env, sh) == Some([]);
    assert [f] + [] == [f] && [ctx] + [f] == [ctx, f];
  }

  lemma ForwardRuns(st: Setting, fuel: nat, name: BindNode, k: CpsId, c: CpsId, at: nat, m: Both, f: Value)
    requires k != name.id && c != name.id
    requires c in Seen(st, m) && Seen(st, m)[c] == Holds(m.ctx)
    ensures FlatCall(st, fuel, Inline([name], ForwardCall(k, c, name.id, at)), [f], m)
            == (match ReadId(k, Seen(st, m), m.sh)
                case None => Trap(m.sh)
                case Some(callee) => FlatInvoke(st, fuel, callee, [m.ctx, f], m))
  {
    hide Sees, FlatMachine.EvalArgs, BindParams;
    var named: Env := map[name.id := Holds(f)];
    BindOne(name, f);
    SeesNamed(st.rt.slots, m.flat, m.sh, name.id, f);
    ForwardArgs(k, c, name.id, at, Sees(st.rt.slots, m.flat + named, m.sh), m.sh, m.ctx, f);
    var call := ForwardCall(k, c, name.id, at);
    StepInline(st, fuel, [name], call, call, [f], named, m);
  }

  // ---- Calling a function -----------------------------------------------------------------------

  lemma {:induction false} InvokeSame(st: Setting, fuel: nat, f: Value, args: seq<Value>, m: Both)
    requires ValidSetting(st) && SameFns(st, m.fs, m.gs, m.os) && FnsKept(st, m.fs, m.os, m.sh)
    ensures SourceInvoke(st, fuel, f, args, m) == FlatInvoke(st, fuel, f, args, m)
    decreases fuel, 0, 1
  {
    if fuel > 0 && f.FnAt? && f.addr < |m.fs| {
      var bound := BindParams(m.fs[f.addr].params, args);
      if bound.Some? {
        CallFnSame(st, fuel, f, args, m, m.fs[f.addr], m.gs[f.addr], m.os[f.addr], bound.value);
      } else {
        StepNoArgs(st, fuel, f, args, m);
      }
    } else {
      StepNoFn(st, fuel, f, args, m);
    }
  }

  lemma {:induction false} CallFnSame(st: Setting, fuel: nat, f: Value, args: seq<Value>, m: Both, fn: EnvMachine.EnvFn,
                                      g: FlatMachine.FlatFn, o: Origin, bound: Env)
    requires ValidSetting(st) && SameFns(st, m.fs, m.gs, m.os) && fuel > 0 && f.FnAt? && f.addr < |m.fs|
    requires FnsKept(st, m.fs, m.os, m.sh)
    requires fn == m.fs[f.addr] && g == m.gs[f.addr] && o == m.os[f.addr] && SameFn(st, fn, g, o)
    requires BindParams(fn.params, args) == Some(bound)
    ensures SourceInvoke(st, fuel, f, args, m) == FlatInvoke(st, fuel, f, args, m)
    decreases fuel, 0, 0
  {
    hide SameFn, BindParams, SourceInvoke, FlatInvoke, SourceRun, FlatRun, Enter, FreeVarsOf, Final, Captured, CtxOf,
         EntryEnv, EntryPlace,
         EnvMachine.Eval, EnvMachine.RunCall, EnvMachine.Invoke, FlatMachine.Eval, FlatMachine.RunCall, FlatMachine.Invoke;
    EntryTable(st, fn, g, o);
    StepInvoke(st, fuel, f, args, m, fn, g, bound, o.first, FreeVarsOf(fn.params, fn.body, o.stack),
               Final(st, EntryPlace(fn, o), fn.body), EntryState(st, fn, g, o, bound, args, m));
    BodySame(st, fuel - 1, fn, g, o, bound, args, m);
  }

  lemma StepNoArgs(st: Setting, fuel: nat, f: Value, args: seq<Value>, m: Both)
    requires SameFns(st, m.fs, m.gs, m.os) && fuel > 0 && f.FnAt? && f.addr < |m.fs|
    requires BindParams(m.fs[f.addr].params, args) == None
    ensures SourceInvoke(st, fuel, f, args, m) == FlatInvoke(st, fuel, f, args, m)
  {
    hide Final, Enter, At, FreeVarsOf, ReachesSlots, OwnsCtx, StackIn, Below, NewParams, Captured, ConvertExpr, Rename, Locals;
    var fn, g, o := m.fs[f.addr], m.gs[f.addr], m.os[f.addr];
    assert SameFn(st, fn, g, o);
    OpenFn(st, fn, g, o);
    assert st.table[g.code].params[1..] == fn.params;
  }

  lemma StepNoFn(st: Setting, fuel: nat, f: Value, args: seq<Value>, m: Both)
    requires |m.fs| == |m.gs| && !(fuel > 0 && f.FnAt? && f.addr < |m.fs|)
    ensures SourceInvoke(st, fuel, f, args, m) == FlatInvoke(st, fuel, f, args, m)
  {
  }

  lemma {:induction false} BodySame(st: Setting, fuel: nat, fn: EnvMachine.EnvFn, g: FlatMachine.FlatFn, o: Origin,
                                    bound: Env, args: seq<Value>, m: Both)
    requires ValidSetting(st) && SameFns(st, m.fs, m.gs, m.os) && SameFn(st, fn, g, o)
    requires FnsKept(st, m.fs, m.os, m.sh) && OuterKept(st, o.scope, fn.env, m.sh)
    requires BindParams(fn.params, args) == Some(bound) && |g.captures| == |FreeVarsOf(fn.params, fn.body, o.stack)|
    ensures var m' := EntryState(st, fn, g, o, bound, args, m);
            SourceRun(st, fuel, fn.body, m') == FlatRun(st, fuel, Final(st, EntryPlace(fn, o), fn.body), m')
    decreases fuel, 3
  {
    EntryPaired(st, fn, g, o, bound, args, m);
    EvalSame(st, EntryPlace(fn, o), fuel, fn.body, EntryState(st, fn, g, o, bound, args, m));
  }

  lemma EntryTable(st: Setting, fn: EnvMachine.EnvFn, g: FlatMachine.FlatFn, o: Origin)
    requires SameFn(st, fn, g, o)
    ensures var frees := FreeVarsOf(fn.params, fn.body, o.stack);
            var capsId := o.first + |frees|;
            && g.code in st.table && Captured(g.captures, frees, fn.env, st.pr.slots)
            && st.table[g.code].params == [Name(BindNode(capsId, Caps))] + fn.params
            && st.table[g.code].body ==
               (if frees == [] then Final(st, EntryPlace(fn, o), fn.body)
                else LetCaps(capsId + 2, Val(capsId + 1, Ref(capsId)), Locals(st.snap, frees, o.first),
                             Inline([], Final(st, EntryPlace(fn, o), fn.body))))
  {
    OpenFn(st, fn, g, o);
  }

  function EntryPlace(fn: EnvMachine.EnvFn, o: Origin): Place {
    Place(Enter(fn.params, o.stack), o.scope + ParamIds(fn.params), o.next,
          RenamingTo(FreeVarsOf(fn.params, fn.body, o.stack), o.first))
  }

  /** Both machines once the parameters are bound and the record is unpacked. */
  function EntryState(st: Setting, fn: EnvMachine.EnvFn, g: FlatMachine.FlatFn, o: Origin, bound: Env, args: seq<Value>,
                      m: Both): Both
    requires |g.captures| == |FreeVarsOf(fn.params, fn.body, o.stack)|
  {
    var frees := FreeVarsOf(fn.params, fn.body, o.stack);
    m.(source := fn.env + bound, flat := EntryEnv(st, frees, o.first, g.captures, bound), ctx := CtxOf(args))
  }

  function EntryEnv(st: Setting, frees: seq<CpsId>, first: nat, captures: seq<Entry>, bound: Env): Env
    requires |captures| == |frees|
  {
    bound[first + |frees| := Record(captures)] + FlatMachine.Unpack(Locals(st.snap, frees, first), captures)
  }

  lemma StepFnCall(st: Setting, fuel: nat, f: Value, args: seq<Value>, m: Both, fn: EnvMachine.EnvFn, g: FlatMachine.FlatFn,
                   bound: Env, capsId: CpsId, m': Both)
    requires fuel > 0 && |m.fs| == |m.gs| && f.FnAt? && f.addr < |m.fs|
    requires fn == m.fs[f.addr] && g == m.gs[f.addr] && BindParams(fn.params, args) == Some(bound)
    requires g.code in st.table && st.table[g.code].params == [Name(BindNode(capsId, Caps))] + fn.params
    requires m' == m.(source := fn.env + bound, flat := m'.flat, ctx := CtxOf(args))
    ensures SourceInvoke(st, fuel, f, args, m) == SourceRun(st, fuel - 1, fn.body, m')
    ensures FlatInvoke(st, fuel, f, args, m)
            == FlatRun(st, fuel - 1, st.table[g.code].body, m'.(flat := bound[capsId := Record(g.captures)]))
  {
    hide BindParams, Sees, CtxOf;
    assert st.table[g.code].params[1..] == fn.params;
  }

  /** A call runs the source body, and the lifted body once its captures are unpacked. */
  lemma StepInvoke(st: Setting, fuel: nat, f: Value, args: seq<Value>, m: Both, fn: EnvMachine.EnvFn,
                   g: FlatMachine.FlatFn, bound: Env, first: nat, frees: seq<CpsId>, body: Expr, m': Both)
    requires ValidSetting(st) && fuel > 0 && |m.fs| == |m.gs| && f.FnAt? && f.addr < |m.fs|
    requires fn == m.fs[f.addr] && g == m.gs[f.addr] && BindParams(fn.params, args) == Some(bound)
    requires g.code in st.table && Captured(g.captures, frees, fn.env, st.pr.slots)
    requires st.table[g.code].params == [Name(BindNode(first + |frees|, Caps))] + fn.params
    requires st.table[g.code].body ==
             (if frees == [] then body
              else LetCaps(first + |frees| + 2, Val(first + |frees| + 1, Ref(first + |frees|)),
                           Locals(st.snap, frees, first), Inline([], body)))
    requires m' == m.(source := fn.env + bound, flat := EntryEnv(st, frees, first, g.captures, bound), ctx := CtxOf(args))
    ensures SourceInvoke(st, fuel, f, args, m) == SourceRun(st, fuel - 1, fn.body, m')
    ensures FlatInvoke(st, fuel, f, args, m) == FlatRun(st, fuel - 1, body, m')
  {
    hide Locals, FlatMachine.Fits, ValidSetting, Sees, SourceRun, FlatRun, FlatInvoke;
    StepFnCall(st, fuel, f, args, m, fn, g, bound, first + |frees|, m');
    var def := st.table[g.code];
    var capsId := first + |frees|;
    var entry := bound[capsId := Record(g.captures)];
    if frees == [] {
      assert EntryEnv(st, frees, first, g.captures, bound) == entry;
    } else {
      CapturesFit(st, frees, first, g.captures, fn.env);
      StepLetCaps(st, fuel - 1, capsId, Locals(st.snap, frees, first), body, g.captures, m'.(flat := entry));
    }
  }

  /** Slots are captured by their cells, everything else by value. */
  lemma CapturesFit(st: Setting, frees: seq<CpsId>, first: nat, captures: seq<Entry>, env: Env)
    requires ValidSetting(st) && Captured(captures, frees, env, st.pr.slots)
    ensures FlatMachine.Fits(Locals(st.snap, frees, first), captures)
  {
  }

  lemma StepLetCaps(st: Setting, fuel: nat, capsId: nat, locals: seq<BindNode>, body: Expr, entries: seq<Entry>, m: Both)
    requires capsId in m.flat && m.flat[capsId] == Record(entries) && FlatMachine.Fits(locals, entries)
    ensures FlatRun(st, fuel, LetCaps(capsId + 2, Val(capsId + 1, Ref(capsId)), locals, Inline([], body)), m)
            == FlatRun(st, fuel, body, m.(flat := m.flat + FlatMachine.Unpack(locals, entries)))
  {
    var flat := m.flat + FlatMachine.Unpack(locals, entries);
    BindNone([]);
    assert flat + map[] == flat;
    StepInline(st, fuel, [], body, body, [], map[], m.(flat := flat));
  }

  lemma EntryPaired(st: Setting, fn: EnvMachine.EnvFn, g: FlatMachine.FlatFn, o: Origin, bound: Env, args: seq<Value>, m: Both)
    requires ValidSetting(st) && SameFns(st, m.fs, m.gs, m.os) && SameFn(st, fn, g, o)
    requires FnsKept(st, m.fs, m.os, m.sh) && OuterKept(st, o.scope, fn.env, m.sh)
    requires BindParams(fn.params, args) == Some(bound) && |g.captures| == |FreeVarsOf(fn.params, fn.body, o.stack)|
    ensures var p := EntryPlace(fn, o);
            At(st, p, fn.body) && Paired(st, p, Need(st, fn.body, p.stack), EntryState(st, fn, g, o, bound, args, m))
  {
    OpenFn(st, fn, g, o);
    var frees := FreeVarsOf(fn.params, fn.body, o.stack);
    FreeVarsInScope(fn.params, fn.body, o.stack, o.scope, st.pr);
    EntryAgrees(st, fn.params, fn.body, fn.env, g.captures, frees, o, bound, m.sh);
    EntryHoldsCtx(fn, o, args, bound);
    EntryAnchored(st, fn, g, o, bound, args, m);
  }

  lemma EntryHoldsCtx(fn: EnvMachine.EnvFn, o: Origin, args: seq<Value>, m: Env)
    requires OwnsCtx(fn.params) && BindParams(fn.params, args) == Some(m)
    ensures HoldsCtx(Enter(fn.params, o.stack), fn.env + m, CtxOf(args))
  {
    var c := fn.params[0].bind.id;
    assert CtxParam(fn.params) == Some(c);
    var rest := BindParams(fn.params[1..], args[1..]).value;
    assert c !in rest;
    assert m == map[c := Holds(args[0])] + rest;
  }

  lemma {:induction false} UnpackAt(binds: seq<BindNode>, entries: seq<Entry>, first: nat, x: CpsId)
    requires |binds| == |entries| && forall i :: 0 <= i < |binds| ==> binds[i].id == first + i
    ensures x in FlatMachine.Unpack(binds, entries) <==> first <= x < first + |binds|
    ensures first <= x < first + |binds| ==> FlatMachine.Unpack(binds, entries)[x] == entries[x - first]
    decreases binds
  {
    if binds != [] {
      UnpackAt(binds[1..], entries[1..], first + 1, x);
      assert binds[0].id == first;
    }
  }

  /** On entry, the flat body finds under its locals what the source body finds in its environment. */
  lemma EntryAgrees(st: Setting, params: seq<Param>, body: Expr, env: Env, captures: seq<Entry>, frees: seq<CpsId>,
                    o: Origin, bound: Env, sh: Shared)
    requires ValidSetting(st) && frees == FreeVarsOf(params, body, o.stack) && Captured(captures, frees, env, st.pr.slots)
    requires NewParams(params, o.scope, st.pr) && ReachesSlots(params, body, o.stack, SlotsAt(st)) && st.pr.base <= o.first
    requires WellScoped(body, o.scope + ParamIds(params), st.pr) && Below(o.scope, st.pr.base)
    requires OuterKept(st, o.scope, env, sh) && |captures| == |frees|
    requires forall x :: x in frees ==> x !in ParamIds(params)
    requires bound.Keys == ParamIds(params) && forall x :: x in bound ==> bound[x].Holds?
    ensures Agree(Need(st, body, Enter(params, o.stack)), RenamingTo(frees, o.first), env + bound,
                  Sees(st.rt.slots, EntryEnv(st, frees, o.first, captures, bound), sh), st.pr.slots)
  {
    hide AgreeAt, Captured, EntryEnv, Sees, OuterKept, RenamingTo, WellScoped;
    SetTargetsInScope(body, o.scope + ParamIds(params), st.pr);
    LetNamesInScope(body, o.scope + ParamIds(params), st.pr);
    var occ := Occ(body, Enter(params, o.stack));
    InMinus(occ, ParamIds(params));
    InInsertAll([], Minus(occ, ParamIds(params)));
    forall x | x in Need(st, body, Enter(params, o.stack))
      ensures AgreeAt(x, RenamingTo(frees, o.first), env + bound,
                      Sees(st.rt.slots, EntryEnv(st, frees, o.first, captures, bound), sh), st.pr.slots)
    {
      if x in ParamIds(params) {
        ParamAgrees(st, params, env, captures, frees, o, bound, x, sh);
      } else if x in frees {
        CaptureAgrees(st, env, captures, frees, o.first, bound, x, sh);
      } else {
        assert x in st.outer && x in o.scope;
        OuterAgrees(st, params, env, captures, frees, o, bound, x, sh);
      }
    }
  }

  lemma ParamAgrees(st: Setting, params: seq<Param>, env: Env, captures: seq<Entry>, frees: seq<CpsId>, o: Origin,
                    bound: Env, x: CpsId, sh: Shared)
    requires bound.Keys == ParamIds(params) && (forall y :: y in bound ==> bound[y].Holds?) && x in bound
    requires NewParams(params, o.scope, st.pr) && st.pr.base <= o.first && x !in frees && |captures| == |frees|
    ensures AgreeAt(x, RenamingTo(frees, o.first), env + bound,
                    Sees(st.rt.slots, EntryEnv(st, frees, o.first, captures, bound), sh), st.pr.slots)
  {
    UnpackAt(Locals(st.snap, frees, o.first), captures, o.first, x);
    assert x < st.pr.base;
  }

  lemma CaptureAgrees(st: Setting, env: Env, captures: seq<Entry>, frees: seq<CpsId>, first: nat, bound: Env, x: CpsId,
                      sh: Shared)
    requires Captured(captures, frees, env, st.pr.slots) && x in frees && x !in bound
    ensures AgreeAt(x, RenamingTo(frees, first), env + bound,
                    Sees(st.rt.slots, EntryEnv(st, frees, first, captures, bound), sh), st.pr.slots)
  {
    var y := RenamingTo(frees, first)[x];
    UnpackAt(Locals(st.snap, frees, first), captures, first, y);
    assert frees[y - first] == x;
  }

  /** An outer slot that the function has not captured is found in its global. */
  lemma OuterAgrees(st: Setting, params: seq<Param>, env: Env, captures: seq<Entry>, frees: seq<CpsId>, o: Origin,
                    bound: Env, x: CpsId, sh: Shared)
    requires ValidSetting(st) && OuterKept(st, o.scope, env, sh) && Below(o.scope, st.pr.base) && st.pr.base <= o.first
    requires bound.Keys == ParamIds(params) && |captures| == |frees|
    requires x in st.outer && x in o.scope && x !in frees && x !in ParamIds(params)
    ensures AgreeAt(x, RenamingTo(frees, o.first), env + bound,
                    Sees(st.rt.slots, EntryEnv(st, frees, o.first, captures, bound), sh), st.pr.slots)
  {
    UnpackAt(Locals(st.snap, frees, o.first), captures, o.first, x);
    assert x < st.pr.base;
  }

  /** In a function, an outer slot has its one cell: the environment kept it, and no local is under its id. */
  lemma EntryAnchored(st: Setting, fn: EnvMachine.EnvFn, g: FlatMachine.FlatFn, o: Origin, bound: Env, args: seq<Value>,
                      m: Both)
    requires ValidSetting(st) && FnsKept(st, m.fs, m.os, m.sh) && OuterKept(st, o.scope, fn.env, m.sh)
    requires OwnsCtx(fn.params) && NewParams(fn.params, o.scope, st.pr) && Below(o.scope, st.pr.base) && st.pr.base <= o.first
    requires BindParams(fn.params, args) == Some(bound) && |g.captures| == |FreeVarsOf(fn.params, fn.body, o.stack)|
    ensures Anchored(st, EntryPlace(fn, o), EntryState(st, fn, g, o, bound, args, m))
  {
    var frees := FreeVarsOf(fn.params, fn.body, o.stack);
    forall x | x in st.outer && x in o.scope + ParamIds(fn.params)
      ensures x in o.scope && x !in bound && x !in EntryEnv(st, frees, o.first, g.captures, bound)
    {
      UnpackAt(Locals(st.snap, frees, o.first), g.captures, o.first, x);
    }
  }

  // ---- Whole programs ---------------------------------------------------------------------------

  /** A source program ready for conversion: closed, well scoped, threaded and lifted. */
  ghost predicate ReadyToConvert(root: Expr, next: nat) {
    && WellScoped(root, {}, Program(SlotIds(root), next)) && Convertible(root, [], SlotsOf(root)) && Forwardable(root, false)
    && (forall b :: b in BindNodes(root) ==> b.kind != Slot)
  }

  /** For every runtime, context and amount of fuel, the converted program ends like the source:
      same outcome, same answers, same slot cells, same exports, same operator calls. */
  lemma ConvertPreservesMeaning(rt: Runtime, fuel: nat, root: Expr, next: nat, table: FlatMachine.FnTable, ctx: Value,
                                sh: Shared)
    requires ReadyToConvert(root, next) && rt.slots == SlotIds(root)
    requires Covers(table, ConvertProgram(root, next).0)
    ensures EnvMachine.Eval(rt, fuel, root, map[], ctx, sh, [])
            == FlatMachine.Eval(rt, table, fuel, ConvertProgram(root, next).0, map[], ctx, sh, [])
  {
    hide EnvMachine.Eval, EnvMachine.RunCall, EnvMachine.Invoke, FlatMachine.Eval, FlatMachine.RunCall, FlatMachine.Invoke;
    var pr := Program(SlotIds(root), next);
    var st := Setting(rt, table, SnapshotOf(root), pr, SlotsOf(root).outer);
    var p := Place([], {}, next, map[]);
    OccInScope(root, [], {}, pr);
    SetTargetsInScope(root, {}, pr);
    LetNamesInScope(root, {}, pr);
    var m := Both(map[], map[], ctx, sh, [], [], []);
    EvalSame(st, p, fuel, root, m);
    RenameNothing(ConvertProgram(root, next).0);
  }
}
