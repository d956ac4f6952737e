/** The way conversion changes meaning, on a small program: a function that runs again between its declaration of
    a slot and the write to it, where the code that writes is another function and does not read the slot. That
    code has not captured the cell, so it writes to the cell of the run that declared the slot last. */
module Reentry {
  import opened Collections
  import opened CpsIr
  import opened FreeVars
  import opened Convert
  import opened ConvertInput
  import opened ConvertTyping
  import opened Definitions
  import opened Machine
  import EnvMachine
  import FlatMachine

  const SLOT := BindNode(1, SynthName)
  const AGAIN := BindNode(2, SynthName)
  const CTX := Name(BindNode(3, Ctx))
  const THEN := Name(BindNode(4, SynthName))
  const LAST := Name(BindNode(5, SynthName))
  const READER := BindNode(6, SynthName)
  const READER_CTX := Name(BindNode(7, Ctx))
  const FILLER := BindNode(8, Synth)
  const FILLER_CTX := Name(BindNode(9, Ctx))

  function Using(id: CpsId, x: CpsId): Val {
    Val(id, Ref(x))
  }

  function Passed(vs: seq<Val>): List<Arg> {
    if vs == [] then Nil else Cons(ArgVal(vs[0]), Passed(vs[1..]))
  }

  function Stops(id: CpsId, reason: nat): Expr {
    App(id, CallBuiltIn(Panic(reason)), Nil)
  }

  /** `if slot then panic 7 else panic 8` */
  function ReaderBody(): Expr {
    If(10, Using(11, 1), Stops(12, 7), Stops(13, 8))
  }

  /** `reader ctx` */
  function Read(): Expr {
    App(14, CallVal(Using(15, 6)), Passed([Using(16, 9)]))
  }

  /** `set slot, true in reader ctx` */
  function FillerBody(): Expr {
    Set(17, SLOT, Val(18, Lit(BoolLit(true))), Inline([], Read()))
  }

  /** `then ctx, last, filler` */
  function GoOn(): Expr {
    App(19, CallVal(Using(20, 4)), Passed([Using(21, 3), Using(22, 5), Using(23, 8)]))
  }

  function WithFiller(): Expr {
    LetFn(24, FILLER, [FILLER_CTX], CpsClosure, FillerBody(), Inline([], GoOn()))
  }

  function WithReader(): Expr {
    LetFn(25, READER, [READER_CTX], CpsFunction, ReaderBody(), Inline([], WithFiller()))
  }

  function AgainBody(): Expr {
    LetRec(26, [SLOT], WithReader())
  }

  /** `again 0, again, again` */
  function Start(): Expr {
    App(27, CallVal(Using(28, 2)), Passed([Val(29, Lit(DataLit(0))), Using(30, 2), Using(31, 2)]))
  }

  /** `let again = fn ctx, then, last: letrec slot in let reader = .. in let filler = .. in then ctx, last, filler
      in again 0, again, again`: the first run hands its filler to the second, the second to the third, and the
      third calls the first one's. */
  function Root(): Expr {
    LetFn(32, AGAIN, [CTX, THEN, LAST], CpsFunction, AgainBody(), Inline([], Start()))
  }

  // ---- Conversion accepts it ----------------------------------------------------------------------------

  const PROGRAM := Program({1}, 40)

  /** Code that conversion takes: well scoped, forwardable, no binding marked as a cell. */
  ghost predicate Taken(e: Expr, scope: set<CpsId>, slots: set<CpsId>, inFn: bool) {
    && WellScoped(e, scope, PROGRAM) && Forwardable(e, inFn) && SlotIds(e) == slots
    && forall b :: b in BindNodes(e) ==> b.kind != Slot
  }

  /** Plain arguments declare, define and write nothing, and conversion leaves them alone. */
  lemma {:induction false} PassedPlain(vs: seq<Val>, snap: Snapshot, stack: CtxStack, next: nat, inFn: bool)
    ensures SlotIdsArgs(Passed(vs)) == {} && BindNodesArgs(Passed(vs)) == [] && DefsOfArgs(Passed(vs)) == []
    ensures SetTargetsArgs(Passed(vs)) == {} && ForwardableArgs(Passed(vs), inFn)
    ensures ConvertArgs(snap, Passed(vs), stack, next) == (Passed(vs), next)
    decreases vs
  {
    if vs != [] {
      PassedPlain(vs[1..], snap, stack, next, inFn);
    }
  }

  lemma {:induction false} PassedScoped(vs: seq<Val>, scope: set<CpsId>)
    requires forall v :: v in vs ==> ValInScope(v, scope)
    ensures WellScopedArgs(Passed(vs), scope, PROGRAM)
    decreases vs
  {
    if vs != [] {
      assert vs[0] in vs;
      PassedScoped(vs[1..], scope);
    }
  }

  lemma CallTaken(id: CpsId, callee: Val, vs: seq<Val>, scope: set<CpsId>, inFn: bool)
    requires ValInScope(callee, scope) && forall v :: v in vs ==> ValInScope(v, scope)
    ensures Taken(App(id, CallVal(callee), Passed(vs)), scope, {}, inFn)
  {
    PassedScoped(vs, scope);
    PassedPlain(vs, Snapshot(map[], {}), [], 0, inFn);
  }

  lemma StopsTaken(id: CpsId, reason: nat, scope: set<CpsId>, inFn: bool)
    ensures Taken(Stops(id, reason), scope, {}, inFn)
  {
    assert WellScopedArgs(Nil, scope, PROGRAM) && ForwardableArgs(Nil, inFn) && SlotIdsArgs(Nil) == {} && BindNodesArgs(Nil) == [];
  }

  lemma IfTaken(id: CpsId, cond: Val, thn: Expr, els: Expr, scope: set<CpsId>, inFn: bool)
    requires ValInScope(cond, scope) && Taken(thn, scope, {}, inFn) && Taken(els, scope, {}, inFn)
    ensures Taken(If(id, cond, thn, els), scope, {}, inFn)
  {
  }

  lemma SetTaken(id: CpsId, name: BindNode, val: Val, rest: Expr, scope: set<CpsId>, inFn: bool)
    requires name.id in scope && name.id == 1 && name.kind != Slot && ValInScope(val, scope) && Taken(rest, scope, {}, inFn)
    ensures Taken(Set(id, name, val, Inline([], rest)), scope, {}, inFn)
  {
    assert scope + BindIds([]) == scope;
    assert WellScopedCont(Inline([], rest), scope, PROGRAM) && ForwardableCont(Inline([], rest), inFn);
    assert SlotIdsCont(Inline([], rest)) == {} && BindNodesCont(Inline([], rest)) == [] + BindNodes(rest);
  }

  lemma RecTaken(id: CpsId, slot: BindNode, body: Expr, scope: set<CpsId>, inFn: bool)
    requires slot.id == 1 && 1 !in scope && slot.kind != Slot && Taken(body, scope + {1}, {}, inFn)
    ensures Taken(LetRec(id, [slot], body), scope, {1}, inFn)
  {
    assert BindIds([slot]) == {1};
    assert NewSlots([slot], scope, PROGRAM);
  }

  lemma {:induction false} ParamNodesIn(params: seq<Param>, b: BindNode)
    ensures b in ParamNodes(params) ==> exists p :: p in params && p.bind == b
    decreases params
  {
    if params != [] && b in ParamNodes(params) {
      assert params[0] in params && (forall p :: p in params[1..] ==> p in params);
      ParamNodesIn(params[1..], b);
    }
  }

  lemma FnTaken(id: CpsId, name: BindNode, params: seq<Param>, kind: FnKind, body: Expr, rest: Expr, scope: set<CpsId>,
                inner: set<CpsId>, slots: set<CpsId>, inFn: bool)
    requires NewValue(name, scope, PROGRAM) && NewParams(params, scope, PROGRAM) && CtxFirst(params)
    requires inner == scope + ParamIds(params) && Taken(body, inner, slots, true) && Taken(rest, scope + {name.id}, {}, inFn)
    ensures Taken(LetFn(id, name, params, kind, body, Inline([], rest)), scope, slots, inFn)
  {
    var k := Inline([], rest);
    assert SlotIdsCont(k) == {} && BindNodesCont(k) == [] + BindNodes(rest) && ForwardableCont(k, inFn);
    assert CtxParam(params).Some?;
    forall b | b in ParamNodes(params)
      ensures b.kind != Slot
    {
      ParamNodesIn(params, b);
    }
  }

  lemma FillerTaken()
    ensures Taken(WithFiller(), {1, 3, 4, 5, 6}, {}, true)
  {
    hide Taken, Passed;
    var scope, inner := {1, 3, 4, 5, 6}, {1, 3, 4, 5, 6, 9};
    CallTaken(14, Using(15, 6), [Using(16, 9)], inner, true);
    SetTaken(17, SLOT, Val(18, Lit(BoolLit(true))), Read(), inner, true);
    assert scope + {8} == {1, 3, 4, 5, 6, 8} && ParamIds([FILLER_CTX]) == {9};
    CallTaken(19, Using(20, 4), [Using(21, 3), Using(22, 5), Using(23, 8)], scope + {8}, true);
    FnTaken(24, FILLER, [FILLER_CTX], CpsClosure, FillerBody(), GoOn(), scope, inner, {}, true);
  }

  lemma ReaderTaken()
    ensures Taken(WithReader(), {1, 3, 4, 5}, {}, true)
  {
    hide Taken, WithFiller, Stops;
    var scope, inner := {1, 3, 4, 5}, {1, 3, 4, 5, 7};
    StopsTaken(12, 7, inner, true);
    StopsTaken(13, 8, inner, true);
    IfTaken(10, Using(11, 1), Stops(12, 7), Stops(13, 8), inner, true);
    FillerTaken();
    assert scope + {6} == {1, 3, 4, 5, 6} && ParamIds([READER_CTX]) == {7};
    FnTaken(25, READER, [READER_CTX], CpsFunction, ReaderBody(), WithFiller(), scope, inner, {}, true);
  }

  lemma RootTaken()
    ensures Taken(Root(), {}, {1}, false)
  {
    hide Taken, WithReader, Passed;
    ReaderTaken();
    assert ParamIds([CTX, THEN, LAST]) == {3, 4, 5} && {3, 4, 5} + {1} == {1, 3, 4, 5};
    RecTaken(26, SLOT, WithReader(), {3, 4, 5}, true);
    assert {} + {2} == {2} && {} + {3, 4, 5} == {3, 4, 5};
    CallTaken(27, Using(28, 2), [Val(29, Lit(DataLit(0))), Using(30, 2), Using(31, 2)], {2}, false);
    FnTaken(32, AGAIN, [CTX, THEN, LAST], CpsFunction, AgainBody(), Start(), {}, {3, 4, 5}, {1}, false);
  }

  // ---- It does not reach its slot -------------------------------------------------------------------------

  lemma ReadReads()
    ensures Occ(Read(), [3, 9]) == [6, 9] && SetTargets(Read()) == {}
  {
    assert Passed([Using(16, 9)]) == Cons(ArgVal(Using(16, 9)), Nil);
    assert OccArgs(Nil, [3, 9]) == [] && OccArgs(Passed([Using(16, 9)]), [3, 9]) == [9] + [];
    assert Occ(Read(), [3, 9]) == [6] + ([9] + []);
    assert SetTargetsArgs(Nil) == {};
  }

  lemma FillerReads()
    ensures FreeVarsOf([FILLER_CTX], FillerBody(), [3]) == [6] && SetTargets(FillerBody()) == {1}
  {
    hide Read;
    ReadReads();
    assert Minus([6, 9], BindIds([])) == [6, 9] by {
      assert [6, 9][1..] == [9] && [9][1..] == [];
    }
    assert OccCont(Inline([], Read()), [3, 9]) == [6, 9];
    assert Enter([FILLER_CTX], [3]) == [3, 9] && ParamIds([FILLER_CTX]) == {9};
    assert Occ(FillerBody(), [3, 9]) == [] + [6, 9] == [6, 9];
    assert SetTargetsCont(Inline([], Read())) == {};
    assert FreeVarsOf([FILLER_CTX], FillerBody(), [3]) == Dedup(Minus([6, 9], {9}));
    OnlyReader();
  }

  lemma OnlyReader()
    ensures Dedup(Minus([6, 9], {9})) == [6]
  {
    assert [6, 9][1..] == [9] && [9][1..] == [] && [6][1..] == [];
    assert Minus([9], {9}) == [] && Minus([6, 9], {9}) == [6];
    assert InsertAll([], [6]) == InsertAll([6], []) == [6];
  }

  /** Conversion accepts the program, and its condition for being faithful fails on it. */
  lemma RootAccepted()
    ensures ConvertAccepts(Root(), 40) && !SetsReach(Root(), [], SlotsOf(Root()))
  {
    RootTaken();
    FillerReads();
    hide Taken, FillerBody, GoOn, ReaderBody, Start, FreeVarsOf, SetTargets, WellScoped, Forwardable, BindNodes;
    assert Taken(Root(), {}, {1}, false) ==> ConvertAccepts(Root(), 40) && SlotIds(Root()) == {1} by {
      TakenRoot();
    }
    var sl := SlotsOf(Root());
    assert 1 in SlotIds(AgainBody()) && 1 in InnerSlots(Root());
    assert Enter([CTX, THEN, LAST], []) == [3];
    assert !ReachesSlots([FILLER_CTX], FillerBody(), [3], sl);
    assert !SetsReach(WithFiller(), [3], sl) && !SetsReachCont(Inline([], WithFiller()), [3], sl);
    assert !SetsReach(WithReader(), [3], sl) && !SetsReach(AgainBody(), [3], sl);
  }

  lemma TakenRoot()
    requires Taken(Root(), {}, {1}, false)
    ensures ConvertAccepts(Root(), 40) && SlotIds(Root()) == {1}
  {
    hide Root, WellScoped, Forwardable, BindNodes, SlotIds;
  }

  // ---- The source run -------------------------------------------------------------------------------------

  lemma {:induction false} PassedRead(vs: seq<Val>, ws: seq<Value>, env: Env, sh: Shared, fns: seq<EnvMachine.EnvFn>)
    requires |vs| == |ws| && forall i :: 0 <= i < |vs| ==> ReadVal(vs[i], env, sh) == Some(ws[i])
    ensures EnvMachine.EvalArgs(Passed(vs), env, sh, fns) == Some((ws, fns))
    ensures FlatMachine.EvalArgs(Passed(vs), env, sh) == Some(ws)
    decreases vs
  {
    if vs != [] {
      PassedRead(vs[1..], ws[1..], env, sh, fns);
      assert [ws[0]] + ws[1..] == ws;
    }
  }

  lemma SourceCall(rt: Runtime, fuel: nat, id: CpsId, callee: Val, vs: seq<Val>, f: Value, ws: seq<Value>, env: Env,
                   ctx: Value, sh: Shared, fns: seq<EnvMachine.EnvFn>)
    requires ReadVal(callee, env, sh) == Some(f)
    requires |vs| == |ws| && forall i :: 0 <= i < |vs| ==> ReadVal(vs[i], env, sh) == Some(ws[i])
    ensures EnvMachine.Eval(rt, fuel, App(id, CallVal(callee), Passed(vs)), env, ctx, sh, fns)
            == EnvMachine.Invoke(rt, fuel, f, ws, sh, fns)
  {
    PassedRead(vs, ws, env, sh, fns);
  }

  lemma SourceFn(rt: Runtime, fuel: nat, id: CpsId, name: BindNode, params: seq<Param>, kind: FnKind, body: Expr, rest: Expr,
                 env: Env, ctx: Value, sh: Shared, fns: seq<EnvMachine.EnvFn>)
    ensures EnvMachine.Eval(rt, fuel, LetFn(id, name, params, kind, body, Inline([], rest)), env, ctx, sh, fns)
            == EnvMachine.Eval(rt, fuel, rest, env[name.id := Holds(FnAt(|fns|))], ctx, sh,
                               fns + [EnvMachine.EnvFn(params, body, env)])
  {
    var env' := env[name.id := Holds(FnAt(|fns|))];
    BindNone([FnAt(|fns|)]);
    assert env' + map[] == env';
  }

  lemma SourceInvoke(rt: Runtime, fuel: nat, at: nat, args: seq<Value>, fn: EnvMachine.EnvFn, bound: Env, sh: Shared,
                     fns: seq<EnvMachine.EnvFn>)
    requires fuel > 0 && at < |fns| && fns[at] == fn && BindParams(fn.params, args) == Some(bound)
    ensures EnvMachine.Invoke(rt, fuel, FnAt(at), args, sh, fns)
            == EnvMachine.Eval(rt, fuel - 1, fn.body, fn.env + bound, CtxOf(args), sh, fns)
  {
  }

  lemma SourceRec(rt: Runtime, fuel: nat, id: CpsId, body: Expr, env: Env, ctx: Value, sh: Shared, fns: seq<EnvMachine.EnvFn>)
    ensures EnvMachine.Eval(rt, fuel, LetRec(id, [SLOT], body), env, ctx, sh, fns)
            == EnvMachine.Eval(rt, fuel, body, env[1 := Cell(|sh.cells|)], ctx, Declare([SLOT], sh), fns)
  {
    OneSlot(env, |sh.cells|);
  }

  lemma SourceSet(rt: Runtime, fuel: nat, id: CpsId, rest: Expr, k: nat, env: Env, ctx: Value, sh: Shared,
                  fns: seq<EnvMachine.EnvFn>)
    requires 1 in env && env[1] == Cell(k) && k < |sh.cells|
    ensures EnvMachine.Eval(rt, fuel, Set(id, SLOT, Val(18, Lit(BoolLit(true))), Inline([], rest)), env, ctx, sh, fns)
            == EnvMachine.Eval(rt, fuel, rest, env, ctx, Filled(sh, k), fns)
  {
    BindNone([]);
    assert env + map[] == env;
    assert FillSlot(1, BoolValue(true), env, sh) == Some(Filled(sh, k));
  }

  function Filled(sh: Shared, k: nat): Shared
    requires k < |sh.cells|
  {
    sh.(cells := sh.cells[k := Some(BoolValue(true))])
  }

  lemma OneSlot(env: Env, k: nat)
    ensures SlotAddrs([SLOT], k) == map[1 := k] && env + SlotEntries([SLOT], k) == env[1 := Cell(k)]
  {
    assert [SLOT][1..] == [] && SlotAddrs([SLOT], k) == map[1 := k];
  }

  lemma DeclaresOne(sh: Shared)
    ensures var sh' := Declare([SLOT], sh);
            && |sh'.cells| == |sh.cells| + 1 && sh'.cells[|sh.cells|] == None
            && (forall i :: 0 <= i < |sh.cells| ==> sh'.cells[i] == sh.cells[i])
            && 1 in sh'.globals && sh'.globals[1] == |sh.cells|
  {
    OneSlot(map[], |sh.cells|);
  }

  lemma BindThree(c: Value, next: Value, last: Value)
    ensures BindParams([CTX, THEN, LAST], [c, next, last]) == Some(Given(c, next, last))
  {
    var params, args := [CTX, THEN, LAST], [c, next, last];
    assert params[1..] == [THEN, LAST] && args[1..] == [next, last];
    assert [THEN, LAST][1..] == [LAST] && [next, last][1..] == [last];
    assert [LAST][1..] == [] && [last][1..] == [] && BindParams([], []) == Some(map[]);
    var one: Env := map[5 := Holds(last)];
    assert one + map[] == one && BindParams([LAST], [last]) == Some(one);
    var two: Env := map[4 := Holds(next), 5 := Holds(last)];
    assert map[4 := Holds(next)] + one == two && BindParams([THEN, LAST], [next, last]) == Some(two);
    assert map[3 := Holds(c)] + two == Given(c, next, last);
  }

  lemma BindFirst(p: Param, args: seq<Value>)
    requires p.Name? && args != []
    ensures BindParams([p], args) == Some(map[p.bind.id := Holds(args[0])])
  {
    var one: Env := map[p.bind.id := Holds(args[0])];
    assert [p][1..] == [] && BindParams([], args[1..]) == Some(map[]) && one + map[] == one;
  }

  function Given(c: Value, next: Value, last: Value): Env {
    map[3 := Holds(c), 4 := Holds(next), 5 := Holds(last)]
  }

  function AgainFn(): EnvMachine.EnvFn {
    EnvMachine.EnvFn([CTX, THEN, LAST], AgainBody(), map[])
  }

  function ReaderFn(env: Env, k: nat): EnvMachine.EnvFn {
    EnvMachine.EnvFn([READER_CTX], ReaderBody(), env[1 := Cell(k)])
  }

  function FillerFn(env: Env, k: nat, reader: Value): EnvMachine.EnvFn {
    EnvMachine.EnvFn([FILLER_CTX], FillerBody(), env[1 := Cell(k)][6 := Holds(reader)])
  }

  /** One run: declare a slot, make a reader and a filler of it, and pass the filler on. */
  lemma SourceAgain(rt: Runtime, fuel: nat, c: Value, next: Value, last: Value, sh: Shared, fns: seq<EnvMachine.EnvFn>)
    requires fuel > 0 && |fns| > 0 && fns[0] == AgainFn()
    ensures var env, k, n := Given(c, next, last), |sh.cells|, |fns|;
            EnvMachine.Invoke(rt, fuel, FnAt(0), [c, next, last], sh, fns)
            == EnvMachine.Invoke(rt, fuel - 1, next, [c, last, FnAt(n + 1)], Declare([SLOT], sh),
                                 fns + [ReaderFn(env, k), FillerFn(env, k, FnAt(n))])
  {
    hide ReaderBody, FillerBody, Given, GoOn, BindParams, Declare, EnvMachine.Eval, EnvMachine.Invoke;
    var env, k, n := Given(c, next, last), |sh.cells|, |fns|;
    var sh' := Declare([SLOT], sh);
    BindThree(c, next, last);
    assert map[] + env == env;
    SourceInvoke(rt, fuel, 0, [c, next, last], AgainFn(), env, sh, fns);
    SourceRec(rt, fuel - 1, 26, WithReader(), env, c, sh, fns);
    var env1 := env[1 := Cell(k)];
    var fns1 := fns + [ReaderFn(env, k)];
    var env2 := env1[6 := Holds(FnAt(n))];
    var fns2 := fns1 + [FillerFn(env, k, FnAt(n))];
    SourceFn(rt, fuel - 1, 25, READER, [READER_CTX], CpsFunction, ReaderBody(), WithFiller(), env1, c, sh', fns);
    SourceFn(rt, fuel - 1, 24, FILLER, [FILLER_CTX], CpsClosure, FillerBody(), GoOn(), env2, c, sh', fns1);
    SourceGoOn(rt, fuel - 1, c, next, last, k, n, sh', fns2);
    assert fns2 == fns + [ReaderFn(env, k), FillerFn(env, k, FnAt(n))];
  }

  lemma SourceGoOn(rt: Runtime, fuel: nat, c: Value, next: Value, last: Value, k: nat, n: nat, sh: Shared,
                   fns: seq<EnvMachine.EnvFn>)
    ensures var env := Given(c, next, last)[1 := Cell(k)][6 := Holds(FnAt(n))][8 := Holds(FnAt(n + 1))];
            EnvMachine.Eval(rt, fuel, GoOn(), env, c, sh, fns)
            == EnvMachine.Invoke(rt, fuel, next, [c, last, FnAt(n + 1)], sh, fns)
  {
    hide Passed;
    var env := Given(c, next, last)[1 := Cell(k)][6 := Holds(FnAt(n))][8 := Holds(FnAt(n + 1))];
    SourceCall(rt, fuel, 19, Using(20, 4), [Using(21, 3), Using(22, 5), Using(23, 8)], next, [c, last, FnAt(n + 1)], env, c, sh, fns);
  }

  /** The filler writes to the cell it was made with, and calls the reader. */
  lemma SourceFills(rt: Runtime, fuel: nat, at: nat, args: seq<Value>, env: Env, k: nat, reader: Value, sh: Shared,
                    fns: seq<EnvMachine.EnvFn>)
    requires fuel > 0 && at < |fns| && fns[at] == FillerFn(env, k, reader) && args != [] && k < |sh.cells|
    ensures EnvMachine.Invoke(rt, fuel, FnAt(at), args, sh, fns)
            == EnvMachine.Invoke(rt, fuel - 1, reader, [args[0]], Filled(sh, k), fns)
  {
    hide Read, BindParams, EnvMachine.Eval, EnvMachine.Invoke;
    var inner := env[1 := Cell(k)][6 := Holds(reader)] + map[9 := Holds(args[0])];
    BindFirst(FILLER_CTX, args);
    SourceInvoke(rt, fuel, at, args, fns[at], map[9 := Holds(args[0])], sh, fns);
    SourceSet(rt, fuel - 1, 17, Read(), k, inner, args[0], sh, fns);
    SourceReads(rt, fuel - 1, inner, reader, args[0], Filled(sh, k), fns);
  }

  lemma SourceReads(rt: Runtime, fuel: nat, env: Env, reader: Value, c: Value, sh: Shared, fns: seq<EnvMachine.EnvFn>)
    requires 6 in env && env[6] == Holds(reader) && 9 in env && env[9] == Holds(c)
    ensures EnvMachine.Eval(rt, fuel, Read(), env, c, sh, fns) == EnvMachine.Invoke(rt, fuel, reader, [c], sh, fns)
  {
    hide Passed;
    SourceCall(rt, fuel, 14, Using(15, 6), [Using(16, 9)], reader, [c], env, c, sh, fns);
  }

  lemma SourceReader(rt: Runtime, fuel: nat, at: nat, c: Value, env: Env, k: nat, sh: Shared, fns: seq<EnvMachine.EnvFn>)
    requires fuel > 0 && at < |fns| && fns[at] == ReaderFn(env, k)
    requires k < |sh.cells| && sh.cells[k] == Some(BoolValue(true))
    ensures EnvMachine.Invoke(rt, fuel, FnAt(at), [c], sh, fns).outcome == Panicked(7)
  {
    BindFirst(READER_CTX, [c]);
    var inner := env[1 := Cell(k)] + map[7 := Holds(c)];
    SourceInvoke(rt, fuel, at, [c], fns[at], map[7 := Holds(c)], sh, fns);
    assert ReadVal(Using(11, 1), inner, sh) == Some(BoolValue(true));
    assert EnvMachine.Eval(rt, fuel - 1, ReaderBody(), inner, c, sh, fns)
        == EnvMachine.Eval(rt, fuel - 1, Stops(12, 7), inner, c, sh, fns);
  }

  /** In the source, the first run's filler fills the first run's slot, and its reader panics with 7. */
  lemma SourcePanics(rt: Runtime, fuel: nat, ctx: Value, sh: Shared)
    requires fuel >= 5
    ensures EnvMachine.Eval(rt, fuel, Root(), map[], ctx, sh, []).outcome == Panicked(7)
  {
    hide AgainBody, ReaderBody, FillerBody, Passed, Given, Declare, EnvMachine.Eval, EnvMachine.Invoke;
    var d, again, k := Datum(0), FnAt(0), |sh.cells|;
    var fns0 := [] + [AgainFn()];
    SourceFn(rt, fuel, 32, AGAIN, [CTX, THEN, LAST], CpsFunction, AgainBody(), Start(), map[], ctx, sh, []);
    SourceStart(rt, fuel, ctx, sh, fns0);
    var (env1, env2, env3) := (Given(d, again, again), Given(d, again, FnAt(2)), Given(d, FnAt(2), FnAt(4)));
    var fns1 := fns0 + [ReaderFn(env1, k), FillerFn(env1, k, FnAt(1))];
    var sh1 := Declare([SLOT], sh);
    SourceAgain(rt, fuel, d, again, again, sh, fns0);
    var fns2 := fns1 + [ReaderFn(env2, k + 1), FillerFn(env2, k + 1, FnAt(3))];
    var sh2 := Declare([SLOT], sh1);
    SourceAgain(rt, fuel - 1, d, again, FnAt(2), sh1, fns1);
    var fns3 := fns2 + [ReaderFn(env3, k + 2), FillerFn(env3, k + 2, FnAt(5))];
    var sh3 := Declare([SLOT], sh2);
    DeclaresOne(sh);
    DeclaresOne(sh1);
    DeclaresOne(sh2);
    SourceAgain(rt, fuel - 2, d, FnAt(2), FnAt(4), sh2, fns2);
    SourceFills(rt, fuel - 3, 2, [d, FnAt(4), FnAt(6)], env1, k, FnAt(1), sh3, fns3);
    SourceReader(rt, fuel - 4, 1, d, env1, k, Filled(sh3, k), fns3);
  }

  lemma SourceStart(rt: Runtime, fuel: nat, ctx: Value, sh: Shared, fns: seq<EnvMachine.EnvFn>)
    ensures EnvMachine.Eval(rt, fuel, Start(), map[2 := Holds(FnAt(0))], ctx, sh, fns)
            == EnvMachine.Invoke(rt, fuel, FnAt(0), [Datum(0), FnAt(0), FnAt(0)], sh, fns)
  {
    hide Passed;
    SourceCall(rt, fuel, 27, Using(28, 2), [Val(29, Lit(DataLit(0))), Using(30, 2), Using(31, 2)], FnAt(0),
               [Datum(0), FnAt(0), FnAt(0)], map[2 := Holds(FnAt(0))], ctx, sh, fns);
  }

  // ---- The converted program ------------------------------------------------------------------------------

  /** The filler has captured the reader, and not the slot. */
  function LiftedFiller(kind: Bind): FnDef {
    FnDef([Name(BindNode(41, Caps)), FILLER_CTX],
          LetCaps(43, Using(42, 41), [BindNode(40, kind)],
                  Inline([], Set(17, SLOT, Val(18, Lit(BoolLit(true))),
                                 Inline([], App(14, CallVal(Using(15, 40)), Passed([Using(16, 9)])))))))
  }

  /** The reader has captured the slot. */
  function LiftedReader(): FnDef {
    FnDef([Name(BindNode(49, Caps)), READER_CTX],
          LetCaps(51, Using(50, 49), [BindNode(48, Slot)], Inline([], If(10, Using(11, 48), Stops(12, 7), Stops(13, 8)))))
  }

  function MakesFiller(kind: Bind): Expr {
    Closure(47, Using(46, 45), [Capture(BindNode(40, kind), Using(44, 6))], Inline([FILLER], GoOn()))
  }

  function ConvertedFiller(kind: Bind): Expr {
    LetFn(24, BindNode(45, Synth), LiftedFiller(kind).params, CpsClosure, LiftedFiller(kind).body, Inline([], MakesFiller(kind)))
  }

  function MakesReader(kind: Bind): Expr {
    Closure(55, Using(54, 53), [Capture(BindNode(48, Slot), Using(52, 1))], Inline([READER], ConvertedFiller(kind)))
  }

  function ConvertedReader(kind: Bind): Expr {
    LetFn(25, BindNode(53, SynthName), LiftedReader().params, CpsFunction, LiftedReader().body, Inline([], MakesReader(kind)))
  }

  function LiftedAgain(kind: Bind): FnDef {
    FnDef([Name(BindNode(56, Caps)), CTX, THEN, LAST], LetRec(26, [SLOT], ConvertedReader(kind)))
  }

  function MakesAgain(): Expr {
    Closure(61, Using(60, 59), [], Inline([AGAIN], Start()))
  }

  function ConvertedRoot(kind: Bind): Expr {
    LetFn(32, BindNode(59, SynthName), LiftedAgain(kind).params, CpsFunction, LiftedAgain(kind).body, Inline([], MakesAgain()))
  }

  /** The kind that conversion gives the reader's local. */
  function ReaderKind(): Bind {
    OuterKind(SnapshotOf(Root()), 6)
  }

  lemma CallConverted(id: CpsId, callee: Val, vs: seq<Val>, snap: Snapshot, stack: CtxStack, next: nat)
    ensures ConvertExpr(snap, App(id, CallVal(callee), Passed(vs)), stack, next) == (App(id, CallVal(callee), Passed(vs)), next)
  {
    PassedPlain(vs, snap, stack, next, true);
  }

  lemma FnConverted(snap: Snapshot, id: CpsId, name: BindNode, params: seq<Param>, kind: FnKind, body: Expr, rest: Expr,
                    stack: CtxStack, next: nat, body': (Expr, nat), rest': (Expr, nat), frees: seq<CpsId>)
    requires ConvertExpr(snap, body, Enter(params, stack), next) == body'
    requires ConvertExpr(snap, rest, stack, body'.1) == rest'
    requires Collect(body'.0, ParamIds(params), []) == frees
    ensures ConvertExpr(snap, LetFn(id, name, params, kind, body, Inline([], rest)), stack, next)
            == LiftFn(snap, id, name, params, kind, body'.0, Inline([], rest'.0), stack, frees, rest'.1)
  {
    assert ConvertCont(snap, Inline([], rest), stack, body'.1) == (Inline([], rest'.0), rest'.1);
  }

  lemma {:induction false} PassedCollected(vs: seq<Val>, bound: set<CpsId>, found: seq<CpsId>)
    requires forall v :: v in vs ==> ValInScope(v, bound)
    ensures CollectArgs(Passed(vs), bound, found) == found
    decreases vs
  {
    if vs != [] {
      assert vs[0] in vs && ValInScope(vs[0], bound);
      if vs[0].kind.Ref? || vs[0].kind.ContRef? {
        assert vs[0].kind.target in ValReads(vs[0]);
      }
      PassedCollected(vs[1..], bound, found);
    }
  }

  lemma FillerConverted(snap: Snapshot)
    ensures ConvertExpr(snap, WithFiller(), [3], 40) == (ConvertedFiller(OuterKind(snap, 6)), 48)
  {
    hide Passed;
    CallConverted(14, Using(15, 6), [Using(16, 9)], snap, [3, 9], 40);
    CallConverted(19, Using(20, 4), [Using(21, 3), Using(22, 5), Using(23, 8)], snap, [3], 40);
    assert ConvertCont(snap, Inline([], Read()), [3, 9], 40) == (Inline([], Read()), 40);
    assert Enter([FILLER_CTX], [3]) == [3, 9] && ConvertExpr(snap, FillerBody(), [3, 9], 40) == (FillerBody(), 40);
    FillerCollected();
    FnConverted(snap, 24, FILLER, [FILLER_CTX], CpsClosure, FillerBody(), GoOn(), [3], 40, (FillerBody(), 40), (GoOn(), 40), [6]);
    FillerLifted(snap);
  }

  lemma ReadCollected()
    ensures Collect(Read(), {9}, []) == [6]
  {
    hide Passed;
    assert CollectVal(Using(15, 6), {9}, []) == [6];
    PassedCollected([Using(16, 9)], {9}, [6]);
  }

  lemma FillerCollected()
    ensures Collect(FillerBody(), ParamIds([FILLER_CTX]), []) == [6]
  {
    hide Read;
    ReadCollected();
    assert ParamIds([FILLER_CTX]) == {9} && {9} + BindIds([]) == {9};
    assert CollectCont(Inline([], Read()), {9}, []) == [6];
  }

  lemma FillerLifted(snap: Snapshot)
    ensures LiftFn(snap, 24, FILLER, [FILLER_CTX], CpsClosure, FillerBody(), Inline([], GoOn()), [3], [6], 40)
            == (ConvertedFiller(OuterKind(snap, 6)), 48)
  {
    hide GoOn;
    var ren := RenamingTo([6], 40);
    assert 6 in ren && ren[6] == 40 && 9 !in ren && 1 !in ren;
    var own := Passed([Using(16, 9)]);
    assert own == Cons(ArgVal(Using(16, 9)), Nil) && RenameArgs(Nil, ren, false, 1) == Nil && RenameArgs(own, ren, false, 0) == own;
    assert Rename(Read(), ren) == App(14, CallVal(Using(15, 40)), own);
    assert RenameCont(Inline([], Read()), ren) == Inline([], Rename(Read(), ren));
    assert LiftedDef(snap, [FILLER_CTX], FillerBody(), [6], 40) == LiftedFiller(OuterKind(snap, 6)) by {
      assert Locals(snap, [6], 40) == [BindNode(40, OuterKind(snap, 6))];
      assert [Name(BindNode(41, Caps))] + [FILLER_CTX] == [Name(BindNode(41, Caps)), FILLER_CTX];
    }
    assert CapturesOf(snap, [6], 40, 44) == [Capture(BindNode(40, OuterKind(snap, 6)), Using(44, 6))];
  }

  lemma ReaderConverted(snap: Snapshot)
    requires 1 in snap.slots
    ensures ConvertExpr(snap, WithReader(), [3], 40) == (ConvertedReader(OuterKind(snap, 6)), 56)
  {
    hide ConvertedFiller, WithFiller;
    FillerConverted(snap);
    assert ConvertArgs(snap, Nil, [3, 7], 40) == (Nil, 40);
    assert ConvertExpr(snap, Stops(12, 7), [3, 7], 40) == (Stops(12, 7), 40);
    assert ConvertExpr(snap, Stops(13, 8), [3, 7], 40) == (Stops(13, 8), 40);
    assert Enter([READER_CTX], [3]) == [3, 7] && ConvertExpr(snap, ReaderBody(), [3, 7], 40) == (ReaderBody(), 40);
    ReaderCollected();
    FnConverted(snap, 25, READER, [READER_CTX], CpsFunction, ReaderBody(), WithFiller(), [3], 40, (ReaderBody(), 40),
                (ConvertedFiller(OuterKind(snap, 6)), 48), [1]);
    ReaderLifted(snap, ConvertedFiller(OuterKind(snap, 6)));
  }

  lemma ReaderCollected()
    ensures Collect(ReaderBody(), ParamIds([READER_CTX]), []) == [1]
  {
    assert ParamIds([READER_CTX]) == {7} && CollectArgs(Nil, {7}, [1]) == [1];
    assert Collect(Stops(12, 7), {7}, [1]) == [1] && Collect(Stops(13, 8), {7}, [1]) == [1];
    assert CollectVal(Using(11, 1), {7}, []) == [1];
  }

  lemma ReaderLifted(snap: Snapshot, rest: Expr)
    requires 1 in snap.slots
    ensures LiftFn(snap, 25, READER, [READER_CTX], CpsFunction, ReaderBody(), Inline([], rest), [3], [1], 48)
            == (LetFn(25, BindNode(53, SynthName), LiftedReader().params, CpsFunction, LiftedReader().body,
                      Inline([], Closure(55, Using(54, 53), [Capture(BindNode(48, Slot), Using(52, 1))],
                                          Inline([READER], rest)))), 56)
  {
    var ren := RenamingTo([1], 48);
    assert 1 in ren && ren[1] == 48;
    assert RenameArgs(Nil, ren, false, 0) == Nil;
    assert Rename(Stops(12, 7), ren) == Stops(12, 7) && Rename(Stops(13, 8), ren) == Stops(13, 8);
    assert Rename(ReaderBody(), ren) == If(10, Using(11, 48), Stops(12, 7), Stops(13, 8));
    assert LiftedDef(snap, [READER_CTX], ReaderBody(), [1], 48) == LiftedReader() by {
      assert Locals(snap, [1], 48) == [BindNode(48, Slot)];
      assert [Name(BindNode(49, Caps))] + [READER_CTX] == [Name(BindNode(49, Caps)), READER_CTX];
    }
    assert CapturesOf(snap, [1], 48, 52) == [Capture(BindNode(48, Slot), Using(52, 1))];
  }

  lemma RootConverted()
    ensures ConvertProgram(Root(), 40).0 == ConvertedRoot(ReaderKind())
  {
    hide WithReader, ConvertedReader, Start, BindNodes, SlotIds;
    var snap, kind := SnapshotOf(Root()), ReaderKind();
    RootTaken();
    assert SlotIds(Root()) == {1} by {
      TakenRoot();
    }
    ReaderConverted(snap);
    assert Enter([CTX, THEN, LAST], []) == [3];
    assert ConvertExpr(snap, AgainBody(), [3], 40) == (LetRec(26, [SLOT], ConvertedReader(kind)), 56);
    StartConverted(snap);
    AgainCollected(kind);
    FnConverted(snap, 32, AGAIN, [CTX, THEN, LAST], CpsFunction, AgainBody(), Start(), [], 40,
                (LetRec(26, [SLOT], ConvertedReader(kind)), 56), (Start(), 56), []);
    AgainLifted(snap, LetRec(26, [SLOT], ConvertedReader(kind)));
  }

  lemma StartConverted(snap: Snapshot)
    ensures ConvertExpr(snap, Start(), [], 56) == (Start(), 56)
  {
    CallConverted(27, Using(28, 2), [Val(29, Lit(DataLit(0))), Using(30, 2), Using(31, 2)], snap, [], 56);
  }

  lemma AgainLifted(snap: Snapshot, body: Expr)
    ensures LiftFn(snap, 32, AGAIN, [CTX, THEN, LAST], CpsFunction, body, Inline([], Start()), [], [], 56).0
            == LetFn(32, BindNode(59, SynthName), [Name(BindNode(56, Caps)), CTX, THEN, LAST], CpsFunction, body,
                     Inline([], MakesAgain()))
  {
    hide Start, Rename;
    var none: Renaming := map[];
    assert RenamingTo([], 56) == none;
    RenameNothing(body);
    assert [Name(BindNode(56, Caps))] + [CTX, THEN, LAST] == [Name(BindNode(56, Caps)), CTX, THEN, LAST];
  }

  lemma MakesFillerCollected(kind: Bind)
    ensures Collect(MakesFiller(kind), {1, 3, 4, 5, 6, 45, 53}, []) == []
  {
    hide GoOn;
    var bound := {1, 3, 4, 5, 6, 45, 53};
    assert bound + BindIds([FILLER]) == {1, 3, 4, 5, 6, 8, 45, 53};
    GoOnCollected({1, 3, 4, 5, 6, 8, 45, 53});
    OneCapture(Capture(BindNode(40, kind), Using(44, 6)), bound);
    assert CollectCont(Inline([FILLER], GoOn()), bound, []) == [];
  }

  lemma FillerDefCollected(kind: Bind)
    ensures Collect(ConvertedFiller(kind), {1, 3, 4, 5, 6, 53}, []) == []
  {
    hide LiftedFiller, MakesFiller;
    MakesFillerCollected(kind);
    assert {1, 3, 4, 5, 6, 53} + {45} == {1, 3, 4, 5, 6, 45, 53} == {1, 3, 4, 5, 6, 45, 53} + BindIds([]);
    assert CollectCont(Inline([], MakesFiller(kind)), {1, 3, 4, 5, 6, 45, 53}, []) == [];
  }

  lemma MakesReaderCollected(kind: Bind)
    ensures Collect(MakesReader(kind), {1, 3, 4, 5, 53}, []) == []
  {
    hide ConvertedFiller;
    FillerDefCollected(kind);
    assert {1, 3, 4, 5, 53} + BindIds([READER]) == {1, 3, 4, 5, 6, 53};
    OneCapture(Capture(BindNode(48, Slot), Using(52, 1)), {1, 3, 4, 5, 53});
    assert CollectCont(Inline([READER], ConvertedFiller(kind)), {1, 3, 4, 5, 53}, []) == [];
  }

  /** The function that runs again captures nothing. */
  lemma AgainCollected(kind: Bind)
    ensures Collect(LetRec(26, [SLOT], ConvertedReader(kind)), ParamIds([CTX, THEN, LAST]), []) == []
  {
    hide LiftedReader, MakesReader;
    MakesReaderCollected(kind);
    assert ParamIds([CTX, THEN, LAST]) == {3, 4, 5} && {3, 4, 5} + BindIds([SLOT]) == {1, 3, 4, 5};
    assert {1, 3, 4, 5} + {53} == {1, 3, 4, 5, 53} == {1, 3, 4, 5, 53} + BindIds([]);
    assert CollectCont(Inline([], MakesReader(kind)), {1, 3, 4, 5, 53}, []) == [];
    assert Collect(ConvertedReader(kind), {1, 3, 4, 5}, []) == [];
  }

  lemma OneCapture(c: Capture, bound: set<CpsId>)
    requires c.val.kind.Ref? && c.val.kind.target in bound
    ensures CollectCaptures([c], bound, []) == []
  {
    assert [c][1..] == [];
  }

  lemma GoOnCollected(bound: set<CpsId>)
    requires bound == {1, 3, 4, 5, 6, 8, 45, 53}
    ensures Collect(GoOn(), bound, []) == []
  {
    PassedCollected([Using(21, 3), Using(22, 5), Using(23, 8)], bound, []);
  }

  // ---- The converted run ----------------------------------------------------------------------------------

  /** The table that runs the converted program. */
  function Table(): FlatMachine.FnTable {
    TableFrom(DefsOf(ConvertedRoot(ReaderKind())))
  }

  lemma TableHas()
    ensures var kind, table := ReaderKind(), Table();
            && 45 in table && table[45] == LiftedFiller(kind) && 53 in table && table[53] == LiftedReader()
            && 59 in table && table[59] == LiftedAgain(kind)
  {
    hide DefsOf, TableFrom, LiftedFiller, LiftedReader, BindNodes, SlotIds, ReaderKind;
    var kind := ReaderKind();
    RootConverted();
    ConvertedCovered(Root(), 40);
    assert Covers(Table(), ConvertedRoot(kind));
    CoveredParts(Table(), kind);
  }

  lemma CoveredParts(table: FlatMachine.FnTable, kind: Bind)
    requires Covers(table, ConvertedRoot(kind))
    ensures 45 in table && table[45] == LiftedFiller(kind) && 53 in table && table[53] == LiftedReader()
    ensures 59 in table && table[59] == LiftedAgain(kind)
  {
    hide LiftedFiller, LiftedReader, Start, GoOn;
    var made := MakesReader(kind);
    assert Covers(table, LiftedAgain(kind).body) && Covers(table, ConvertedReader(kind));
    assert CoversCont(table, Inline([], made)) && Covers(table, made);
    assert CoversCont(table, Inline([READER], ConvertedFiller(kind))) && Covers(table, ConvertedFiller(kind));
  }

  /** The machine's setting: the slot is known as one, and the table is the program's own. */
  ghost predicate Runs(rt: Runtime, table: FlatMachine.FnTable, kind: Bind) {
    && rt.slots == {1} && kind != Slot
    && 45 in table && table[45] == LiftedFiller(kind) && 53 in table && table[53] == LiftedReader()
    && 59 in table && table[59] == LiftedAgain(kind)
  }

  lemma FlatCall(rt: Runtime, table: FlatMachine.FnTable, fuel: nat, id: CpsId, callee: Val, vs: seq<Val>, f: Value,
                 ws: seq<Value>, env: Env, ctx: Value, sh: Shared, fns: seq<FlatMachine.FlatFn>)
    requires ReadVal(callee, Sees(rt.slots, env, sh), sh) == Some(f)
    requires |vs| == |ws| && forall i :: 0 <= i < |vs| ==> ReadVal(vs[i], Sees(rt.slots, env, sh), sh) == Some(ws[i])
    ensures FlatMachine.Eval(rt, table, fuel, App(id, CallVal(callee), Passed(vs)), env, ctx, sh, fns)
            == FlatMachine.Invoke(rt, table, fuel, f, ws, sh, fns)
  {
    hide Sees;
    PassedRead(vs, ws, Sees(rt.slots, env, sh), sh, []);
  }

  /** A definition and the closure made from it. */
  lemma FlatFnMade(rt: Runtime, table: FlatMachine.FnTable, fuel: nat, def: Expr, closure: Expr, name: BindNode, rest: Expr,
                   entries: seq<Entry>, env: Env, ctx: Value, sh: Shared, fns: seq<FlatMachine.FlatFn>)
    requires def.LetFn? && def.cont == Inline([], closure) && closure.Closure? && closure.cont == Inline([name], rest)
    requires closure.funcref.kind.Ref? && FlatMachine.CaptureAll(closure.captures, Sees(rt.slots, env, sh)) == Some(entries)
    ensures FlatMachine.Eval(rt, table, fuel, def, env, ctx, sh, fns)
            == FlatMachine.Eval(rt, table, fuel, rest, env[name.id := Holds(FnAt(|fns|))], ctx, sh,
                                fns + [FlatMachine.FlatFn(closure.funcref.kind.target, entries)])
  {
    hide Sees, FlatMachine.CaptureAll, BindParams;
    var f := FnAt(|fns|);
    BindOne(name, f);
    PutIsAdd(env, name.id, f);
    var fns' := fns + [FlatMachine.FlatFn(closure.funcref.kind.target, entries)];
    assert FlatMachine.Eval(rt, table, fuel, def, env, ctx, sh, fns) == FlatMachine.Eval(rt, table, fuel, closure, env, ctx, sh, fns)
        == FlatMachine.RunCall(rt, table, fuel, closure.cont, [f], env, ctx, sh, fns');
  }

  lemma FlatInvoke(rt: Runtime, table: FlatMachine.FnTable, fuel: nat, at: nat, args: seq<Value>, fn: FlatMachine.FlatFn,
                   def: FnDef, params: seq<Param>, capsId: CpsId, bound: Env, sh: Shared, fns: seq<FlatMachine.FlatFn>)
    requires fuel > 0 && at < |fns| && fns[at] == fn && fn.code in table && table[fn.code] == def
    requires def.params == [Name(BindNode(capsId, Caps))] + params && BindParams(params, args) == Some(bound)
    ensures FlatMachine.Invoke(rt, table, fuel, FnAt(at), args, sh, fns)
            == FlatMachine.Eval(rt, table, fuel - 1, def.body, bound[capsId := Record(fn.captures)], CtxOf(args), sh, fns)
  {
    assert def.params[1..] == params;
  }

  /** The one captured local is unpacked. */
  lemma FlatUnpacks(rt: Runtime, table: FlatMachine.FnTable, fuel: nat, id: CpsId, caps: Val, local: BindNode, rest: Expr,
                    entry: Entry, env: Env, ctx: Value, sh: Shared, fns: seq<FlatMachine.FlatFn>)
    requires caps.kind.Ref? && caps.kind.target in env && env[caps.kind.target] == Record([entry])
    requires if local.kind == Slot then entry.Cell? else entry.Holds?
    ensures FlatMachine.Eval(rt, table, fuel, LetCaps(id, caps, [local], Inline([], rest)), env, ctx, sh, fns)
            == FlatMachine.Eval(rt, table, fuel, rest, env[local.id := entry], ctx, sh, fns)
  {
    hide Sees;
    var one: Env := map[local.id := entry];
    assert [local][1..] == [] && [entry][1..] == [];
    assert FlatMachine.Unpack([local][1..], [entry][1..]) == map[];
    assert FlatMachine.Unpack([local], [entry]) == one + map[] == one;
    assert FlatMachine.Fits([local], [entry]);
    BindNone([]);
    assert env + one + map[] == env[local.id := entry];
  }

  lemma FlatRec(rt: Runtime, table: FlatMachine.FnTable, fuel: nat, id: CpsId, body: Expr, env: Env, ctx: Value, sh: Shared,
                fns: seq<FlatMachine.FlatFn>)
    ensures FlatMachine.Eval(rt, table, fuel, LetRec(id, [SLOT], body), env, ctx, sh, fns)
            == FlatMachine.Eval(rt, table, fuel, body, env[1 := Cell(|sh.cells|)], ctx, Declare([SLOT], sh), fns)
  {
    hide Sees;
    OneSlot(env, |sh.cells|);
  }

  lemma FlatSet(rt: Runtime, table: FlatMachine.FnTable, fuel: nat, id: CpsId, rest: Expr, k: nat, env: Env, ctx: Value,
                sh: Shared, fns: seq<FlatMachine.FlatFn>)
    requires 1 in Sees(rt.slots, env, sh) && Sees(rt.slots, env, sh)[1] == Cell(k) && k < |sh.cells|
    ensures FlatMachine.Eval(rt, table, fuel, Set(id, SLOT, Val(18, Lit(BoolLit(true))), Inline([], rest)), env, ctx, sh, fns)
            == FlatMachine.Eval(rt, table, fuel, rest, env, ctx, Filled(sh, k), fns)
  {
    hide Sees;
    BindNone([]);
    assert env + map[] == env;
    assert FillSlot(1, BoolValue(true), Sees(rt.slots, env, sh), sh) == Some(Filled(sh, k));
  }

  lemma OneCaptured(c: Capture, x: CpsId, env: Env)
    requires c.val.kind == Ref(x) && x in env
    ensures FlatMachine.CaptureAll([c], env) == Some([env[x]])
  {
    assert [c][1..] == [] && FlatMachine.CaptureAll([c][1..], env) == Some([]);
    assert [env[x]] + [] == [env[x]];
  }

  /** One run of the lifted function. */
  lemma FlatAgain(rt: Runtime, table: FlatMachine.FnTable, kind: Bind, fuel: nat, c: Value, next: Value, last: Value, sh: Shared,
                  fns: seq<FlatMachine.FlatFn>)
    requires Runs(rt, table, kind) && fuel > 0 && |fns| > 0 && fns[0] == FlatMachine.FlatFn(59, [])
    ensures var k, n := |sh.cells|, |fns|;
            FlatMachine.Invoke(rt, table, fuel, FnAt(0), [c, next, last], sh, fns)
            == FlatMachine.Invoke(rt, table, fuel - 1, next, [c, last, FnAt(n + 1)], Declare([SLOT], sh),
                                  fns + [FlatMachine.FlatFn(53, [Cell(k)]), FlatMachine.FlatFn(45, [Holds(FnAt(n))])])
  {
    hide LiftedFiller, LiftedReader, Given, BindParams, Declare, ConvertedReader, FlatMachine.Eval, FlatMachine.Invoke;
    BindThree(c, next, last);
    FlatInvoke(rt, table, fuel, 0, [c, next, last], fns[0], LiftedAgain(kind), [CTX, THEN, LAST], 56, Given(c, next, last), sh, fns);
    FlatRec(rt, table, fuel - 1, 26, ConvertedReader(kind), Given(c, next, last)[56 := Record([])], c, sh, fns);
    FlatMakes(rt, table, kind, fuel - 1, c, next, last, |sh.cells|, Declare([SLOT], sh), fns);
  }

  lemma FlatMakes(rt: Runtime, table: FlatMachine.FnTable, kind: Bind, fuel: nat, c: Value, next: Value, last: Value, k: nat,
                  sh: Shared, fns: seq<FlatMachine.FlatFn>)
    ensures var env, n := Given(c, next, last)[56 := Record([])][1 := Cell(k)], |fns|;
            FlatMachine.Eval(rt, table, fuel, ConvertedReader(kind), env, c, sh, fns)
            == FlatMachine.Invoke(rt, table, fuel, next, [c, last, FnAt(n + 1)], sh,
                                  fns + [FlatMachine.FlatFn(53, [Cell(k)]), FlatMachine.FlatFn(45, [Holds(FnAt(n))])])
  {
    hide LiftedFiller, LiftedReader, Given, GoOn, Sees, FlatMachine.Eval, FlatMachine.Invoke;
    var env, n := Given(c, next, last)[56 := Record([])][1 := Cell(k)], |fns|;
    SeesOwn(rt.slots, env, sh, 1);
    OneCaptured(Capture(BindNode(48, Slot), Using(52, 1)), 1, Sees(rt.slots, env, sh));
    FlatFnMade(rt, table, fuel, ConvertedReader(kind), MakesReader(kind), READER, ConvertedFiller(kind), [Cell(k)], env, c, sh, fns);
    var env' := env[6 := Holds(FnAt(n))];
    var fns1 := fns + [FlatMachine.FlatFn(53, [Cell(k)])];
    SeesOwn(rt.slots, env', sh, 6);
    OneCaptured(Capture(BindNode(40, kind), Using(44, 6)), 6, Sees(rt.slots, env', sh));
    FlatFnMade(rt, table, fuel, ConvertedFiller(kind), MakesFiller(kind), FILLER, GoOn(), [Holds(FnAt(n))], env', c, sh, fns1);
    var fns2 := fns1 + [FlatMachine.FlatFn(45, [Holds(FnAt(n))])];
    FlatGoOn(rt, table, fuel, c, next, last, k, n, sh, fns2);
    assert fns2 == fns + [FlatMachine.FlatFn(53, [Cell(k)]), FlatMachine.FlatFn(45, [Holds(FnAt(n))])];
  }

  lemma SeesOwn(slots: set<CpsId>, env: Env, sh: Shared, x: CpsId)
    requires x in env
    ensures x in Sees(slots, env, sh) && Sees(slots, env, sh)[x] == env[x]
  {
  }

  lemma FlatGoOn(rt: Runtime, table: FlatMachine.FnTable, fuel: nat, c: Value, next: Value, last: Value, k: nat, n: nat, sh: Shared,
                 fns: seq<FlatMachine.FlatFn>)
    ensures var env := Given(c, next, last)[56 := Record([])][1 := Cell(k)][6 := Holds(FnAt(n))][8 := Holds(FnAt(n + 1))];
            FlatMachine.Eval(rt, table, fuel, GoOn(), env, c, sh, fns)
            == FlatMachine.Invoke(rt, table, fuel, next, [c, last, FnAt(n + 1)], sh, fns)
  {
    hide Passed, Sees;
    var env := Given(c, next, last)[56 := Record([])][1 := Cell(k)][6 := Holds(FnAt(n))][8 := Holds(FnAt(n + 1))];
    SeesOwn(rt.slots, env, sh, 3);
    SeesOwn(rt.slots, env, sh, 4);
    SeesOwn(rt.slots, env, sh, 5);
    SeesOwn(rt.slots, env, sh, 8);
    FlatCall(rt, table, fuel, 19, Using(20, 4), [Using(21, 3), Using(22, 5), Using(23, 8)], next,
             [c, last, FnAt(n + 1)], env, c, sh, fns);
  }

  /** The lifted filler writes to the cell that was declared last. */
  lemma FlatFills(rt: Runtime, table: FlatMachine.FnTable, kind: Bind, fuel: nat, at: nat, args: seq<Value>, reader: Value,
                  sh: Shared, fns: seq<FlatMachine.FlatFn>)
    requires Runs(rt, table, kind) && fuel > 0 && at < |fns| && fns[at] == FlatMachine.FlatFn(45, [Holds(reader)]) && args != []
    requires 1 in sh.globals && sh.globals[1] < |sh.cells|
    ensures FlatMachine.Invoke(rt, table, fuel, FnAt(at), args, sh, fns)
            == FlatMachine.Invoke(rt, table, fuel - 1, reader, [args[0]], Filled(sh, sh.globals[1]), fns)
  {
    hide Passed, Sees, BindParams, LiftedReader, LiftedAgain, Filled, FlatMachine.Eval, FlatMachine.Invoke;
    var bound: Env := map[9 := Holds(args[0])];
    BindFirst(FILLER_CTX, args);
    FlatInvoke(rt, table, fuel, at, args, fns[at], LiftedFiller(kind), [FILLER_CTX], 41, bound, sh, fns);
    var call := App(14, CallVal(Using(15, 40)), Passed([Using(16, 9)]));
    var set' := Set(17, SLOT, Val(18, Lit(BoolLit(true))), Inline([], call));
    var env := bound[41 := Record([Holds(reader)])];
    FlatUnpacks(rt, table, fuel - 1, 43, Using(42, 41), BindNode(40, kind), set', Holds(reader), env, args[0], sh, fns);
    var env' := env[40 := Holds(reader)];
    SeesGlobal(env', sh);
    FlatSet(rt, table, fuel - 1, 17, call, sh.globals[1], env', args[0], sh, fns);
    FlatReads(rt, table, fuel - 1, env', reader, args[0], Filled(sh, sh.globals[1]), fns);
  }

  lemma FlatReads(rt: Runtime, table: FlatMachine.FnTable, fuel: nat, env: Env, reader: Value, c: Value, sh: Shared,
                  fns: seq<FlatMachine.FlatFn>)
    requires 40 in env && env[40] == Holds(reader) && 9 in env && env[9] == Holds(c)
    ensures FlatMachine.Eval(rt, table, fuel, App(14, CallVal(Using(15, 40)), Passed([Using(16, 9)])), env, c, sh, fns)
            == FlatMachine.Invoke(rt, table, fuel, reader, [c], sh, fns)
  {
    hide Passed, Sees;
    SeesOwn(rt.slots, env, sh, 40);
    SeesOwn(rt.slots, env, sh, 9);
    FlatCall(rt, table, fuel, 14, Using(15, 40), [Using(16, 9)], reader, [c], env, c, sh, fns);
  }

  lemma SeesGlobal(env: Env, sh: Shared)
    requires 1 !in env && 1 in sh.globals
    ensures 1 in Sees({1}, env, sh) && Sees({1}, env, sh)[1] == Cell(sh.globals[1])
  {
  }

  /** The lifted reader finds its cell empty. */
  lemma FlatReader(rt: Runtime, table: FlatMachine.FnTable, kind: Bind, fuel: nat, at: nat, c: Value, k: nat, sh: Shared,
                   fns: seq<FlatMachine.FlatFn>)
    requires Runs(rt, table, kind) && fuel > 0 && at < |fns| && fns[at] == FlatMachine.FlatFn(53, [Cell(k)])
    requires k < |sh.cells| && sh.cells[k] == None
    ensures FlatMachine.Invoke(rt, table, fuel, FnAt(at), [c], sh, fns).outcome == Trapped
  {
    hide Sees, BindParams, LiftedFiller, LiftedAgain, FlatMachine.Invoke;
    var bound: Env := map[7 := Holds(c)];
    BindFirst(READER_CTX, [c]);
    FlatInvoke(rt, table, fuel, at, [c], fns[at], LiftedReader(), [READER_CTX], 49, bound, sh, fns);
    var test := If(10, Using(11, 48), Stops(12, 7), Stops(13, 8));
    var env := bound[49 := Record([Cell(k)])];
    FlatUnpacks(rt, table, fuel - 1, 51, Using(50, 49), BindNode(48, Slot), test, Cell(k), env, c, sh, fns);
    var env' := env[48 := Cell(k)];
    SeesOwn(rt.slots, env', sh, 48);
    assert FlatMachine.Eval(rt, table, fuel - 1, test, env', c, sh, fns) == Trap(sh);
  }

  /** After conversion, the first run's filler fills the third run's slot, and the first run's reader traps. */
  lemma ConvertedTraps(rt: Runtime, fuel: nat, ctx: Value, sh: Shared)
    requires fuel >= 5 && rt.slots == SlotIds(Root())
    ensures FlatMeaning(rt, fuel, ConvertProgram(Root(), 40).0, ctx, sh).outcome == Trapped
  {
    hide BindNodes, SlotIds, DefsOf, TableFrom, LiftedAgain, LiftedReader, LiftedFiller, ConvertExpr, Start, OuterKind, Declare;
    RootTaken();
    TakenRoot();
    RootConverted();
    TableHas();
    ReaderKindIs();
    RootTraps(rt, Table(), ReaderKind(), fuel, ctx, sh);
  }

  lemma ReaderKindIs()
    ensures ReaderKind() != Slot
  {
    hide BindNodes;
    RootTaken();
    TakenRoot();
  }

  lemma RootTraps(rt: Runtime, table: FlatMachine.FnTable, kind: Bind, fuel: nat, ctx: Value, sh: Shared)
    requires Runs(rt, table, kind) && fuel >= 5
    ensures FlatMachine.Eval(rt, table, fuel, ConvertedRoot(kind), map[], ctx, sh, []).outcome == Trapped
  {
    hide LiftedAgain, LiftedReader, LiftedFiller, ConvertedRoot, Runs, Declare, FlatMachine.Eval, FlatMachine.Invoke;
    var d, again, k := Datum(0), FnAt(0), |sh.cells|;
    RootStarts(rt, table, kind, fuel, ctx, sh);
    var fns0 := [FlatMachine.FlatFn(59, [])];
    var fns1 := fns0 + [FlatMachine.FlatFn(53, [Cell(k)]), FlatMachine.FlatFn(45, [Holds(FnAt(1))])];
    var sh1 := Declare([SLOT], sh);
    FlatAgain(rt, table, kind, fuel, d, again, again, sh, fns0);
    var fns2 := fns1 + [FlatMachine.FlatFn(53, [Cell(k + 1)]), FlatMachine.FlatFn(45, [Holds(FnAt(3))])];
    var sh2 := Declare([SLOT], sh1);
    FlatAgain(rt, table, kind, fuel - 1, d, again, FnAt(2), sh1, fns1);
    var fns3 := fns2 + [FlatMachine.FlatFn(53, [Cell(k + 2)]), FlatMachine.FlatFn(45, [Holds(FnAt(5))])];
    var sh3 := Declare([SLOT], sh2);
    DeclaresOne(sh);
    DeclaresOne(sh1);
    DeclaresOne(sh2);
    FlatAgain(rt, table, kind, fuel - 2, d, FnAt(2), FnAt(4), sh2, fns2);
    FlatFills(rt, table, kind, fuel - 3, 2, [d, FnAt(4), FnAt(6)], FnAt(1), sh3, fns3);
    FlatReader(rt, table, kind, fuel - 4, 1, d, k, Filled(sh3, k + 2), fns3);
  }

  lemma RootStarts(rt: Runtime, table: FlatMachine.FnTable, kind: Bind, fuel: nat, ctx: Value, sh: Shared)
    ensures FlatMachine.Eval(rt, table, fuel, ConvertedRoot(kind), map[], ctx, sh, [])
            == FlatMachine.Invoke(rt, table, fuel, FnAt(0), [Datum(0), FnAt(0), FnAt(0)], sh, [FlatMachine.FlatFn(59, [])])
  {
    hide LiftedAgain, Start, Sees, FlatMachine.Eval, FlatMachine.Invoke;
    FlatFnMade(rt, table, fuel, ConvertedRoot(kind), MakesAgain(), AGAIN, Start(), [], map[], ctx, sh, []);
    assert [] + [FlatMachine.FlatFn(59, [])] == [FlatMachine.FlatFn(59, [])];
    FlatStart(rt, table, fuel, ctx, sh, [FlatMachine.FlatFn(59, [])]);
  }

  lemma FlatStart(rt: Runtime, table: FlatMachine.FnTable, fuel: nat, ctx: Value, sh: Shared, fns: seq<FlatMachine.FlatFn>)
    ensures FlatMachine.Eval(rt, table, fuel, Start(), map[2 := Holds(FnAt(0))], ctx, sh, fns)
            == FlatMachine.Invoke(rt, table, fuel, FnAt(0), [Datum(0), FnAt(0), FnAt(0)], sh, fns)
  {
    hide Passed, Sees;
    SeesOwn(rt.slots, map[2 := Holds(FnAt(0))], sh, 2);
    FlatCall(rt, table, fuel, 27, Using(28, 2), [Val(29, Lit(DataLit(0))), Using(30, 2), Using(31, 2)], FnAt(0),
             [Datum(0), FnAt(0), FnAt(0)], map[2 := Holds(FnAt(0))], ctx, sh, fns);
  }
}
