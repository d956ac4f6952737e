/** What a program does to its slots, read off the module before any pass has run, and how much of that the
    passes keep: the condition under which conversion is faithful is one on the module itself. */
module SlotUses {
  import opened Collections
  import opened CpsIr
  import opened FreeVars
  import opened Convert
  import opened ConvertInput
  import opened ConvertTyping
  import opened ContLift
  import opened ContLiftScope
  import opened ThreadCtx

  /** What a piece of code does to slots. It reads some, nested functions included. It sets some, and fills some
      by a binding of their id, nested functions excepted. It declares some, of these some inside a function.
      `reached`: every function in it reaches the slots that the function fills. */
  datatype Uses = Uses(read: set<CpsId>, written: set<CpsId>, filled: set<CpsId>, declared: set<CpsId>, inner: set<CpsId>,
                       reached: bool)

  const NO_USES := Uses({}, {}, {}, {}, {}, true)

  function Joined(a: Uses, b: Uses): Uses {
    Uses(a.read + b.read, a.written + b.written, a.filled + b.filled, a.declared + b.declared, a.inner + b.inner,
         a.reached && b.reached)
  }

  /** Under bindings of these ids. */
  function Under(ids: set<CpsId>, u: Uses): Uses {
    u.(read := u.read - ids, written := u.written - ids)
  }

  function Declaring(ids: set<CpsId>, u: Uses): Uses {
    Uses(u.read - ids, u.written - ids, u.filled - ids, ids + u.declared, u.inner, u.reached)
  }

  /** A function reads each slot it sets, or the slot is an outer one; what it fills by a binding is outer. */
  predicate Reaches(u: Uses, sl: Slots) {
    u.written <= sl.outer + u.read && u.filled <= sl.outer
  }

  /** Code that is, or will be, the body of a function. */
  function Within(u: Uses, sl: Slots): Uses {
    Uses(u.read, {}, {}, u.declared, u.declared, u.reached && Reaches(u, sl))
  }

  function Among(ids: seq<CpsId>, sl: Slots): set<CpsId> {
    set x | x in ids && x in sl.all
  }

  function Reading(ids: seq<CpsId>, sl: Slots): Uses {
    NO_USES.(read := Among(ids, sl))
  }

  ghost predicate OfSlots(u: Uses, sl: Slots) {
    u.read <= sl.all && u.written <= sl.all && u.filled <= sl.all
  }

  function UsesOf(e: Expr, sl: Slots): (u: Uses)
    ensures OfSlots(u, sl)
    decreases e
  {
    match e
    case LetVal(_, name, val, cont) =>
      var k := UsesOfCont(cont, sl);
      Joined(Reading(ValReads(val), sl), k.(read := k.read - {name.id}, filled := {name.id} * sl.all + k.filled))
    case LetFn(_, name, params, _, body, cont) =>
      var rest := if cont.Inline? then UsesOf(cont.body, sl) else Reading([cont.target], sl);
      Joined(Within(Under(ParamIds(params), UsesOf(body, sl)), sl), Under({name.id}, rest))
    case App(_, func, args) => Joined(Reading(CallableReads(func), sl), UsesOfArgs(args, KeepsInline(func), sl))
    case If(_, cond, thn, els) => Joined(Reading(ValReads(cond), sl), Joined(UsesOf(thn, sl), UsesOf(els, sl)))
    case LetRec(_, slots, body) => Declaring(BindIds(slots), UsesOf(body, sl))
    case Set(_, name, val, cont) =>
      Joined(Reading(ValReads(val), sl), Joined(NO_USES.(written := {name.id} * sl.all), UsesOfCont(cont, sl)))
    case Closure(_, funcref, captures, cont) =>
      Joined(Reading(ValReads(funcref) + CaptureReads(captures), sl), UsesOfCont(cont, sl))
    case LetCaps(_, caps, binds, cont) => Joined(Reading(ValReads(caps), sl), Under(BindIds(binds), UsesOfCont(cont, sl)))
  }

  function UsesOfCont(c: Cont, sl: Slots): (u: Uses)
    ensures OfSlots(u, sl)
    decreases c
  {
    match c
    case ContTo(k) => Reading([k], sl)
    case Inline(args, body) => Under(BindIds(args), UsesOf(body, sl))
  }

  function UsesOfArgs(args: List<Arg>, kept: bool, sl: Slots): (u: Uses)
    ensures OfSlots(u, sl)
    decreases args
  {
    match args
    case Nil => NO_USES
    case Cons(a, rest) => Joined(UsesOfArg(a, kept, sl), UsesOfArgs(rest, kept, sl))
  }

  /** An inline continuation stays in its function where the call keeps it; elsewhere it becomes one. */
  function UsesOfArg(a: Arg, kept: bool, sl: Slots): (u: Uses)
    ensures OfSlots(u, sl)
    decreases a
  {
    match a
    case ArgVal(v) => Reading(ValReads(v), sl)
    case ArgSpread(v) => Reading(ValReads(v), sl)
    case ArgCont(c) =>
      if kept || c.ContTo? then UsesOfCont(c, sl) else Within(UsesOfCont(c, sl), sl)
    case ArgExpr(e) => UsesOf(e, sl)
  }

  /** The slots of a module; the outer ones stand outside every function and every continuation of a call that
      will become one. */
  function SlotsIn(root: Expr): Slots {
    var all := SlotIds(root);
    Slots(all, all - UsesOf(root, Slots(all, {})).inner)
  }

  /** Every function of the module, and every continuation that will become one, reaches the slots it fills. */
  predicate SlotsReached(root: Expr) {
    UsesOf(root, SlotsIn(root)).reached
  }

  // ---- Threading keeps them -------------------------------------------------------------------------

  /** Bindings of ids that are no slots hide nothing. */
  lemma UnderOthers(ids: set<CpsId>, more: set<CpsId>, u: Uses, sl: Slots)
    requires OfSlots(u, sl) && more !! sl.all
    ensures Under(more + ids, u) == Under(ids, u) && Under(more, u) == u
  {
  }

  lemma ReadOther(v: Val, sl: Slots)
    requires forall x :: x in ValReads(v) ==> x !in sl.all
    ensures Reading(ValReads(v), sl) == NO_USES
  {
  }

  lemma JoinedNothing(u: Uses)
    ensures Joined(NO_USES, u) == u
  {
  }

  ghost predicate Aside(stack: CtxStack, next: nat, sl: Slots) {
    (forall x :: x in sl.all ==> x < next) && (stack != [] ==> stack[|stack| - 1] !in sl.all)
  }

  lemma ConsParamIds(params: seq<Param>, p: Param)
    ensures ParamIds([p] + params) == {p.bind.id} + ParamIds(params)
  {
  }

  lemma ConsBindIds(binds: seq<BindNode>, b: BindNode)
    ensures BindIds([b] + binds) == {b.id} + BindIds(binds)
  {
  }

  lemma {:induction false} ThreadKeepsUses(e: Expr, stack: CtxStack, next: nat, sl: Slots)
    requires Aside(stack, next, sl)
    ensures UsesOf(ThreadExpr(e, stack, next).0, sl) == UsesOf(e, sl)
    decreases e
  {
    hide Joined, Under, Reading, Within, Declaring, OfSlots;
    match e
    case LetVal(_, _, _, cont) => ThreadContKeepsUses(cont, false, stack, next, sl);
    case LetFn(_, _, params, _, body, cont) =>
      ThreadKeepsUses(body, stack + [next], next + 1, sl);
      ConsParamIds(params, Name(BindNode(next, Ctx)));
      UnderOthers(ParamIds(params), {next}, UsesOf(body, sl), sl);
      if cont.Inline? {
        ThreadKeepsUses(cont.body, stack, ThreadExpr(body, stack + [next], next + 1).1, sl);
      }
    case App(_, func, args) =>
      if !IsModuleEntry(func) && stack != [] {
        ThreadArgsKeepsUses(args, KeepsInline(func), true, stack, next + 1, sl);
        var v := Val(next, Ref(stack[|stack| - 1]));
        ReadOther(v, sl);
        var a := ThreadArgs(args, true, stack, next + 1).0;
        JoinedNothing(UsesOfArgs(a, KeepsInline(func), sl));
        assert UsesOfArgs(Cons(ArgVal(v), a), KeepsInline(func), sl) == UsesOfArgs(a, KeepsInline(func), sl);
      } else {
        ThreadArgsKeepsUses(args, KeepsInline(func), !IsModuleEntry(func), stack, next, sl);
      }
    case If(_, _, thn, els) =>
      ThreadKeepsUses(thn, stack, next, sl);
      ThreadKeepsUses(els, stack, ThreadExpr(thn, stack, next).1, sl);
    case LetRec(_, _, body) => ThreadKeepsUses(body, stack, next, sl);
    case Set(_, _, _, cont) => ThreadContKeepsUses(cont, false, stack, next, sl);
    case Closure(_, _, _, cont) => ThreadContKeepsUses(cont, false, stack, next, sl);
    case LetCaps(_, _, _, cont) => ThreadContKeepsUses(cont, false, stack, next, sl);
  }

  lemma {:induction false} ThreadContKeepsUses(c: Cont, prepend: bool, stack: CtxStack, next: nat, sl: Slots)
    requires Aside(stack, next, sl)
    ensures UsesOfCont(ThreadCont(c, prepend, stack, next).0, sl) == UsesOfCont(c, sl)
    decreases c
  {
    hide Joined, Under, Reading, Within, OfSlots;
    if c.Inline? {
      if prepend {
        ThreadKeepsUses(c.body, stack + [next], next + 1, sl);
        ConsBindIds(c.args, BindNode(next, Ctx));
        UnderOthers(BindIds(c.args), {next}, UsesOf(c.body, sl), sl);
      } else {
        ThreadKeepsUses(c.body, stack, next, sl);
      }
    }
  }

  lemma {:induction false} ThreadArgsKeepsUses(args: List<Arg>, kept: bool, prepend: bool, stack: CtxStack, next: nat, sl: Slots)
    requires Aside(stack, next, sl)
    ensures UsesOfArgs(ThreadArgs(args, prepend, stack, next).0, kept, sl) == UsesOfArgs(args, kept, sl)
    decreases args
  {
    hide Joined, Under, Reading, Within, OfSlots;
    match args
    case Nil =>
    case Cons(a, rest) =>
      ThreadArgsKeepsUses(rest, kept, prepend, stack, ThreadArg(a, prepend, stack, next).1, sl);
      match a
      case ArgCont(c) => ThreadContKeepsUses(c, prepend, stack, next, sl);
      case ArgExpr(e) => ThreadKeepsUses(e, stack, next, sl);
      case _ =>
  }

  // ---- Lifting keeps them ---------------------------------------------------------------------------

  ghost predicate SlotsBelow(next: nat, sl: Slots) {
    forall x :: x in sl.all ==> x < next
  }

  lemma {:induction false} LiftKeepsUses(e: Expr, next: nat, sl: Slots)
    requires SlotsBelow(next, sl)
    ensures UsesOf(LiftExpr(e, next).0, sl) == UsesOf(e, sl)
    decreases e
  {
    hide Joined, Under, Reading, Within, Declaring, OfSlots;
    match e
    case LetVal(_, _, _, cont) => LiftContKeepsUses(cont, next, sl);
    case LetFn(_, _, _, _, body, cont) =>
      LiftKeepsUses(body, next, sl);
      if cont.Inline? {
        LiftKeepsUses(cont.body, LiftExpr(body, next).1, sl);
      }
    case App(id, func, args) =>
      LiftArgsKeepsUses(args, KeepsInline(func), next, sl);
      var a := LiftArgs(args, next);
      if !KeepsInline(func) {
        UserAppUses(id, func, a.0, a.1, sl);
      }
    case If(_, _, thn, els) =>
      LiftKeepsUses(thn, next, sl);
      LiftKeepsUses(els, LiftExpr(thn, next).1, sl);
    case LetRec(_, _, body) => LiftKeepsUses(body, next, sl);
    case Set(_, _, _, cont) => LiftContKeepsUses(cont, next, sl);
    case Closure(_, _, _, cont) => LiftContKeepsUses(cont, next, sl);
    case LetCaps(_, _, _, cont) => LiftContKeepsUses(cont, next, sl);
  }

  lemma {:induction false} LiftContKeepsUses(c: Cont, next: nat, sl: Slots)
    requires SlotsBelow(next, sl)
    ensures UsesOfCont(LiftCont(c, next).0, sl) == UsesOfCont(c, sl)
    decreases c
  {
    hide Joined, Under, Reading, Within, OfSlots;
    if c.Inline? {
      LiftKeepsUses(c.body, next, sl);
    }
  }

  lemma {:induction false} LiftArgsKeepsUses(args: List<Arg>, kept: bool, next: nat, sl: Slots)
    requires SlotsBelow(next, sl)
    ensures UsesOfArgs(LiftArgs(args, next).0, kept, sl) == UsesOfArgs(args, kept, sl)
    decreases args
  {
    hide Joined, Under, Reading, Within, OfSlots;
    match args
    case Nil =>
    case Cons(a, rest) =>
      LiftArgsKeepsUses(rest, kept, LiftArg(a, next).1, sl);
      match a
      case ArgCont(c) => LiftContKeepsUses(c, next, sl);
      case ArgExpr(e) => LiftKeepsUses(e, next, sl);
      case _ =>
  }

  /** What the continuations taken out of a call do, each as a function. */
  function ContsUses(conts: seq<LiftedCont>, sl: Slots): Uses {
    if conts == [] then NO_USES
    else Joined(Within(Under(BindIds(conts[0].params), UsesOf(conts[0].body, sl)), sl), ContsUses(conts[1..], sl))
  }

  lemma JoinedSwaps(a: Uses, b: Uses, c: Uses)
    ensures Joined(a, Joined(b, c)) == Joined(b, Joined(a, c)) == Joined(Joined(a, b), c)
  {
  }

  lemma {:induction false} ReplacedUses(args: List<Arg>, at: nat, sl: Slots)
    requires SlotsBelow(at, sl)
    ensures var r := Replace(args, at);
            && Joined(ContsUses(r.conts, sl), UsesOfArgs(r.args, false, sl)) == UsesOfArgs(args, false, sl)
            && forall c :: c in r.conts ==> c.fnId !in sl.all
    decreases args
  {
    hide Joined, Under, Within, Reading, OfSlots;
    match args
    case Nil => JoinedNothing(NO_USES);
    case Cons(a, rest) =>
      if a.ArgCont? && a.cont.Inline? {
        ReplaceInline(a.cont.args, a.cont.body, rest, at);
        ReplacedUses(rest, at + 2, sl);
        var r := Replace(rest, at + 2);
        ReadOther(Val(at + 1, Ref(at)), sl);
        JoinedNothing(UsesOfArgs(r.args, false, sl));
        assert UsesOfArgs(Replace(args, at).args, false, sl) == UsesOfArgs(r.args, false, sl);
        var conts := Replace(args, at).conts;
        assert conts[1..] == r.conts;
        assert UsesOfCont(a.cont, sl) == Under(BindIds(a.cont.args), UsesOf(a.cont.body, sl));
        assert ContsUses(conts, sl) == Joined(UsesOfArg(a, false, sl), ContsUses(r.conts, sl));
        JoinedSwaps(UsesOfArg(a, false, sl), ContsUses(r.conts, sl), UsesOfArgs(r.args, false, sl));
      } else {
        ReplaceOther(a, rest, at);
        ReplacedUses(rest, at, sl);
        var r := Replace(rest, at);
        JoinedSwaps(ContsUses(r.conts, sl), UsesOfArg(a, false, sl), UsesOfArgs(r.args, false, sl));
      }
  }

  lemma {:induction false} WrappedUses(conts: seq<LiftedCont>, inner: Expr, next: nat, sl: Slots)
    requires forall c :: c in conts ==> c.fnId !in sl.all
    ensures UsesOf(Wrap(conts, inner, next), sl) == Joined(ContsUses(conts, sl), UsesOf(inner, sl))
    decreases conts
  {
    hide Joined, Under, Within, Reading, OfSlots;
    if conts == [] {
      JoinedNothing(UsesOf(inner, sl));
    } else {
      var rest := Wrap(conts[1..], inner, next);
      WrappedUses(conts[1..], inner, next, sl);
      assert conts[0] in conts;
      UnderOthers({}, {conts[0].fnId}, UsesOf(rest, sl), sl);
      JoinedSwaps(Within(Under(BindIds(conts[0].params), UsesOf(conts[0].body, sl)), sl), ContsUses(conts[1..], sl),
                  UsesOf(inner, sl));
    }
  }

  lemma UserAppUses(id: CpsId, func: Callable, args: List<Arg>, at: nat, sl: Slots)
    requires SlotsBelow(at, sl) && !KeepsInline(func)
    ensures UsesOf(LiftUserApp(id, func, args, at).0, sl) == UsesOf(App(id, func, args), sl)
  {
    hide Joined, Under, Within, Reading, OfSlots;
    var r := Replace(args, at);
    ReplacedUses(args, at, sl);
    WrappedUses(r.conts, App(id, func, r.args), r.next, sl);
    JoinedSwaps(ContsUses(r.conts, sl), Reading(CallableReads(func), sl), UsesOfArgs(r.args, false, sl));
  }

  // ---- What they are on lifted programs -------------------------------------------------------------

  /** The uses of a lifted program, as conversion and its proof speak of them. */
  function UsesLifted(e: Expr, stack: CtxStack, sl: Slots): Uses {
    Uses(Among(Occ(e, stack), sl), SetTargets(e) * sl.all, LetNames(e) * sl.all, SlotIds(e), InnerSlots(e),
         SetsReach(e, stack, sl))
  }

  function UsesLiftedCont(c: Cont, stack: CtxStack, sl: Slots): Uses {
    Uses(Among(OccCont(c, stack), sl), SetTargetsCont(c) * sl.all, LetNamesCont(c) * sl.all, SlotIdsCont(c),
         InnerSlotsCont(c), SetsReachCont(c, stack, sl))
  }

  function UsesLiftedArgs(args: List<Arg>, stack: CtxStack, sl: Slots): Uses {
    Uses(Among(OccArgs(args, stack), sl), SetTargetsArgs(args) * sl.all, LetNamesArgs(args) * sl.all, SlotIdsArgs(args),
         InnerSlotsArgs(args), SetsReachArgs(args, stack, sl))
  }

  lemma AmongMinus(occ: seq<CpsId>, ids: set<CpsId>, sl: Slots)
    ensures Among(Minus(occ, ids), sl) == Among(occ, sl) - ids
  {
    InMinus(occ, ids);
  }

  lemma AmongConcat(a: seq<CpsId>, b: seq<CpsId>, sl: Slots)
    ensures Among(a + b, sl) == Among(a, sl) + Among(b, sl)
  {
  }

  lemma AmongFrees(params: seq<Param>, body: Expr, stack: CtxStack, sl: Slots)
    ensures Among(FreeVarsOf(params, body, stack), sl) == Among(Occ(body, Enter(params, stack)), sl) - ParamIds(params)
  {
    var occ := Occ(body, Enter(params, stack));
    InMinus(occ, ParamIds(params));
    InInsertAll([], Minus(occ, ParamIds(params)));
  }

  /** Capture is what makes a set slot reachable: a function captures the slots it reads. */
  lemma ReachesIs(params: seq<Param>, body: Expr, stack: CtxStack, sl: Slots)
    ensures ReachesSlots(params, body, stack, sl)
            <==> Reaches(Under(ParamIds(params), UsesLifted(body, Enter(params, stack), sl)), sl)
  {
    hide FreeVarsOf, SetTargets, LetNames, SetsReach, SlotIds, InnerSlots, Occ, ParamIds;
    AmongFrees(params, body, stack, sl);
    var u := Under(ParamIds(params), UsesLifted(body, Enter(params, stack), sl));
    var frees := FreeVarsOf(params, body, stack);
    assert u.read == Among(frees, sl);
    if ReachesSlots(params, body, stack, sl) {
      forall x | x in u.written && x !in sl.outer
        ensures x in u.read
      {
        assert x in SetTargets(body) && x in frees;
      }
      forall x | x in u.filled
        ensures x in sl.outer
      {
        assert x in LetNames(body);
      }
    }
    if Reaches(u, sl) {
      forall x | x in SetTargets(body) && x in sl.all && x !in ParamIds(params) && x !in sl.outer
        ensures x in frees
      {
        assert x in u.written && x in u.read;
      }
      forall x | x in LetNames(body) && x in sl.all
        ensures x in sl.outer
      {
        assert x in u.filled;
      }
    }
  }

  ghost predicate TopAside(stack: CtxStack, sl: Slots) {
    stack != [] ==> stack[|stack| - 1] !in sl.all
  }

  // One equation for each kind of node.

  lemma LiftedLetVal(e: Expr, stack: CtxStack, sl: Slots)
    requires e.LetVal?
    ensures var k := UsesLiftedCont(e.cont, stack, sl);
            UsesLifted(e, stack, sl)
            == Joined(Reading(ValReads(e.val), sl), k.(read := k.read - {e.name.id}, filled := {e.name.id} * sl.all + k.filled))
  {
    AmongMinus(OccCont(e.cont, stack), {e.name.id}, sl);
    AmongConcat(ValReads(e.val), Minus(OccCont(e.cont, stack), {e.name.id}), sl);
  }

  lemma LiftedLetFn(e: Expr, stack: CtxStack, sl: Slots)
    requires e.LetFn? && TopAside(stack, sl)
    ensures var rest := if e.cont.Inline? then UsesLifted(e.cont.body, stack, sl) else Reading([e.cont.target], sl);
            var own := Under(ParamIds(e.params), UsesLifted(e.fnBody, Enter(e.params, stack), sl));
            UsesLifted(e, stack, sl) == Joined(Within(own, sl), Under({e.name.id}, rest))
  {
    hide Reaches, ReachesSlots;
    var LetFn(_, name, params, _, body, cont) := e;
    var inner := Occ(body, Enter(params, stack));
    ReachesIs(params, body, stack, sl);
    AmongMinus(inner, ParamIds(params), sl);
    var after := if cont.Inline? then Occ(cont.body, stack) else [cont.target] + Innermost(stack);
    AmongMinus(after, {name.id}, sl);
    AmongConcat(Minus(inner, ParamIds(params)), Minus(after, {name.id}), sl);
    if cont.ContTo? {
      AmongConcat([cont.target], Innermost(stack), sl);
      assert Among(Innermost(stack), sl) == {};
    }
    var own := Under(ParamIds(params), UsesLifted(body, Enter(params, stack), sl));
    var rest := if cont.Inline? then UsesLifted(cont.body, stack, sl) else Reading([cont.target], sl);
    var u, u' := UsesLifted(e, stack, sl), Joined(Within(own, sl), Under({name.id}, rest));
    assert LetNames(e) == LetNamesCont(cont) == if cont.Inline? then LetNames(cont.body) else {};
    assert SlotIdsCont(cont) == if cont.Inline? then SlotIds(cont.body) else {};
    assert InnerSlotsCont(cont) == if cont.Inline? then InnerSlots(cont.body) else {};
    assert SetsReachCont(cont, stack, sl) == (cont.Inline? ==> SetsReach(cont.body, stack, sl));
    assert u.read == u'.read && u.written == u'.written && u.filled == u'.filled;
    assert u.declared == u'.declared && u.inner == u'.inner;
  }

  lemma LiftedApp(e: Expr, stack: CtxStack, sl: Slots)
    requires e.App?
    ensures UsesLifted(e, stack, sl) == Joined(Reading(CallableReads(e.func), sl), UsesLiftedArgs(e.args, stack, sl))
  {
    AmongConcat(CallableReads(e.func), OccArgs(e.args, stack), sl);
  }

  lemma LiftedIf(e: Expr, stack: CtxStack, sl: Slots)
    requires e.If?
    ensures UsesLifted(e, stack, sl)
            == Joined(Reading(ValReads(e.cond), sl), Joined(UsesLifted(e.thn, stack, sl), UsesLifted(e.els, stack, sl)))
  {
    AmongConcat(ValReads(e.cond), Occ(e.thn, stack), sl);
    AmongConcat(ValReads(e.cond) + Occ(e.thn, stack), Occ(e.els, stack), sl);
  }

  lemma LiftedLetRec(e: Expr, stack: CtxStack, sl: Slots)
    requires e.LetRec?
    ensures UsesLifted(e, stack, sl) == Declaring(BindIds(e.slots), UsesLifted(e.body, stack, sl))
  {
    AmongMinus(Occ(e.body, stack), BindIds(e.slots), sl);
  }

  lemma LiftedSet(e: Expr, stack: CtxStack, sl: Slots)
    requires e.Set?
    ensures UsesLifted(e, stack, sl)
            == Joined(Reading(ValReads(e.val), sl),
                      Joined(NO_USES.(written := {e.name.id} * sl.all), UsesLiftedCont(e.cont, stack, sl)))
  {
    AmongConcat(ValReads(e.val), OccCont(e.cont, stack), sl);
  }

  lemma LiftedCont(c: Cont, stack: CtxStack, sl: Slots)
    ensures UsesLiftedCont(c, stack, sl)
            == (if c.Inline? then Under(BindIds(c.args), UsesLifted(c.body, stack, sl)) else Reading([c.target], sl))
  {
    if c.Inline? {
      AmongMinus(Occ(c.body, stack), BindIds(c.args), sl);
    }
  }

  function UsesLiftedArg(a: Arg, stack: CtxStack, sl: Slots): Uses {
    match a
    case ArgVal(v) => Reading(ValReads(v), sl)
    case ArgSpread(v) => Reading(ValReads(v), sl)
    case ArgCont(c) => UsesLiftedCont(c, stack, sl)
    case ArgExpr(e) => UsesLifted(e, stack, sl)
  }

  lemma LiftedNoArgs(stack: CtxStack, sl: Slots)
    ensures UsesLiftedArgs(Nil, stack, sl) == NO_USES
  {
  }

  lemma LiftedArgs(a: Arg, rest: List<Arg>, stack: CtxStack, sl: Slots)
    ensures UsesLiftedArgs(Cons(a, rest), stack, sl) == Joined(UsesLiftedArg(a, stack, sl), UsesLiftedArgs(rest, stack, sl))
  {
    AmongConcat(OccArg(a, stack), OccArgs(rest, stack), sl);
    var u, u' := UsesLiftedArgs(Cons(a, rest), stack, sl), Joined(UsesLiftedArg(a, stack, sl), UsesLiftedArgs(rest, stack, sl));
    var v := UsesLiftedArg(a, stack, sl);
    assert v.written == SetTargetsArg(a) * sl.all && v.filled == LetNamesArg(a) * sl.all && v.reached == SetsReachArg(a, stack, sl);
    assert u.written == u'.written && u.filled == u'.filled && u.declared == u'.declared && u.inner == u'.inner;
  }

  lemma {:induction false} LiftedUses(e: Expr, stack: CtxStack, scope: set<CpsId>, pr: Program, sl: Slots)
    requires WellScoped(e, scope, pr) && InlineKept(e) && pr.slots == sl.all && TopAside(stack, sl)
    ensures UsesOf(e, sl) == UsesLifted(e, stack, sl)
    decreases e
  {
    hide UsesLifted, UsesLiftedCont, UsesLiftedArgs, Joined, Under, Reading, Within, Declaring, OfSlots;
    match e
    case LetVal(_, name, _, cont) =>
      LiftedLetVal(e, stack, sl);
      LiftedUsesCont(cont, stack, scope + {name.id}, pr, sl);
    case LetFn(_, name, params, _, body, cont) =>
      LiftedLetFn(e, stack, sl);
      CtxParamIsParam(params);
      LiftedUses(body, Enter(params, stack), scope + ParamIds(params), pr, sl);
      if cont.Inline? {
        LiftedUses(cont.body, stack, scope + {name.id}, pr, sl);
      }
    case App(_, func, args) =>
      LiftedApp(e, stack, sl);
      LiftedUsesArgs(args, KeepsInline(func), stack, scope, pr, sl);
    case If(_, _, thn, els) =>
      LiftedIf(e, stack, sl);
      LiftedUses(thn, stack, scope, pr, sl);
      LiftedUses(els, stack, scope, pr, sl);
    case LetRec(_, slots, body) =>
      LiftedLetRec(e, stack, sl);
      LiftedUses(body, stack, scope + BindIds(slots), pr, sl);
    case Set(_, _, _, cont) =>
      LiftedSet(e, stack, sl);
      LiftedUsesCont(cont, stack, scope, pr, sl);
  }

  lemma {:induction false} LiftedUsesCont(c: Cont, stack: CtxStack, scope: set<CpsId>, pr: Program, sl: Slots)
    requires WellScopedCont(c, scope, pr) && InlineKeptCont(c) && pr.slots == sl.all && TopAside(stack, sl)
    ensures UsesOfCont(c, sl) == UsesLiftedCont(c, stack, sl)
    decreases c
  {
    hide UsesLifted, UsesLiftedCont, Under, Reading, OfSlots;
    LiftedCont(c, stack, sl);
    if c.Inline? {
      LiftedUses(c.body, stack, scope + BindIds(c.args), pr, sl);
    }
  }

  lemma {:induction false} LiftedUsesArgs(args: List<Arg>, kept: bool, stack: CtxStack, scope: set<CpsId>, pr: Program, sl: Slots)
    requires WellScopedArgs(args, scope, pr) && InlineKeptArgs(args) && (kept || NoInline(args))
    requires pr.slots == sl.all && TopAside(stack, sl)
    ensures UsesOfArgs(args, kept, sl) == UsesLiftedArgs(args, stack, sl)
    decreases args
  {
    hide UsesLifted, UsesLiftedCont, UsesLiftedArgs, Joined, Under, Reading, Within, OfSlots;
    match args
    case Nil => LiftedNoArgs(stack, sl);
    case Cons(a, rest) =>
      LiftedArgs(a, rest, stack, sl);
      LiftedUsesArgs(rest, kept, stack, scope, pr, sl);
      match a
      case ArgCont(c) => LiftedUsesCont(c, stack, scope, pr, sl);
      case ArgExpr(e) => LiftedUses(e, stack, scope, pr, sl);
      case _ =>
  }

  // ---- Whole modules --------------------------------------------------------------------------------

  lemma ModuleUses(root: Expr, sl: Slots)
    requires ModuleShaped(root)
    ensures var m := root.args.head.cont; UsesOf(root, sl) == Under(BindIds(m.args), UsesOf(m.body, sl))
  {
    var m := root.args.head.cont;
    var u := UsesOfCont(m, sl);
    assert UsesOfArgs(Nil, true, sl) == NO_USES && UsesOfArg(root.args.head, true, sl) == u;
    assert Joined(u, NO_USES) == u && Joined(NO_USES, u) == u && Reading([], sl) == NO_USES;
  }

  /** Threading and lifting a module keep what it does to its slots. */
  lemma PassesKeepUses(root: Expr, next: nat, sl: Slots)
    requires ModuleShaped(root) && SlotsBelow(next, sl) && root.args.head.cont.args[0].id !in sl.all
    ensures var t := ThreadProgram(root, next);
            UsesOf(LiftExpr(t.0, t.1).0, sl) == UsesOf(root, sl)
  {
    hide Under, UsesOf;
    var m := root.args.head.cont;
    var b := ThreadExpr(m.body, [m.args[0].id], next);
    ThreadKeepsUses(m.body, [m.args[0].id], next, sl);
    ModuleUses(root, sl);
    ModuleUses(ModuleWith(root, b.0), sl);
    LiftKeepsUses(ModuleWith(root, b.0), b.1, sl);
  }
}
