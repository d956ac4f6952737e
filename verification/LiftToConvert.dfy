/** Lifted programs are what closure conversion expects. */
module LiftToConvert {
  import opened Collections
  import opened CpsIr
  import opened FreeVars
  import opened Convert
  import opened ConvertInput
  import opened ConvertTyping
  import opened ConvertProof
  import opened ContLift
  import opened ContLiftScope

  /** Every function, and every inline continuation that will become one, leads with a context
      parameter of its own; a definition that hands its closure to a named continuation sits inside a
      function; no binding is marked as a cell yet. */
  predicate Threaded(e: Expr, inFn: bool)
    decreases e
  {
    match e
    case LetVal(_, _, _, cont) => ThreadedCont(cont, inFn)
    case LetFn(_, _, params, _, body, cont) =>
      && OwnsCtx(params) && Threaded(body, true)
      && (cont.ContTo? ==> inFn)
      && (cont.Inline? ==> forall a :: a in cont.args ==> a.kind != Slot)
      && ThreadedCont(cont, inFn)
    case App(_, func, args) => ThreadedArgs(args, KeepsInline(func), inFn)
    case If(_, _, thn, els) => Threaded(thn, inFn) && Threaded(els, inFn)
    case LetRec(_, _, body) => Threaded(body, inFn)
    case Set(_, name, _, cont) => name.kind != Slot && ThreadedCont(cont, inFn)
    case Closure(_, _, _, cont) => ThreadedCont(cont, inFn)
    case LetCaps(_, _, _, cont) => ThreadedCont(cont, inFn)
  }

  predicate ThreadedCont(c: Cont, inFn: bool)
    decreases c
  {
    c.Inline? ==> Threaded(c.body, inFn)
  }

  predicate ThreadedArgs(args: List<Arg>, kept: bool, inFn: bool)
    decreases args
  {
    match args
    case Nil => true
    case Cons(a, rest) => ThreadedArg(a, kept, inFn) && ThreadedArgs(rest, kept, inFn)
  }

  predicate ThreadedArg(a: Arg, kept: bool, inFn: bool)
    decreases a
  {
    match a
    case ArgCont(Inline(binds, body)) => if kept then Threaded(body, inFn) else OwnsCtx(Names(binds)) && Threaded(body, true)
    case ArgExpr(e) => Threaded(e, inFn)
    case _ => true
  }

  // ---- Lifting keeps it -----------------------------------------------------------------------------

  lemma {:induction false} LiftKeepsThreaded(e: Expr, next: nat, inFn: bool)
    requires Threaded(e, inFn)
    ensures Threaded(LiftExpr(e, next).0, inFn)
    decreases e
  {
    match e
    case LetVal(_, _, _, cont) => LiftContKeepsThreaded(cont, next, inFn);
    case LetFn(_, _, _, _, body, cont) =>
      LiftKeepsThreaded(body, next, true);
      LiftContKeepsThreaded(cont, LiftExpr(body, next).1, inFn);
    case App(id, func, args) =>
      LiftArgsKeepsThreaded(args, next, KeepsInline(func), inFn);
      var a := LiftArgs(args, next);
      if !KeepsInline(func) {
        var r := Replace(a.0, a.1);
        ReplacedThreaded(a.0, a.1, inFn);
        WrapThreaded(r.conts, App(id, func, r.args), r.next, inFn);
      }
    case If(_, _, thn, els) =>
      LiftKeepsThreaded(thn, next, inFn);
      LiftKeepsThreaded(els, LiftExpr(thn, next).1, inFn);
    case LetRec(_, _, body) => LiftKeepsThreaded(body, next, inFn);
    case Set(_, _, _, cont) => LiftContKeepsThreaded(cont, next, inFn);
    case Closure(_, _, _, cont) => LiftContKeepsThreaded(cont, next, inFn);
    case LetCaps(_, _, _, cont) => LiftContKeepsThreaded(cont, next, inFn);
  }

  lemma {:induction false} LiftContKeepsThreaded(c: Cont, next: nat, inFn: bool)
    requires ThreadedCont(c, inFn)
    ensures ThreadedCont(LiftCont(c, next).0, inFn)
    decreases c
  {
    if c.Inline? {
      LiftKeepsThreaded(c.body, next, inFn);
    }
  }

  lemma {:induction false} LiftArgsKeepsThreaded(args: List<Arg>, next: nat, kept: bool, inFn: bool)
    requires ThreadedArgs(args, kept, inFn)
    ensures ThreadedArgs(LiftArgs(args, next).0, kept, inFn)
    decreases args
  {
    match args
    case Nil =>
    case Cons(a, rest) =>
      LiftArgsKeepsThreaded(rest, LiftArg(a, next).1, kept, inFn);
      match a
      case ArgCont(Inline(binds, body)) =>
        LiftedInline(binds, body, next);
        LiftKeepsThreaded(body, next, if kept then inFn else true);
      case ArgExpr(e) => LiftKeepsThreaded(e, next, inFn);
      case _ =>
  }

  ghost predicate ContThreaded(c: LiftedCont) {
    OwnsCtx(Names(c.params)) && Threaded(c.body, true)
  }

  lemma {:induction false} ReplacedThreaded(args: List<Arg>, at: nat, inFn: bool)
    requires ThreadedArgs(args, false, inFn)
    ensures var r := Replace(args, at);
            ThreadedArgs(r.args, false, inFn) && forall c :: c in r.conts ==> ContThreaded(c)
  {
    match args
    case Nil =>
    case Cons(a, rest) =>
      if a.ArgCont? && a.cont.Inline? {
        ReplaceInline(a.cont.args, a.cont.body, rest, at);
        ReplacedThreaded(rest, at + 2, inFn);
        assert ThreadedArg(a, false, inFn) && ContThreaded(LiftedCont(at, a.cont.args, a.cont.body));
      } else {
        ReplaceOther(a, rest, at);
        ReplacedThreaded(rest, at, inFn);
      }
  }

  lemma {:induction false} WrapThreaded(conts: seq<LiftedCont>, inner: Expr, next: nat, inFn: bool)
    requires Threaded(inner, inFn) && forall c :: c in conts ==> ContThreaded(c)
    ensures Threaded(Wrap(conts, inner, next), inFn)
    decreases conts
  {
    if conts != [] {
      WrapThreaded(conts[1..], inner, next, inFn);
      assert ContThreaded(conts[0]) && ThreadedCont(Inline([], Wrap(conts[1..], inner, next)), inFn);
    }
  }

  // ---- Slots ----------------------------------------------------------------------------------------

  lemma {:induction false} LiftKeepsSlots(e: Expr, next: nat)
    ensures SlotIds(LiftExpr(e, next).0) == SlotIds(e)
    decreases e
  {
    match e
    case LetVal(_, _, _, cont) => LiftContKeepsSlots(cont, next);
    case LetFn(_, _, _, _, body, cont) =>
      LiftKeepsSlots(body, next);
      LiftContKeepsSlots(cont, LiftExpr(body, next).1);
    case App(id, func, args) =>
      LiftArgsKeepsSlots(args, next);
      var a := LiftArgs(args, next);
      if !KeepsInline(func) {
        var r := Replace(a.0, a.1);
        ReplacedSlots(a.0, a.1);
        WrapSlots(r.conts, App(id, func, r.args), r.next);
      }
    case If(_, _, thn, els) =>
      LiftKeepsSlots(thn, next);
      LiftKeepsSlots(els, LiftExpr(thn, next).1);
    case LetRec(_, _, body) => LiftKeepsSlots(body, next);
    case Set(_, _, _, cont) => LiftContKeepsSlots(cont, next);
    case Closure(_, _, _, cont) => LiftContKeepsSlots(cont, next);
    case LetCaps(_, _, _, cont) => LiftContKeepsSlots(cont, next);
  }

  lemma {:induction false} LiftContKeepsSlots(c: Cont, next: nat)
    ensures SlotIdsCont(LiftCont(c, next).0) == SlotIdsCont(c)
    decreases c
  {
    if c.Inline? {
      LiftKeepsSlots(c.body, next);
    }
  }

  lemma {:induction false} LiftArgsKeepsSlots(args: List<Arg>, next: nat)
    ensures SlotIdsArgs(LiftArgs(args, next).0) == SlotIdsArgs(args)
    decreases args
  {
    match args
    case Nil =>
    case Cons(a, rest) =>
      LiftArgsKeepsSlots(rest, LiftArg(a, next).1);
      match a
      case ArgCont(c) => LiftContKeepsSlots(c, next);
      case ArgExpr(e) => LiftKeepsSlots(e, next);
      case _ =>
  }

  function ContsSlots(conts: seq<LiftedCont>): set<CpsId> {
    if conts == [] then {} else SlotIds(conts[0].body) + ContsSlots(conts[1..])
  }

  lemma {:induction false} ReplacedSlots(args: List<Arg>, at: nat)
    ensures var r := Replace(args, at); SlotIdsArgs(r.args) + ContsSlots(r.conts) == SlotIdsArgs(args)
  {
    match args
    case Nil =>
    case Cons(a, rest) =>
      if a.ArgCont? && a.cont.Inline? {
        ReplaceInline(a.cont.args, a.cont.body, rest, at);
        ReplacedSlots(rest, at + 2);
        assert Replace(args, at).conts[1..] == Replace(rest, at + 2).conts;
      } else {
        ReplaceOther(a, rest, at);
        ReplacedSlots(rest, at);
      }
  }

  lemma {:induction false} WrapSlots(conts: seq<LiftedCont>, inner: Expr, next: nat)
    ensures SlotIds(Wrap(conts, inner, next)) == SlotIds(inner) + ContsSlots(conts)
    decreases conts
  {
    if conts != [] {
      WrapSlots(conts[1..], inner, next);
      assert SlotIdsCont(Inline([], Wrap(conts[1..], inner, next))) == SlotIds(Wrap(conts[1..], inner, next));
    }
  }

  // ---- What follows for conversion ------------------------------------------------------------------

  /** What is declared in `e` inside some function, when `e` itself stands in one or not. */
  function DeclaredIn(e: Expr, inFn: bool): set<CpsId> {
    if inFn then SlotIds(e) else InnerSlots(e)
  }

  function DeclaredInCont(c: Cont, inFn: bool): set<CpsId> {
    if inFn then SlotIdsCont(c) else InnerSlotsCont(c)
  }

  function DeclaredInArgs(args: List<Arg>, inFn: bool): set<CpsId> {
    if inFn then SlotIdsArgs(args) else InnerSlotsArgs(args)
  }

  lemma {:induction false} ReadyExpr(e: Expr, stack: CtxStack, inFn: bool, sl: Slots)
    requires Threaded(e, inFn) && InlineKept(e) && (inFn <==> stack != []) && DeclaredIn(e, inFn) !! sl.outer
    ensures Forwardable(e, stack != []) && (Convertible(e, stack, sl) <==> SetsReach(e, stack, sl))
    decreases e
  {
    match e
    case LetVal(_, _, _, cont) => ReadyCont(cont, stack, inFn, sl);
    case LetFn(_, _, params, _, body, cont) =>
      assert CtxParam(params).Some?;
      ReadyExpr(body, Enter(params, stack), true, sl);
      ReadyCont(cont, stack, inFn, sl);
    case App(_, func, args) => ReadyArgs(args, stack, KeepsInline(func), inFn, sl);
    case If(_, _, thn, els) =>
      ReadyExpr(thn, stack, inFn, sl);
      ReadyExpr(els, stack, inFn, sl);
    case LetRec(_, _, body) => ReadyExpr(body, stack, inFn, sl);
    case Set(_, _, _, cont) => ReadyCont(cont, stack, inFn, sl);
    case Closure(_, _, _, cont) => ReadyCont(cont, stack, inFn, sl);
    case LetCaps(_, _, _, cont) => ReadyCont(cont, stack, inFn, sl);
  }

  lemma {:induction false} ReadyCont(c: Cont, stack: CtxStack, inFn: bool, sl: Slots)
    requires ThreadedCont(c, inFn) && InlineKeptCont(c) && (inFn <==> stack != []) && DeclaredInCont(c, inFn) !! sl.outer
    ensures ForwardableCont(c, stack != []) && (ConvertibleCont(c, stack, sl) <==> SetsReachCont(c, stack, sl))
    decreases c
  {
    if c.Inline? {
      ReadyExpr(c.body, stack, inFn, sl);
    }
  }

  lemma {:induction false} ReadyArgs(args: List<Arg>, stack: CtxStack, kept: bool, inFn: bool, sl: Slots)
    requires ThreadedArgs(args, kept, inFn) && InlineKeptArgs(args) && (kept || NoInline(args)) && (inFn <==> stack != [])
    requires DeclaredInArgs(args, inFn) !! sl.outer
    ensures ForwardableArgs(args, stack != []) && (ConvertibleArgs(args, stack, sl) <==> SetsReachArgs(args, stack, sl))
    decreases args
  {
    match args
    case Nil =>
    case Cons(a, rest) =>
      ReadyArgs(rest, stack, kept, inFn, sl);
      assert ThreadedArg(a, kept, inFn);
      match a
      case ArgCont(c) =>
        assert ThreadedCont(c, inFn);
        ReadyCont(c, stack, inFn, sl);
      case ArgExpr(e) => ReadyExpr(e, stack, inFn, sl);
      case _ =>
  }

  ghost predicate NoCells(nodes: seq<BindNode>) {
    forall b :: b in nodes ==> b.kind != Slot
  }

  lemma {:induction false} NoCellsYet(e: Expr, scope: set<CpsId>, pr: Program, inFn: bool)
    requires WellScoped(e, scope, pr) && Threaded(e, inFn)
    ensures NoCells(BindNodes(e))
    decreases e
  {
    match e
    case LetVal(_, name, _, cont) => NoCellsYetCont(cont, scope + {name.id}, pr, inFn);
    case LetFn(_, name, params, _, body, cont) =>
      NoCellsYet(body, scope + ParamIds(params), pr, true);
      NoCellsParams(params, scope, pr);
      if cont.Inline? {
        NoCellsYet(cont.body, scope + {name.id}, pr, inFn);
      }
    case App(_, func, args) => NoCellsYetArgs(args, scope, pr, KeepsInline(func), inFn);
    case If(_, _, thn, els) =>
      NoCellsYet(thn, scope, pr, inFn);
      NoCellsYet(els, scope, pr, inFn);
    case LetRec(_, slots, body) => NoCellsYet(body, scope + BindIds(slots), pr, inFn);
    case Set(_, _, _, cont) => NoCellsYetCont(cont, scope, pr, inFn);
  }

  lemma {:induction false} NoCellsParams(params: seq<Param>, scope: set<CpsId>, pr: Program)
    requires NewParams(params, scope, pr)
    ensures NoCells(ParamNodes(params))
  {
    if params != [] {
      assert params[0] in params && forall p :: p in params[1..] ==> p in params;
      NoCellsParams(params[1..], scope, pr);
    }
  }

  lemma {:induction false} NoCellsYetCont(c: Cont, scope: set<CpsId>, pr: Program, inFn: bool)
    requires WellScopedCont(c, scope, pr) && ThreadedCont(c, inFn)
    ensures NoCells(BindNodesCont(c))
    decreases c
  {
    if c.Inline? {
      NoCellsYet(c.body, scope + BindIds(c.args), pr, inFn);
    }
  }

  lemma {:induction false} NoCellsYetArgs(args: List<Arg>, scope: set<CpsId>, pr: Program, kept: bool, inFn: bool)
    requires WellScopedArgs(args, scope, pr) && ThreadedArgs(args, kept, inFn)
    ensures NoCells(BindNodesArgs(args))
    decreases args
  {
    match args
    case Nil =>
    case Cons(a, rest) =>
      NoCellsYetArgs(rest, scope, pr, kept, inFn);
      assert WellScopedArg(a, scope, pr) && ThreadedArg(a, kept, inFn);
      match a
      case ArgCont(c) => NoCellsYetCont(c, scope, pr, if kept then inFn else true);
      case ArgExpr(e) => NoCellsYet(e, scope, pr, inFn);
      case _ =>
  }

  lemma {:induction false} ScopedBelow(e: Expr, scope: set<CpsId>, pr: Program)
    requires WellScoped(e, scope, pr) && AllBelow(scope, pr.base)
    ensures IdsBelow(e, pr.base)
    decreases e
  {
    match e
    case LetVal(_, name, _, cont) => ScopedBelowCont(cont, scope + {name.id}, pr);
    case LetFn(_, name, params, _, body, cont) =>
      ScopedBelow(body, scope + ParamIds(params), pr);
      if cont.Inline? {
        ScopedBelow(cont.body, scope + {name.id}, pr);
      }
    case App(_, _, args) => ScopedBelowArgs(args, scope, pr);
    case If(_, _, thn, els) =>
      ScopedBelow(thn, scope, pr);
      ScopedBelow(els, scope, pr);
    case LetRec(_, slots, body) => ScopedBelow(body, scope + BindIds(slots), pr);
    case Set(_, _, _, cont) => ScopedBelowCont(cont, scope, pr);
  }

  lemma {:induction false} ScopedBelowCont(c: Cont, scope: set<CpsId>, pr: Program)
    requires WellScopedCont(c, scope, pr) && AllBelow(scope, pr.base)
    ensures IdsBelowCont(c, pr.base)
    decreases c
  {
    if c.Inline? {
      ScopedBelow(c.body, scope + BindIds(c.args), pr);
    }
  }

  lemma {:induction false} ScopedBelowArgs(args: List<Arg>, scope: set<CpsId>, pr: Program)
    requires WellScopedArgs(args, scope, pr) && AllBelow(scope, pr.base)
    ensures IdsBelowArgs(args, pr.base)
    decreases args
  {
    match args
    case Nil =>
    case Cons(a, rest) =>
      ScopedBelowArgs(rest, scope, pr);
      assert WellScopedArg(a, scope, pr);
      match a
      case ArgCont(c) => ScopedBelowCont(c, scope, pr);
      case ArgExpr(e) => ScopedBelow(e, scope, pr);
      case _ =>
  }

  /** A closed, well-scoped, threaded program. */
  ghost predicate ReadyToLift(root: Expr, next: nat) {
    && WellScoped(root, {}, Program(SlotIds(root), next)) && Threaded(root, false)
    && AllBelow(SlotIds(root), next)
  }

  /** Its lifted form is accepted by conversion; it is ready to be converted faithfully if every function in it
      reaches the slots it fills. */
  lemma LiftedIsReady(root: Expr, next: nat)
    requires ReadyToLift(root, next)
    ensures var r := LiftExpr(root, next);
            && ConvertAccepts(r.0, r.1) && (SetsReach(r.0, [], SlotsOf(r.0)) ==> ReadyToConvert(r.0, r.1))
  {
    hide Threaded, WellScoped, InlineKept, Convertible, Forwardable, SetsReach, LiftExpr;
    var r := LiftExpr(root, next);
    LiftKeepsScope(root, {}, SlotIds(root), next);
    LiftKeepsSlots(root, next);
    LiftKeepsThreaded(root, next, false);
    LiftLeavesInline(root, next);
    ReadyExpr(r.0, [], false, SlotsOf(r.0));
    NoCellsYet(r.0, {}, Program(SlotIds(r.0), r.1), false);
  }
}
