/** Threading keeps scoping, slots and unique binders, and leaves what continuation lifting expects. */
module ThreadCtxScope {
  import opened Collections
  import opened CpsIr
  import opened FreeVars
  import opened Convert
  import opened ConvertInput
  import opened ContLift
  import opened ContLiftScope
  import opened LiftToConvert
  import opened ThreadCtx

  // ---- Scoping --------------------------------------------------------------------------------------

  lemma NamesBelow(scope: set<CpsId>, slots: set<CpsId>, next: nat)
    requires AllBelow(scope, next) && AllBelow(slots, next)
    ensures next !in scope && next !in slots && AllBelow(scope + {next}, next + 1) && AllBelow(slots, next + 1)
  {
  }

  lemma {:induction false} ThreadKeepsScope(e: Expr, scope: set<CpsId>, slots: set<CpsId>, stack: CtxStack, next: nat)
    requires WellScoped(e, scope, Program(slots, next)) && AllBelow(scope, next) && AllBelow(slots, next)
    requires StackIn(stack, scope)
    ensures var r := ThreadExpr(e, stack, next); WellScoped(r.0, scope, Program(slots, r.1))
    decreases e, 1
  {
    match e
    case LetVal(_, name, _, cont) => ThreadContKeepsScope(cont, false, scope + {name.id}, slots, stack, next);
    case LetFn(_, _, _, _, _, _) => ThreadFnKeepsScope(e, scope, slots, stack, next);
    case App(_, func, args) =>
      if !IsModuleEntry(func) && stack != [] {
        assert scope + {} == scope;
        GrowArgs(args, scope, {}, Program(slots, next), next + 1);
        ThreadArgsKeepsScope(args, true, scope, slots, stack, next + 1);
      } else {
        ThreadArgsKeepsScope(args, !IsModuleEntry(func), scope, slots, stack, next);
      }
    case If(_, _, thn, els) =>
      var t := ThreadExpr(thn, stack, next);
      ThreadKeepsScope(thn, scope, slots, stack, next);
      Later(els, scope, Program(slots, next), t.1);
      ThreadKeepsScope(els, scope, slots, stack, t.1);
      Later(t.0, scope, Program(slots, t.1), ThreadExpr(els, stack, t.1).1);
    case LetRec(_, binds, body) => ThreadKeepsScope(body, scope + BindIds(binds), slots, stack, next);
    case Set(_, _, _, cont) => ThreadContKeepsScope(cont, false, scope, slots, stack, next);
  }

  /** Code under a fresh context binding. */
  lemma {:induction false} ThreadUnderCtx(body: Expr, scope: set<CpsId>, own: set<CpsId>, slots: set<CpsId>, stack: CtxStack,
                                          next: nat)
    requires WellScoped(body, scope + own, Program(slots, next)) && AllBelow(scope + own, next) && AllBelow(slots, next)
    ensures var r := ThreadExpr(body, stack + [next], next + 1);
            WellScoped(r.0, scope + ({next} + own), Program(slots, r.1))
    decreases body, 2
  {
    Grow(body, scope + own, {next}, Program(slots, next), next + 1);
    assert scope + own + {next} == scope + ({next} + own);
    ThreadKeepsScope(body, scope + ({next} + own), slots, stack + [next], next + 1);
  }

  lemma ConsIds(params: seq<Param>, p: Param)
    ensures ParamIds([p] + params) == {p.bind.id} + ParamIds(params)
  {
  }

  lemma ConsBinds(binds: seq<BindNode>, b: BindNode)
    ensures BindIds([b] + binds) == {b.id} + BindIds(binds)
  {
  }

  lemma {:induction false} ThreadFnKeepsScope(e: Expr, scope: set<CpsId>, slots: set<CpsId>, stack: CtxStack, next: nat)
    requires e.LetFn? && WellScoped(e, scope, Program(slots, next)) && AllBelow(scope, next) && AllBelow(slots, next)
    requires StackIn(stack, scope)
    ensures var r := ThreadExpr(e, stack, next); WellScoped(r.0, scope, Program(slots, r.1))
    decreases e, 0
  {
    var LetFn(_, name, params, _, body, cont) := e;
    var b := ThreadExpr(body, stack + [next], next + 1);
    var end := ThreadCont(cont, false, stack, b.1).1;
    var ctx := Name(BindNode(next, Ctx));
    ConsIds(params, ctx);
    NamesBelow(scope, slots, next);
    ThreadUnderCtx(body, scope, ParamIds(params), slots, stack, next);
    Later(b.0, scope + ParamIds([ctx] + params), Program(slots, b.1), end);
    if cont.Inline? {
      Later(cont.body, scope + {name.id}, Program(slots, next), b.1);
      ThreadKeepsScope(cont.body, scope + {name.id}, slots, stack, b.1);
    }
  }

  lemma {:induction false} ThreadContKeepsScope(c: Cont, prepend: bool, scope: set<CpsId>, slots: set<CpsId>, stack: CtxStack,
                                                next: nat)
    requires WellScopedCont(c, scope, Program(slots, next)) && AllBelow(scope, next) && AllBelow(slots, next)
    requires StackIn(stack, scope)
    ensures var r := ThreadCont(c, prepend, stack, next); WellScopedCont(r.0, scope, Program(slots, r.1))
    decreases c
  {
    if c.Inline? {
      if prepend {
        NamesBelow(scope, slots, next);
        ConsBinds(c.args, BindNode(next, Ctx));
        ThreadUnderCtx(c.body, scope, BindIds(c.args), slots, stack, next);
      } else {
        ThreadKeepsScope(c.body, scope + BindIds(c.args), slots, stack, next);
      }
    }
  }

  lemma {:induction false} ThreadArgsKeepsScope(args: List<Arg>, prepend: bool, scope: set<CpsId>, slots: set<CpsId>,
                                                stack: CtxStack, next: nat)
    requires WellScopedArgs(args, scope, Program(slots, next)) && AllBelow(scope, next) && AllBelow(slots, next)
    requires StackIn(stack, scope)
    ensures var r := ThreadArgs(args, prepend, stack, next); WellScopedArgs(r.0, scope, Program(slots, r.1))
    decreases args
  {
    match args
    case Nil =>
    case Cons(a, rest) =>
      var h := ThreadArg(a, prepend, stack, next);
      var end := ThreadArgs(rest, prepend, stack, h.1).1;
      assert scope + {} == scope;
      GrowArgs(rest, scope, {}, Program(slots, next), h.1);
      ThreadArgsKeepsScope(rest, prepend, scope, slots, stack, h.1);
      match a {
        case ArgCont(c) => ThreadContKeepsScope(c, prepend, scope, slots, stack, next);
        case ArgExpr(e) => ThreadKeepsScope(e, scope, slots, stack, next);
        case _ =>
      }
      GrowArg(h.0, scope, {}, Program(slots, h.1), end);
  }

  // ---- Binders --------------------------------------------------------------------------------------

  lemma AddsOne(before: multiset<CpsId>, after: multiset<CpsId>, lo: nat, hi: nat)
    requires lo < hi && BagBelow(before, lo) && AddsFresh(before, after, lo + 1, hi)
    ensures AddsFresh(before, multiset{lo} + after, lo, hi)
  {
    assert forall x :: x >= lo ==> x !in before;
  }

  lemma {:induction false} ThreadBinders(e: Expr, stack: CtxStack, next: nat)
    requires BagBelow(Binders(e), next)
    ensures var r := ThreadExpr(e, stack, next); AddsFresh(Binders(e), Binders(r.0), next, r.1)
    decreases e, 1
  {
    hide AddsFresh, BagBelow, NodeBinders, ParamBinders, ArgsBinders, ContBinders, ThreadCont, ThreadArgs;
    match e
    case LetVal(_, name, _, cont) =>
      var c := ThreadCont(cont, false, stack, next);
      BagParts(multiset{name.id}, ContBinders(cont), next);
      ThreadContBinders(cont, false, stack, next);
      AddsFreshKeep(multiset{name.id}, ContBinders(cont), ContBinders(c.0), next, c.1);
    case LetFn(_, _, _, _, _, _) => ThreadFnBinders(e, stack, next);
    case App(_, _, _) => ThreadAppBinders(e, stack, next);
    case If(_, _, _, _) => ThreadIfBinders(e, stack, next);
    case LetRec(_, slots, body) =>
      var b := ThreadExpr(body, stack, next);
      BagParts(NodeBinders(slots), Binders(body), next);
      ThreadBinders(body, stack, next);
      AddsFreshKeep(NodeBinders(slots), Binders(body), Binders(b.0), next, b.1);
    case Set(_, _, _, cont) => ThreadContBinders(cont, false, stack, next);
    case Closure(_, _, _, cont) => ThreadContBinders(cont, false, stack, next);
    case LetCaps(_, _, binds, cont) =>
      var c := ThreadCont(cont, false, stack, next);
      BagParts(NodeBinders(binds), ContBinders(cont), next);
      ThreadContBinders(cont, false, stack, next);
      AddsFreshKeep(NodeBinders(binds), ContBinders(cont), ContBinders(c.0), next, c.1);
  }

  lemma {:induction false} ThreadAppBinders(e: Expr, stack: CtxStack, next: nat)
    requires e.App? && BagBelow(Binders(e), next)
    ensures var r := ThreadExpr(e, stack, next); AddsFresh(Binders(e), Binders(r.0), next, r.1)
    decreases e, 0
  {
    hide AddsFresh, BagBelow, ArgsBinders, ThreadArgs;
    var App(_, func, args) := e;
    if !IsModuleEntry(func) && stack != [] {
      LaterBag(ArgsBinders(args), next, next + 1);
      ThreadArgsBinders(args, true, stack, next + 1);
      var a := ThreadArgs(args, true, stack, next + 1).0;
      AddsFewer(ArgsBinders(args), ArgsBinders(a), next, ThreadExpr(e, stack, next).1);
      PlainArgBinders(Val(next, Ref(stack[|stack| - 1])), a);
    } else {
      ThreadArgsBinders(args, !IsModuleEntry(func), stack, next);
    }
  }

  lemma PlainArgBinders(v: Val, rest: List<Arg>)
    ensures ArgsBinders(Cons(ArgVal(v), rest)) == ArgsBinders(rest)
  {
    assert ArgsBinders(Cons(ArgVal(v), rest)) == multiset{} + ArgsBinders(rest);
  }

  lemma {:induction false} ThreadIfBinders(e: Expr, stack: CtxStack, next: nat)
    requires e.If? && BagBelow(Binders(e), next)
    ensures var r := ThreadExpr(e, stack, next); AddsFresh(Binders(e), Binders(r.0), next, r.1)
    decreases e, 0
  {
    hide AddsFresh, BagBelow;
    var If(_, _, thn, els) := e;
    var t := ThreadExpr(thn, stack, next);
    var f := ThreadExpr(els, stack, t.1);
    BagParts(Binders(thn), Binders(els), next);
    ThreadBinders(thn, stack, next);
    LaterBag(Binders(els), next, t.1);
    ThreadBinders(els, stack, t.1);
    AddsFreshSum(Binders(thn), Binders(t.0), Binders(els), Binders(f.0), next, t.1, f.1);
  }

  lemma AddsFewer(before: multiset<CpsId>, after: multiset<CpsId>, lo: nat, hi: nat)
    requires lo < hi && BagBelow(before, lo) && AddsFresh(before, after, lo + 1, hi)
    ensures AddsFresh(before, after, lo, hi)
  {
    assert forall x :: x >= lo ==> x !in before;
  }

  lemma FirstParamBinders(p: Param, params: seq<Param>)
    ensures ParamBinders([p] + params) == multiset{p.bind.id} + ParamBinders(params)
  {
    assert ([p] + params)[1..] == params;
  }

  lemma {:induction false} ThreadFnBinders(e: Expr, stack: CtxStack, next: nat)
    requires e.LetFn? && BagBelow(Binders(e), next)
    ensures var r := ThreadExpr(e, stack, next); AddsFresh(Binders(e), Binders(r.0), next, r.1)
    decreases e, 0
  {
    hide AddsFresh, BagBelow, ParamBinders, ContBinders, ThreadCont;
    var LetFn(_, name, params, _, body, cont) := e;
    var b := ThreadExpr(body, stack + [next], next + 1);
    var c := ThreadCont(cont, false, stack, b.1);
    var own := multiset{name.id} + ParamBinders(params);
    var inner, inner' := Binders(body) + ContBinders(cont), Binders(b.0) + ContBinders(c.0);
    assert Binders(e) == own + inner;
    BagParts(own, inner, next);
    BagParts(Binders(body), ContBinders(cont), next);
    LaterBag(Binders(body), next, next + 1);
    LaterBag(ContBinders(cont), next, next + 1);
    LaterBag(ContBinders(cont), next, b.1);
    LaterBag(own, next, next + 1);
    ThreadBinders(body, stack + [next], next + 1);
    ThreadContBinders(cont, false, stack, b.1);
    AddsFreshSum(Binders(body), Binders(b.0), ContBinders(cont), ContBinders(c.0), next + 1, b.1, c.1);
    AddsFreshKeep(own, inner, inner', next + 1, c.1);
    AddsOne(own + inner, own + inner', next, c.1);
    FirstParamBinders(Name(BindNode(next, Ctx)), params);
    assert Binders(ThreadExpr(e, stack, next).0) == multiset{next} + (own + inner');
  }

  lemma {:induction false} ThreadContBinders(c: Cont, prepend: bool, stack: CtxStack, next: nat)
    requires BagBelow(ContBinders(c), next)
    ensures var r := ThreadCont(c, prepend, stack, next); AddsFresh(ContBinders(c), ContBinders(r.0), next, r.1)
    decreases c
  {
    hide AddsFresh, BagBelow;
    if c.ContTo? {
      NothingAdded(multiset{}, next);
    } else {
      var own, inner := NodeBinders(c.args), Binders(c.body);
      BagParts(own, inner, next);
      if prepend {
        var b := ThreadExpr(c.body, stack + [next], next + 1);
        LaterBag(inner, next, next + 1);
        LaterBag(own, next, next + 1);
        ThreadBinders(c.body, stack + [next], next + 1);
        AddsFreshKeep(own, inner, Binders(b.0), next + 1, b.1);
        AddsOne(own + inner, own + Binders(b.0), next, b.1);
        var ctx := BindNode(next, Ctx);
        assert ([ctx] + c.args)[1..] == c.args;
        assert NodeBinders([ctx] + c.args) == multiset{next} + own;
        assert ContBinders(ThreadCont(c, prepend, stack, next).0) == multiset{next} + (own + Binders(b.0));
      } else {
        var b := ThreadExpr(c.body, stack, next);
        ThreadBinders(c.body, stack, next);
        AddsFreshKeep(own, inner, Binders(b.0), next, b.1);
      }
    }
  }

  lemma {:induction false} ThreadArgsBinders(args: List<Arg>, prepend: bool, stack: CtxStack, next: nat)
    requires BagBelow(ArgsBinders(args), next)
    ensures var r := ThreadArgs(args, prepend, stack, next); AddsFresh(ArgsBinders(args), ArgsBinders(r.0), next, r.1)
    decreases args
  {
    hide AddsFresh, BagBelow;
    match args
    case Nil => NothingAdded(multiset{}, next);
    case Cons(a, rest) =>
      var h := ThreadArg(a, prepend, stack, next);
      var t := ThreadArgs(rest, prepend, stack, h.1);
      BagParts(ArgBinders(a), ArgsBinders(rest), next);
      LaterBag(ArgsBinders(rest), next, h.1);
      ThreadArgsBinders(rest, prepend, stack, h.1);
      match a {
        case ArgCont(c) => ThreadContBinders(c, prepend, stack, next);
        case ArgExpr(e) => ThreadBinders(e, stack, next);
        case _ => NothingAdded(multiset{}, next);
      }
      AddsFreshSum(ArgBinders(a), ArgBinders(h.0), ArgsBinders(rest), ArgsBinders(t.0), next, h.1, t.1);
  }

  /** Threading keeps binders unique. */
  lemma ThreadKeepsBindersUnique(root: Expr, slots: set<CpsId>, next: nat)
    requires BindersUnique(Binders(root), slots, next)
    ensures var r := ThreadProgram(root, next); BindersUnique(Binders(r.0), slots, r.1)
  {
    if ModuleShaped(root) {
      var m := root.args.head.cont;
      var own := NodeBinders(m.args);
      ModuleBinders(root);
      BagParts(own, Binders(m.body), next);
      ThreadBinders(m.body, [m.args[0].id], next);
      var b := ThreadExpr(m.body, [m.args[0].id], next);
      AddsFreshKeep(own, Binders(m.body), Binders(b.0), next, b.1);
      ModuleBinders(ModuleWith(root, b.0));
    }
  }

  lemma ModuleBinders(root: Expr)
    requires ModuleShaped(root)
    ensures Binders(root) == NodeBinders(root.args.head.cont.args) + Binders(root.args.head.cont.body)
  {
    assert ArgsBinders(root.args.tail) == multiset{};
    assert ArgBinders(root.args.head) == ContBinders(root.args.head.cont);
  }

  // ---- What lifting expects ---------------------------------------------------------------------------

  /** A definition hands its closure to a named continuation only inside a function, or inside a
      continuation that will become one; no binding is marked as a cell. */
  predicate Forwards(e: Expr, inFn: bool)
    decreases e
  {
    match e
    case LetVal(_, _, _, cont) => ForwardsCont(cont, inFn)
    case LetFn(_, _, _, _, body, cont) =>
      && Forwards(body, true)
      && (cont.ContTo? ==> inFn)
      && (cont.Inline? ==> forall a :: a in cont.args ==> a.kind != Slot)
      && ForwardsCont(cont, inFn)
    case App(_, func, args) => ForwardsArgs(args, inFn || !KeepsInline(func), inFn)
    case If(_, _, thn, els) => Forwards(thn, inFn) && Forwards(els, inFn)
    case LetRec(_, _, body) => Forwards(body, inFn)
    case Set(_, name, _, cont) => name.kind != Slot && ForwardsCont(cont, inFn)
    case Closure(_, _, _, cont) => ForwardsCont(cont, inFn)
    case LetCaps(_, _, _, cont) => ForwardsCont(cont, inFn)
  }

  predicate ForwardsCont(c: Cont, inFn: bool)
    decreases c
  {
    c.Inline? ==> Forwards(c.body, inFn)
  }

  predicate ForwardsArgs(args: List<Arg>, inCont: bool, inFn: bool)
    decreases args
  {
    match args
    case Nil => true
    case Cons(ArgCont(c), rest) => ForwardsCont(c, inCont) && ForwardsArgs(rest, inCont, inFn)
    case Cons(ArgExpr(e), rest) => Forwards(e, inFn) && ForwardsArgs(rest, inCont, inFn)
    case Cons(_, rest) => ForwardsArgs(rest, inCont, inFn)
  }

  lemma {:induction false} ThreadMakesThreaded(e: Expr, stack: CtxStack, next: nat, base: nat, inFn: bool)
    requires Forwards(e, inFn) && IdsBelow(e, base) && base <= next
    ensures Threaded(ThreadExpr(e, stack, next).0, inFn)
    decreases e
  {
    match e
    case LetVal(_, _, _, cont) => ThreadContMakesThreaded(cont, stack, next, base, inFn);
    case LetFn(_, _, params, _, body, cont) =>
      ThreadMakesThreaded(body, stack + [next], next + 1, base, true);
      ThreadContMakesThreaded(cont, stack, ThreadExpr(body, stack + [next], next + 1).1, base, inFn);
      FreshCtxOwned(params, next, base);
    case App(_, func, args) =>
      if !IsModuleEntry(func) && stack != [] {
        ThreadArgsMakesThreaded(args, true, stack, next + 1, base, KeepsInline(func), inFn);
      } else {
        ThreadArgsMakesThreaded(args, !IsModuleEntry(func), stack, next, base, KeepsInline(func), inFn);
      }
    case If(_, _, thn, els) =>
      ThreadMakesThreaded(thn, stack, next, base, inFn);
      ThreadMakesThreaded(els, stack, ThreadExpr(thn, stack, next).1, base, inFn);
    case LetRec(_, _, body) => ThreadMakesThreaded(body, stack, next, base, inFn);
    case Set(_, _, _, cont) => ThreadContMakesThreaded(cont, stack, next, base, inFn);
    case Closure(_, _, _, cont) => ThreadContMakesThreaded(cont, stack, next, base, inFn);
    case LetCaps(_, _, _, cont) => ThreadContMakesThreaded(cont, stack, next, base, inFn);
  }

  lemma FreshCtxOwned(params: seq<Param>, next: nat, base: nat)
    requires ParamsBelow(params, base) && base <= next
    ensures OwnsCtx([Name(BindNode(next, Ctx))] + params)
  {
    assert ([Name(BindNode(next, Ctx))] + params)[1..] == params;
  }

  lemma {:induction false} ThreadContMakesThreaded(c: Cont, stack: CtxStack, next: nat, base: nat, inFn: bool)
    requires ForwardsCont(c, inFn) && IdsBelowCont(c, base) && base <= next
    ensures ThreadedCont(ThreadCont(c, false, stack, next).0, inFn)
    decreases c
  {
    if c.Inline? {
      ThreadMakesThreaded(c.body, stack, next, base, inFn);
    }
  }

  lemma {:induction false} ThreadArgsMakesThreaded(args: List<Arg>, prepend: bool, stack: CtxStack, next: nat, base: nat,
                                                   kept: bool, inFn: bool)
    requires ForwardsArgs(args, inFn || !kept, inFn) && IdsBelowArgs(args, base) && base <= next && (kept || prepend)
    ensures ThreadedArgs(ThreadArgs(args, prepend, stack, next).0, kept, inFn)
    decreases args
  {
    match args
    case Nil =>
    case Cons(a, rest) =>
      ThreadArgsMakesThreaded(rest, prepend, stack, ThreadArg(a, prepend, stack, next).1, base, kept, inFn);
      match a
      case ArgCont(Inline(binds, body)) =>
        assert IdsBelowArg(a, base) && IdsBelowCont(a.cont, base);
        if prepend {
          ThreadMakesThreaded(body, stack + [next], next + 1, base, inFn || !kept);
          var ctx := BindNode(next, Ctx);
          NamesOf(binds, ctx);
          FreshCtxOwned(Names(binds), next, base);
          assert ThreadCont(a.cont, true, stack, next).0 == Inline([ctx] + binds, ThreadExpr(body, stack + [next], next + 1).0);
        } else {
          ThreadMakesThreaded(body, stack, next, base, inFn);
          assert ThreadCont(a.cont, false, stack, next).0 == Inline(binds, ThreadExpr(body, stack, next).0);
        }
      case ArgExpr(e) => ThreadMakesThreaded(e, stack, next, base, inFn);
      case _ =>
  }

  lemma NamesOf(binds: seq<BindNode>, b: BindNode)
    ensures Names([b] + binds) == [Name(b)] + Names(binds)
  {
  }

  lemma {:induction false} ThreadKeepsSlots(e: Expr, stack: CtxStack, next: nat)
    ensures SlotIds(ThreadExpr(e, stack, next).0) == SlotIds(e)
    decreases e
  {
    match e
    case LetVal(_, _, _, cont) => ThreadContKeepsSlots(cont, false, stack, next);
    case LetFn(_, _, _, _, body, cont) =>
      ThreadKeepsSlots(body, stack + [next], next + 1);
      ThreadContKeepsSlots(cont, false, stack, ThreadExpr(body, stack + [next], next + 1).1);
    case App(_, func, args) =>
      if !IsModuleEntry(func) && stack != [] {
        ThreadArgsKeepsSlots(args, true, stack, next + 1);
      } else {
        ThreadArgsKeepsSlots(args, !IsModuleEntry(func), stack, next);
      }
    case If(_, _, thn, els) =>
      ThreadKeepsSlots(thn, stack, next);
      ThreadKeepsSlots(els, stack, ThreadExpr(thn, stack, next).1);
    case LetRec(_, _, body) => ThreadKeepsSlots(body, stack, next);
    case Set(_, _, _, cont) => ThreadContKeepsSlots(cont, false, stack, next);
    case Closure(_, _, _, cont) => ThreadContKeepsSlots(cont, false, stack, next);
    case LetCaps(_, _, _, cont) => ThreadContKeepsSlots(cont, false, stack, next);
  }

  lemma {:induction false} ThreadContKeepsSlots(c: Cont, prepend: bool, stack: CtxStack, next: nat)
    ensures SlotIdsCont(ThreadCont(c, prepend, stack, next).0) == SlotIdsCont(c)
    decreases c
  {
    if c.Inline? {
      if prepend {
        ThreadKeepsSlots(c.body, stack + [next], next + 1);
      } else {
        ThreadKeepsSlots(c.body, stack, next);
      }
    }
  }

  lemma {:induction false} ThreadArgsKeepsSlots(args: List<Arg>, prepend: bool, stack: CtxStack, next: nat)
    ensures SlotIdsArgs(ThreadArgs(args, prepend, stack, next).0) == SlotIdsArgs(args)
    decreases args
  {
    match args
    case Nil =>
    case Cons(a, rest) =>
      ThreadArgsKeepsSlots(rest, prepend, stack, ThreadArg(a, prepend, stack, next).1);
      match a
      case ArgCont(c) => ThreadContKeepsSlots(c, prepend, stack, next);
      case ArgExpr(e) => ThreadKeepsSlots(e, stack, next);
      case _ =>
  }

  /** A closed, well-scoped module as lowering leaves it. */
  ghost predicate ReadyToThread(root: Expr, next: nat) {
    && ModuleShaped(root) && WellScoped(root, {}, Program(SlotIds(root), next)) && Forwards(root, false)
    && AllBelow(SlotIds(root), next)
  }

  lemma ModuleParts(root: Expr, inFn: bool, pr: Program)
    requires ModuleShaped(root)
    ensures var m := root.args.head.cont;
            && (WellScoped(root, {}, pr) <==> NewValues(m.args, {}, pr) && WellScoped(m.body, BindIds(m.args), pr))
            && (Forwards(root, inFn) <==> Forwards(m.body, inFn)) && (Threaded(root, inFn) <==> Threaded(m.body, inFn))
            && SlotIds(root) == SlotIds(m.body)
  {
    var m := root.args.head.cont;
    assert {} + BindIds(m.args) == BindIds(m.args);
    assert WellScopedArgs(Nil, {}, pr) && ForwardsArgs(Nil, inFn, inFn) && ThreadedArgs(Nil, true, inFn) && SlotIdsArgs(Nil) == {};
    assert WellScoped(root, {}, pr) <==> WellScopedArg(root.args.head, {}, pr);
    assert WellScopedArg(root.args.head, {}, pr) <==> WellScopedCont(m, {}, pr);
    assert Forwards(root, inFn) <==> ForwardsCont(m, inFn);
    assert Threaded(root, inFn) <==> ThreadedArg(root.args.head, true, inFn);
    assert SlotIds(root) == SlotIdsCont(m);
  }

  lemma ThreadProgramKeepsSlots(root: Expr, next: nat)
    ensures SlotIds(ThreadProgram(root, next).0) == SlotIds(root)
  {
    if ModuleShaped(root) {
      var m := root.args.head.cont;
      var b := ThreadExpr(m.body, [m.args[0].id], next).0;
      ThreadKeepsSlots(m.body, [m.args[0].id], next);
      ModuleParts(root, false, Program({}, 0));
      ModuleParts(ModuleWith(root, b), false, Program({}, 0));
    }
  }

  lemma ThreadedIsReady(root: Expr, next: nat)
    requires ReadyToThread(root, next)
    ensures var r := ThreadProgram(root, next); ReadyToLift(r.0, r.1)
  {
    hide WellScoped, Forwards, Threaded, SlotIds, ThreadExpr;
    var m := root.args.head.cont;
    var slots := SlotIds(root);
    var b := ThreadExpr(m.body, [m.args[0].id], next);
    var scope := BindIds(m.args);
    ModuleParts(root, false, Program(slots, next));
    assert m.args[0] in m.args;
    ThreadKeepsScope(m.body, scope, slots, [m.args[0].id], next);
    ScopedBelow(m.body, scope, Program(slots, next));
    ThreadMakesThreaded(m.body, [m.args[0].id], next, next, false);
    ThreadKeepsSlots(m.body, [m.args[0].id], next);
    ModuleParts(ModuleWith(root, b.0), false, Program(slots, b.1));
  }
}
