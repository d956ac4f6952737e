/** What closure conversion needs of its input beyond scoping, and what its output provides. */
module ConvertInput {
  import opened Collections
  import opened CpsIr
  import opened FreeVars
  import opened FlatMachine

  /** The slots that `e` itself fills from outside, nested functions excepted. */
  function SetTargets(e: Expr): set<CpsId>
    decreases e
  {
    match e
    case LetVal(_, _, _, cont) => SetTargetsCont(cont)
    case LetFn(_, name, _, _, _, cont) =>
      (if cont.Inline? then SetTargets(cont.body) else {}) - {name.id}
    case App(_, _, args) => SetTargetsArgs(args)
    case If(_, _, thn, els) => SetTargets(thn) + SetTargets(els)
    case LetRec(_, slots, body) => SetTargets(body) - BindIds(slots)
    case Set(_, name, _, cont) => {name.id} + SetTargetsCont(cont)
    case Closure(_, _, _, cont) => SetTargetsCont(cont)
    case LetCaps(_, _, binds, cont) => SetTargetsCont(cont) - BindIds(binds)
  }

  function SetTargetsCont(c: Cont): set<CpsId>
    decreases c
  {
    if c.Inline? then SetTargets(c.body) - BindIds(c.args) else {}
  }

  function SetTargetsArgs(args: List<Arg>): set<CpsId>
    decreases args
  {
    match args
    case Nil => {}
    case Cons(a, rest) => SetTargetsArg(a) + SetTargetsArgs(rest)
  }

  function SetTargetsArg(a: Arg): set<CpsId>
    decreases a
  {
    match a
    case ArgCont(c) => SetTargetsCont(c)
    case ArgExpr(e) => SetTargets(e)
    case _ => {}
  }

  /** The ids that `e` itself binds by `LetVal`, nested functions and slots declared on the way excepted. */
  function LetNames(e: Expr): set<CpsId>
    decreases e
  {
    match e
    case LetVal(_, name, _, cont) => {name.id} + LetNamesCont(cont)
    case LetFn(_, _, _, _, _, cont) => LetNamesCont(cont)
    case App(_, _, args) => LetNamesArgs(args)
    case If(_, _, thn, els) => LetNames(thn) + LetNames(els)
    case LetRec(_, slots, body) => LetNames(body) - BindIds(slots)
    case Set(_, _, _, cont) => LetNamesCont(cont)
    case Closure(_, _, _, cont) => LetNamesCont(cont)
    case LetCaps(_, _, _, cont) => LetNamesCont(cont)
  }

  function LetNamesCont(c: Cont): set<CpsId>
    decreases c
  {
    if c.Inline? then LetNames(c.body) else {}
  }

  function LetNamesArgs(args: List<Arg>): set<CpsId>
    decreases args
  {
    match args
    case Nil => {}
    case Cons(a, rest) => LetNamesArg(a) + LetNamesArgs(rest)
  }

  function LetNamesArg(a: Arg): set<CpsId>
    decreases a
  {
    match a
    case ArgCont(c) => LetNamesCont(c)
    case ArgExpr(e) => LetNames(e)
    case _ => {}
  }

  /** A function whose leading parameter is its context, under an id of its own. */
  predicate OwnsCtx(params: seq<Param>) {
    CtxFirst(params) && params[0].bind.id !in ParamIds(params[1..])
  }

  predicate NoInline(args: List<Arg>) {
    match args
    case Nil => true
    case Cons(a, rest) => (a.ArgCont? ==> a.cont.ContTo?) && NoInline(rest)
  }

  /** A function reaches the slots it fills: it reads each one it sets, so that it captures the cell, or the
      slot is declared outside every function, so that its global always holds the one cell it has. A binding
      under a slot's id goes through the global in any case. */
  predicate ReachesSlots(params: seq<Param>, body: Expr, stack: CtxStack, sl: Slots) {
    && (forall x :: x in SetTargets(body) && x in sl.all && x !in ParamIds(params) && x !in sl.outer ==>
          x in FreeVarsOf(params, body, stack))
    && (forall x :: x in LetNames(body) && x in sl.all ==> x in sl.outer)
  }

  /** Threaded, continuation-lifted input: every function owns a context parameter, reaches the slots it
      fills and declares none of the outer ones, and inline continuations are left at structural operations
      only. */
  predicate Convertible(e: Expr, stack: CtxStack, sl: Slots)
    decreases e
  {
    match e
    case LetVal(_, _, _, cont) => ConvertibleCont(cont, stack, sl)
    case LetFn(_, _, params, _, body, cont) =>
      && OwnsCtx(params) && ReachesSlots(params, body, stack, sl)
      && Convertible(body, Enter(params, stack), sl)
      && ConvertibleCont(cont, stack, sl)
    case App(_, func, args) => (KeepsInline(func) || NoInline(args)) && ConvertibleArgs(args, stack, sl)
    case If(_, _, thn, els) => Convertible(thn, stack, sl) && Convertible(els, stack, sl)
    case LetRec(_, slots, body) => (stack != [] ==> BindIds(slots) !! sl.outer) && Convertible(body, stack, sl)
    case Set(_, _, _, cont) => ConvertibleCont(cont, stack, sl)
    case Closure(_, _, _, cont) => ConvertibleCont(cont, stack, sl)
    case LetCaps(_, _, _, cont) => ConvertibleCont(cont, stack, sl)
  }

  predicate ConvertibleCont(c: Cont, stack: CtxStack, sl: Slots)
    decreases c
  {
    c.Inline? ==> Convertible(c.body, stack, sl)
  }

  predicate ConvertibleArgs(args: List<Arg>, stack: CtxStack, sl: Slots)
    decreases args
  {
    match args
    case Nil => true
    case Cons(a, rest) => ConvertibleArg(a, stack, sl) && ConvertibleArgs(rest, stack, sl)
  }

  predicate ConvertibleArg(a: Arg, stack: CtxStack, sl: Slots)
    decreases a
  {
    match a
    case ArgCont(c) => ConvertibleCont(c, stack, sl)
    case ArgExpr(e) => Convertible(e, stack, sl)
    case _ => true
  }

  lemma {:induction false} SetTargetsInScope(e: Expr, scope: set<CpsId>, pr: Program)
    requires WellScoped(e, scope, pr)
    ensures SetTargets(e) <= scope * pr.slots
    decreases e
  {
    match e
    case LetVal(_, name, _, cont) =>
      SetTargetsContInScope(cont, scope + {name.id}, pr);
      assert NewValue(name, scope, pr) || Refills(name, scope, pr);
    case LetFn(_, name, _, _, _, cont) =>
      if cont.Inline? {
        SetTargetsInScope(cont.body, scope + {name.id}, pr);
      }
    case App(_, _, args) => SetTargetsArgsInScope(args, scope, pr);
    case If(_, _, thn, els) =>
      SetTargetsInScope(thn, scope, pr);
      SetTargetsInScope(els, scope, pr);
    case LetRec(_, slots, body) => SetTargetsInScope(body, scope + BindIds(slots), pr);
    case Set(_, _, _, cont) => SetTargetsContInScope(cont, scope, pr);
  }

  lemma {:induction false} SetTargetsContInScope(c: Cont, scope: set<CpsId>, pr: Program)
    requires WellScopedCont(c, scope, pr)
    ensures SetTargetsCont(c) <= scope * pr.slots
    decreases c
  {
    if c.Inline? {
      SetTargetsInScope(c.body, scope + BindIds(c.args), pr);
    }
  }

  lemma {:induction false} SetTargetsArgsInScope(args: List<Arg>, scope: set<CpsId>, pr: Program)
    requires WellScopedArgs(args, scope, pr)
    ensures SetTargetsArgs(args) <= scope * pr.slots
    decreases args
  {
    match args
    case Nil =>
    case Cons(a, rest) =>
      SetTargetsArgsInScope(rest, scope, pr);
      match a
      case ArgCont(c) => SetTargetsContInScope(c, scope, pr);
      case ArgExpr(e) => SetTargetsInScope(e, scope, pr);
      case _ =>
  }

  /** A slot that is filled by a binding of its id is in scope there. */
  lemma {:induction false} LetNamesInScope(e: Expr, scope: set<CpsId>, pr: Program)
    requires WellScoped(e, scope, pr)
    ensures LetNames(e) * pr.slots <= scope
    decreases e
  {
    match e
    case LetVal(_, name, _, cont) =>
      LetNamesContInScope(cont, scope + {name.id}, pr);
      assert NewValue(name, scope, pr) || Refills(name, scope, pr);
      forall x | x in LetNames(e) * pr.slots
        ensures x in scope
      {
        assert x == name.id || x in LetNamesCont(cont) * pr.slots;
      }
    case LetFn(_, name, _, _, _, cont) =>
      if cont.Inline? {
        LetNamesInScope(cont.body, scope + {name.id}, pr);
      }
    case App(_, _, args) => LetNamesArgsInScope(args, scope, pr);
    case If(_, _, thn, els) =>
      LetNamesInScope(thn, scope, pr);
      LetNamesInScope(els, scope, pr);
    case LetRec(_, slots, body) => LetNamesInScope(body, scope + BindIds(slots), pr);
    case Set(_, _, _, cont) => LetNamesContInScope(cont, scope, pr);
  }

  lemma {:induction false} LetNamesContInScope(c: Cont, scope: set<CpsId>, pr: Program)
    requires WellScopedCont(c, scope, pr)
    ensures LetNamesCont(c) * pr.slots <= scope
    decreases c
  {
    if c.Inline? {
      LetNamesInScope(c.body, scope + BindIds(c.args), pr);
    }
  }

  lemma {:induction false} LetNamesArgsInScope(args: List<Arg>, scope: set<CpsId>, pr: Program)
    requires WellScopedArgs(args, scope, pr)
    ensures LetNamesArgs(args) * pr.slots <= scope
    decreases args
  {
    match args
    case Nil =>
    case Cons(a, rest) =>
      LetNamesArgsInScope(rest, scope, pr);
      match a
      case ArgCont(c) => LetNamesContInScope(c, scope, pr);
      case ArgExpr(e) => LetNamesInScope(e, scope, pr);
      case _ =>
  }

  /** `table` holds every function definition of `e`, nested ones included. */
  predicate Covers(table: FnTable, e: Expr)
    decreases e
  {
    match e
    case LetVal(_, _, _, cont) => CoversCont(table, cont)
    case LetFn(_, name, params, _, body, cont) =>
      && name.id in table && table[name.id] == FnDef(params, body)
      && Covers(table, body) && CoversCont(table, cont)
    case App(_, _, args) => CoversArgs(table, args)
    case If(_, _, thn, els) => Covers(table, thn) && Covers(table, els)
    case LetRec(_, _, body) => Covers(table, body)
    case Set(_, _, _, cont) => CoversCont(table, cont)
    case Closure(_, _, _, cont) => CoversCont(table, cont)
    case LetCaps(_, _, _, cont) => CoversCont(table, cont)
  }

  predicate CoversCont(table: FnTable, c: Cont)
    decreases c
  {
    c.Inline? ==> Covers(table, c.body)
  }

  predicate CoversArgs(table: FnTable, args: List<Arg>)
    decreases args
  {
    match args
    case Nil => true
    case Cons(a, rest) => CoversArg(table, a) && CoversArgs(table, rest)
  }

  predicate CoversArg(table: FnTable, a: Arg)
    decreases a
  {
    match a
    case ArgCont(c) => CoversCont(table, c)
    case ArgExpr(e) => Covers(table, e)
    case _ => true
  }
}
