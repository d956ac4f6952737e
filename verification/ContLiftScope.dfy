/** What continuation lifting keeps: scoping, unique binders, slots; and what it establishes: inline
    continuations are left at structural operations only. */
module ContLiftScope {
  import opened Collections
  import opened CpsIr
  import opened ConvertInput
  import opened ContLift

  // ---- Where inline continuations are left ----------------------------------------------------------

  /** The operations whose continuation is code of the calling function. */
  predicate Structural(func: Callable) {
    match func
    case CallBuiltIn(Pub) => true
    case CallBuiltIn(Panic(_)) => true
    case CallBuiltIn(FnClosure) => true
    case CallBuiltIn(FinkModule) => true
    case _ => false
  }

  /** At every depth, only calls of Pub, Panic, FnClosure and FinkModule have inline continuations. */
  predicate InlineKept(e: Expr)
    decreases e
  {
    match e
    case LetVal(_, _, _, cont) => InlineKeptCont(cont)
    case LetFn(_, _, _, _, body, cont) => InlineKept(body) && InlineKeptCont(cont)
    case App(_, func, args) => (Structural(func) || NoInline(args)) && InlineKeptArgs(args)
    case If(_, _, thn, els) => InlineKept(thn) && InlineKept(els)
    case LetRec(_, _, body) => InlineKept(body)
    case Set(_, _, _, cont) => InlineKeptCont(cont)
    case Closure(_, _, _, cont) => InlineKeptCont(cont)
    case LetCaps(_, _, _, cont) => InlineKeptCont(cont)
  }

  predicate InlineKeptCont(c: Cont)
    decreases c
  {
    c.Inline? ==> InlineKept(c.body)
  }

  predicate InlineKeptArgs(args: List<Arg>)
    decreases args
  {
    match args
    case Nil => true
    case Cons(ArgCont(c), rest) => InlineKeptCont(c) && InlineKeptArgs(rest)
    case Cons(ArgExpr(e), rest) => InlineKept(e) && InlineKeptArgs(rest)
    case Cons(_, rest) => InlineKeptArgs(rest)
  }

  lemma {:induction false} LiftLeavesInline(e: Expr, next: nat)
    ensures InlineKept(LiftExpr(e, next).0)
    decreases e
  {
    match e
    case LetVal(_, _, _, cont) => LiftContLeavesInline(cont, next);
    case LetFn(_, _, _, _, body, cont) =>
      LiftLeavesInline(body, next);
      LiftContLeavesInline(cont, LiftExpr(body, next).1);
    case App(id, func, args) =>
      LiftArgsLeavesInline(args, next);
      var a := LiftArgs(args, next);
      if !KeepsInline(func) {
        var r := Replace(a.0, a.1);
        ReplacedKept(a.0, a.1);
        WrapKept(r.conts, App(id, func, r.args), r.next);
      }
    case If(_, _, thn, els) =>
      LiftLeavesInline(thn, next);
      LiftLeavesInline(els, LiftExpr(thn, next).1);
    case LetRec(_, _, body) => LiftLeavesInline(body, next);
    case Set(_, _, _, cont) => LiftContLeavesInline(cont, next);
    case Closure(_, _, _, cont) => LiftContLeavesInline(cont, next);
    case LetCaps(_, _, _, cont) => LiftContLeavesInline(cont, next);
  }

  lemma {:induction false} LiftContLeavesInline(c: Cont, next: nat)
    ensures InlineKeptCont(LiftCont(c, next).0)
    decreases c
  {
    if c.Inline? {
      LiftLeavesInline(c.body, next);
    }
  }

  lemma {:induction false} LiftArgsLeavesInline(args: List<Arg>, next: nat)
    ensures InlineKeptArgs(LiftArgs(args, next).0)
    decreases args
  {
    match args
    case Nil =>
    case Cons(a, rest) =>
      LiftArgsLeavesInline(rest, LiftArg(a, next).1);
      match a
      case ArgCont(c) => LiftContLeavesInline(c, next);
      case ArgExpr(e) => LiftLeavesInline(e, next);
      case _ =>
  }

  lemma {:induction false} ReplacedKept(args: List<Arg>, at: nat)
    requires InlineKeptArgs(args)
    ensures var r := Replace(args, at);
            NoInline(r.args) && InlineKeptArgs(r.args) && forall c :: c in r.conts ==> InlineKept(c.body)
  {
    match args
    case Nil =>
    case Cons(ArgCont(Inline(params, body)), rest) =>
      ReplacedKept(rest, at + 2);
      assert InlineKeptCont(Inline(params, body));
    case Cons(_, rest) => ReplacedKept(rest, at);
  }

  lemma {:induction false} WrapKept(conts: seq<LiftedCont>, inner: Expr, next: nat)
    requires InlineKept(inner) && forall c :: c in conts ==> InlineKept(c.body)
    ensures InlineKept(Wrap(conts, inner, next))
    decreases conts
  {
    if conts != [] {
      WrapKept(conts[1..], inner, next);
      assert InlineKeptCont(Inline([], Wrap(conts[1..], inner, next)));
    }
  }

  /** The inline continuations that those four are given, at every depth, by what they bind. */
  function StructuralConts(e: Expr): multiset<seq<BindNode>>
    decreases e
  {
    match e
    case LetVal(_, _, _, cont) => StructuralContsIn(cont)
    case LetFn(_, _, _, _, body, cont) => StructuralConts(body) + StructuralContsIn(cont)
    case App(_, func, args) => StructuralContsOf(args, Structural(func))
    case If(_, _, thn, els) => StructuralConts(thn) + StructuralConts(els)
    case LetRec(_, _, body) => StructuralConts(body)
    case Set(_, _, _, cont) => StructuralContsIn(cont)
    case Closure(_, _, _, cont) => StructuralContsIn(cont)
    case LetCaps(_, _, _, cont) => StructuralContsIn(cont)
  }

  function StructuralContsIn(c: Cont): multiset<seq<BindNode>>
    decreases c
  {
    if c.ContTo? then multiset{} else StructuralConts(c.body)
  }

  function StructuralContsOf(args: List<Arg>, own: bool): multiset<seq<BindNode>>
    decreases args
  {
    match args
    case Nil => multiset{}
    case Cons(ArgCont(c), rest) =>
      (if own && c.Inline? then multiset{c.args} else multiset{}) + StructuralContsIn(c) + StructuralContsOf(rest, own)
    case Cons(ArgExpr(e), rest) => StructuralConts(e) + StructuralContsOf(rest, own)
    case Cons(_, rest) => StructuralContsOf(rest, own)
  }

  /** Those four keep every inline continuation they are given. */
  lemma {:induction false} LiftKeepsInline(e: Expr, next: nat)
    ensures StructuralConts(LiftExpr(e, next).0) == StructuralConts(e)
    decreases e
  {
    match e
    case LetVal(_, _, _, cont) => LiftContKeepsInline(cont, next);
    case LetFn(_, _, _, _, body, cont) =>
      LiftKeepsInline(body, next);
      LiftContKeepsInline(cont, LiftExpr(body, next).1);
    case App(id, func, args) =>
      LiftArgsKeepsInline(args, KeepsInline(func), next);
      var a := LiftArgs(args, next);
      if !KeepsInline(func) {
        var r := Replace(a.0, a.1);
        ReplacedConts(a.0, a.1);
        WrappedConts(r.conts, App(id, func, r.args), r.next);
      }
    case If(_, _, thn, els) =>
      LiftKeepsInline(thn, next);
      LiftKeepsInline(els, LiftExpr(thn, next).1);
    case LetRec(_, _, body) => LiftKeepsInline(body, next);
    case Set(_, _, _, cont) => LiftContKeepsInline(cont, next);
    case Closure(_, _, _, cont) => LiftContKeepsInline(cont, next);
    case LetCaps(_, _, _, cont) => LiftContKeepsInline(cont, next);
  }

  lemma {:induction false} LiftContKeepsInline(c: Cont, next: nat)
    ensures StructuralContsIn(LiftCont(c, next).0) == StructuralContsIn(c)
    decreases c
  {
    if c.Inline? {
      LiftKeepsInline(c.body, next);
    }
  }

  lemma {:induction false} LiftArgsKeepsInline(args: List<Arg>, own: bool, next: nat)
    ensures StructuralContsOf(LiftArgs(args, next).0, own) == StructuralContsOf(args, own)
    decreases args
  {
    match args
    case Nil =>
    case Cons(a, rest) =>
      LiftArgsKeepsInline(rest, own, LiftArg(a, next).1);
      match a
      case ArgCont(c) => LiftContKeepsInline(c, next);
      case ArgExpr(e) => LiftKeepsInline(e, next);
      case _ =>
  }

  function BodiesConts(conts: seq<LiftedCont>): multiset<seq<BindNode>> {
    if conts == [] then multiset{} else StructuralConts(conts[0].body) + BodiesConts(conts[1..])
  }

  lemma {:induction false} ReplacedConts(args: List<Arg>, at: nat)
    ensures var r := Replace(args, at);
            BodiesConts(r.conts) + StructuralContsOf(r.args, false) == StructuralContsOf(args, false)
  {
    match args
    case Nil =>
    case Cons(ArgCont(Inline(params, body)), rest) =>
      ReplacedConts(rest, at + 2);
      var r := Replace(rest, at + 2);
      assert ([LiftedCont(at, params, body)] + r.conts)[1..] == r.conts;
      assert StructuralContsIn(Inline(params, body)) == StructuralConts(body);
    case Cons(_, rest) => ReplacedConts(rest, at);
  }

  lemma {:induction false} WrappedConts(conts: seq<LiftedCont>, inner: Expr, next: nat)
    ensures StructuralConts(Wrap(conts, inner, next)) == BodiesConts(conts) + StructuralConts(inner)
    decreases conts
  {
    if conts != [] {
      WrappedConts(conts[1..], inner, next);
      assert StructuralContsIn(Inline([], Wrap(conts[1..], inner, next))) == StructuralConts(Wrap(conts[1..], inner, next));
    }
  }

  // ---- Scoping --------------------------------------------------------------------------------------

  /** Well-scoped code stays so among more ids, none of which it binds, and with more ids handed out. */
  lemma {:induction false} Grow(e: Expr, scope: set<CpsId>, extra: set<CpsId>, pr: Program, base: nat)
    requires WellScoped(e, scope, pr) && pr.base <= base && forall x :: x in extra ==> x >= pr.base
    ensures WellScoped(e, scope + extra, Program(pr.slots, base))
    decreases e
  {
    match e
    case LetVal(_, name, _, cont) =>
      GrowCont(cont, scope + {name.id}, extra, pr, base);
      assert scope + {name.id} + extra == scope + extra + {name.id};
    case LetFn(_, name, params, _, body, cont) =>
      Grow(body, scope + ParamIds(params), extra, pr, base);
      assert scope + ParamIds(params) + extra == scope + extra + ParamIds(params);
      if cont.Inline? {
        Grow(cont.body, scope + {name.id}, extra, pr, base);
        assert scope + {name.id} + extra == scope + extra + {name.id};
      }
    case App(_, _, args) => GrowArgs(args, scope, extra, pr, base);
    case If(_, _, thn, els) =>
      Grow(thn, scope, extra, pr, base);
      Grow(els, scope, extra, pr, base);
    case LetRec(_, slots, body) =>
      Grow(body, scope + BindIds(slots), extra, pr, base);
      assert scope + BindIds(slots) + extra == scope + extra + BindIds(slots);
    case Set(_, _, _, cont) => GrowCont(cont, scope, extra, pr, base);
  }

  lemma {:induction false} GrowCont(c: Cont, scope: set<CpsId>, extra: set<CpsId>, pr: Program, base: nat)
    requires WellScopedCont(c, scope, pr) && pr.base <= base && forall x :: x in extra ==> x >= pr.base
    ensures WellScopedCont(c, scope + extra, Program(pr.slots, base))
    decreases c
  {
    if c.Inline? {
      Grow(c.body, scope + BindIds(c.args), extra, pr, base);
      assert scope + BindIds(c.args) + extra == scope + extra + BindIds(c.args);
    }
  }

  lemma {:induction false} GrowArgs(args: List<Arg>, scope: set<CpsId>, extra: set<CpsId>, pr: Program, base: nat)
    requires WellScopedArgs(args, scope, pr) && pr.base <= base && forall x :: x in extra ==> x >= pr.base
    ensures WellScopedArgs(args, scope + extra, Program(pr.slots, base))
    decreases args
  {
    match args
    case Nil =>
    case Cons(a, rest) =>
      GrowArgs(rest, scope, extra, pr, base);
      GrowArg(a, scope, extra, pr, base);
  }

  lemma {:induction false} GrowArg(a: Arg, scope: set<CpsId>, extra: set<CpsId>, pr: Program, base: nat)
    requires WellScopedArg(a, scope, pr) && pr.base <= base && forall x :: x in extra ==> x >= pr.base
    ensures WellScopedArg(a, scope + extra, Program(pr.slots, base))
    decreases a
  {
    match a
    case ArgCont(c) => GrowCont(c, scope, extra, pr, base);
    case ArgExpr(e) => Grow(e, scope, extra, pr, base);
    case _ =>
  }

  lemma Later(e: Expr, scope: set<CpsId>, pr: Program, base: nat)
    requires WellScoped(e, scope, pr) && pr.base <= base
    ensures WellScoped(e, scope, Program(pr.slots, base))
  {
    Grow(e, scope, {}, pr, base);
    assert scope + {} == scope;
  }

  ghost predicate AllBelow(s: set<CpsId>, bound: nat) {
    forall x :: x in s ==> x < bound
  }

  /** Lifting keeps a tree well scoped: every use still names a binding in scope and no binding, fresh
      ones included, reuses an id in scope. */
  lemma {:induction false} LiftKeepsScope(e: Expr, scope: set<CpsId>, slots: set<CpsId>, next: nat)
    requires WellScoped(e, scope, Program(slots, next)) && AllBelow(scope, next) && AllBelow(slots, next)
    ensures var r := LiftExpr(e, next); WellScoped(r.0, scope, Program(slots, r.1))
    decreases e, 1
  {
    match e
    case LetVal(_, name, _, cont) => LiftContKeepsScope(cont, scope + {name.id}, slots, next);
    case LetFn(_, _, _, _, _, _) => LiftFnKeepsScope(e, scope, slots, next);
    case App(id, func, args) =>
      var a := LiftArgs(args, next);
      LiftArgsKeepsScope(args, scope, slots, next);
      if !KeepsInline(func) {
        UserAppScoped(id, func, a.0, scope, slots, a.1);
      }
    case If(_, _, thn, els) =>
      var t := LiftExpr(thn, next);
      LiftKeepsScope(thn, scope, slots, next);
      Later(els, scope, Program(slots, next), t.1);
      LiftKeepsScope(els, scope, slots, t.1);
      Later(t.0, scope, Program(slots, t.1), LiftExpr(els, t.1).1);
    case LetRec(_, binds, body) => LiftKeepsScope(body, scope + BindIds(binds), slots, next);
    case Set(_, _, _, cont) => LiftContKeepsScope(cont, scope, slots, next);
  }

  lemma {:induction false} LiftFnKeepsScope(e: Expr, scope: set<CpsId>, slots: set<CpsId>, next: nat)
    requires e.LetFn?
    requires WellScoped(e, scope, Program(slots, next)) && AllBelow(scope, next) && AllBelow(slots, next)
    ensures var r := LiftExpr(e, next); WellScoped(r.0, scope, Program(slots, r.1))
    decreases e, 0
  {
    var LetFn(_, name, params, _, body, cont) := e;
    var b := LiftExpr(body, next);
    LiftKeepsScope(body, scope + ParamIds(params), slots, next);
    Later(b.0, scope + ParamIds(params), Program(slots, b.1), LiftCont(cont, b.1).1);
    if cont.Inline? {
      Later(cont.body, scope + {name.id}, Program(slots, next), b.1);
      LiftKeepsScope(cont.body, scope + {name.id}, slots, b.1);
    }
  }

  lemma {:induction false} LiftContKeepsScope(c: Cont, scope: set<CpsId>, slots: set<CpsId>, next: nat)
    requires WellScopedCont(c, scope, Program(slots, next)) && AllBelow(scope, next) && AllBelow(slots, next)
    ensures var r := LiftCont(c, next); WellScopedCont(r.0, scope, Program(slots, r.1))
    decreases c
  {
    if c.Inline? {
      LiftKeepsScope(c.body, scope + BindIds(c.args), slots, next);
    }
  }

  lemma {:induction false} LiftArgsKeepsScope(args: List<Arg>, scope: set<CpsId>, slots: set<CpsId>, next: nat)
    requires WellScopedArgs(args, scope, Program(slots, next)) && AllBelow(scope, next) && AllBelow(slots, next)
    ensures var r := LiftArgs(args, next); WellScopedArgs(r.0, scope, Program(slots, r.1))
    decreases args
  {
    match args
    case Nil =>
    case Cons(a, rest) =>
      var h := LiftArg(a, next);
      var end := LiftArgs(rest, h.1).1;
      assert scope + {} == scope;
      GrowArgs(rest, scope, {}, Program(slots, next), h.1);
      LiftArgsKeepsScope(rest, scope, slots, h.1);
      match a {
        case ArgCont(c) => LiftContKeepsScope(c, scope, slots, next);
        case ArgExpr(e) => LiftKeepsScope(e, scope, slots, next);
        case _ =>
      }
      GrowArg(h.0, scope, {}, Program(slots, h.1), end);
  }

  function FnIds(conts: seq<LiftedCont>): set<CpsId> {
    set c | c in conts :: c.fnId
  }

  /** A lifted continuation is well scoped where the call was, before any of the fresh names. */
  ghost predicate ContScoped(c: LiftedCont, scope: set<CpsId>, pr: Program) {
    NewValues(c.params, scope, pr) && WellScoped(c.body, scope + BindIds(c.params), pr)
  }

  lemma {:induction false} ReplacedContsScoped(args: List<Arg>, scope: set<CpsId>, pr: Program, at: nat)
    requires WellScopedArgs(args, scope, pr)
    ensures var r := Replace(args, at);
            forall c :: c in r.conts ==> ContScoped(c, scope, pr) && at <= c.fnId < r.next
  {
    match args
    case Nil =>
    case Cons(a, rest) =>
      if a.ArgCont? && a.cont.Inline? {
        ReplaceInline(a.cont.args, a.cont.body, rest, at);
        ReplacedContsScoped(rest, scope, pr, at + 2);
        assert WellScopedArg(a, scope, pr) && WellScopedCont(a.cont, scope, pr);
        assert ContScoped(LiftedCont(at, a.cont.args, a.cont.body), scope, pr);
      } else {
        ReplaceOther(a, rest, at);
        ReplacedContsScoped(rest, scope, pr, at);
      }
  }

  lemma {:induction false} ReplacedScoped(args: List<Arg>, scope: set<CpsId>, pr: Program, at: nat, names: set<CpsId>, end: nat)
    requires WellScopedArgs(args, scope, pr) && pr.base <= end
    requires FnIds(Replace(args, at).conts) <= names && forall x :: x in names ==> x >= pr.base
    ensures WellScopedArgs(Replace(args, at).args, scope + names, Program(pr.slots, end))
  {
    match args
    case Nil =>
    case Cons(a, rest) =>
      if a.ArgCont? && a.cont.Inline? {
        ReplaceInline(a.cont.args, a.cont.body, rest, at);
        var conts := Replace(args, at).conts;
        assert conts[0] in conts && conts[0].fnId == at && at in names;
        assert conts[1..] == Replace(rest, at + 2).conts;
        ReplacedScoped(rest, scope, pr, at + 2, names, end);
      } else {
        ReplaceOther(a, rest, at);
        ReplacedScoped(rest, scope, pr, at, names, end);
        GrowArg(a, scope, names, pr, end);
      }
  }

  lemma {:induction false} WrapScoped(conts: seq<LiftedCont>, inner: Expr, next: nat, scope: set<CpsId>, extra: set<CpsId>,
                                      pr: Program, end: nat)
    requires AllBelow(scope, pr.base) && AllBelow(pr.slots, pr.base) && pr.base <= end && Rising(conts, pr.base)
    requires forall c :: c in conts ==> ContScoped(c, scope, pr) && c.fnId < end && c.fnId !in extra
    requires forall x :: x in extra ==> x >= pr.base
    requires WellScoped(inner, scope + extra + FnIds(conts), Program(pr.slots, end))
    ensures WellScoped(Wrap(conts, inner, next), scope + extra, Program(pr.slots, end))
    decreases conts
  {
    hide ContScoped, AllBelow, Rising, WellScoped, LiftExpr, FnIds;
    if conts == [] {
      assert FnIds(conts) == {} by {
        NoFnIds();
      }
      assert scope + extra + FnIds(conts) == scope + extra;
    } else {
      var c, rest := conts[0], conts[1..];
      var extra' := extra + {c.fnId};
      FirstFnId(conts, scope, extra);
      RisingTail(conts, pr.base);
      WrapScoped(rest, inner, next, scope, extra', pr, end);
      DefineScoped(c, Wrap(rest, inner, next), next + |rest|, scope, extra, pr, end);
    }
  }

  lemma NoFnIds()
    ensures FnIds([]) == {}
  {
  }

  lemma FirstFnId(conts: seq<LiftedCont>, scope: set<CpsId>, extra: set<CpsId>)
    requires conts != []
    ensures scope + extra + FnIds(conts) == scope + (extra + {conts[0].fnId}) + FnIds(conts[1..])
    ensures scope + (extra + {conts[0].fnId}) == scope + extra + {conts[0].fnId}
    ensures conts[0] in conts && forall c :: c in conts[1..] ==> c in conts
  {
    assert conts == [conts[0]] + conts[1..];
  }

  lemma RisingTail(conts: seq<LiftedCont>, lo: nat)
    requires conts != [] && Rising(conts, lo)
    ensures Rising(conts[1..], lo) && conts[0].fnId >= lo && forall d :: d in conts[1..] ==> d.fnId != conts[0].fnId
  {
    forall d | d in conts[1..]
      ensures d.fnId != conts[0].fnId
    {
      var i :| 0 <= i < |conts[1..]| && conts[1..][i] == d;
      assert conts[i + 1] == d;
    }
  }

  /** One lifted continuation, defined around code that is well scoped with its name. */
  lemma DefineScoped(c: LiftedCont, rest: Expr, id: CpsId, scope: set<CpsId>, extra: set<CpsId>, pr: Program, end: nat)
    requires AllBelow(scope, pr.base) && AllBelow(pr.slots, pr.base) && pr.base <= end
    requires ContScoped(c, scope, pr) && pr.base <= c.fnId < end && c.fnId !in extra
    requires forall x :: x in extra ==> x >= pr.base
    requires WellScoped(rest, scope + extra + {c.fnId}, Program(pr.slots, end))
    ensures WellScoped(LetFn(id, BindNode(c.fnId, Synth), Names(c.params), CpsClosure, c.body, Inline([], rest)),
                       scope + extra, Program(pr.slots, end))
  {
    hide AllBelow;
    NewAmong(c.params, scope, extra, pr, end);
    Grow(c.body, scope + BindIds(c.params), extra, pr, end);
    assert scope + BindIds(c.params) + extra == scope + extra + ParamIds(Names(c.params));
    assert NewValue(BindNode(c.fnId, Synth), scope + extra, Program(pr.slots, end)) by {
      FreshName(c.fnId, scope, pr);
    }
    hide NewValue, NewParams, ContScoped;
    assert WellScoped(rest, scope + extra + {c.fnId}, Program(pr.slots, end));
  }

  lemma FreshName(x: CpsId, scope: set<CpsId>, pr: Program)
    requires AllBelow(scope, pr.base) && AllBelow(pr.slots, pr.base) && x >= pr.base
    ensures x !in scope && x !in pr.slots
  {
  }

  lemma NewAmong(binds: seq<BindNode>, scope: set<CpsId>, extra: set<CpsId>, pr: Program, end: nat)
    requires NewValues(binds, scope, pr) && pr.base <= end && forall x :: x in extra ==> x >= pr.base
    ensures NewParams(Names(binds), scope + extra, Program(pr.slots, end))
  {
    forall p | p in Names(binds)
      ensures NewValue(p.bind, scope + extra, Program(pr.slots, end))
    {
      var i :| 0 <= i < |Names(binds)| && Names(binds)[i] == p;
      assert binds[i] in binds;
    }
  }

  lemma UserAppScoped(id: CpsId, func: Callable, args: List<Arg>, scope: set<CpsId>, slots: set<CpsId>, at: nat)
    requires AllBelow(scope, at) && AllBelow(slots, at)
    requires WellScopedArgs(args, scope, Program(slots, at)) && forall x :: x in CallableReads(func) ==> x in scope
    ensures var r := LiftUserApp(id, func, args, at); WellScoped(r.0, scope, Program(slots, r.1))
  {
    var r := Replace(args, at);
    var pr := Program(slots, at);
    var inner := App(id, func, r.args);
    var end := r.next + |r.conts|;
    ReplacedContsScoped(args, scope, pr, at);
    ReplacedScoped(args, scope, pr, at, FnIds(r.conts), end);
    ReplaceRises(args, at);
    assert scope + {} + FnIds(r.conts) == scope + FnIds(r.conts) && scope + {} == scope;
    WrapScoped(r.conts, inner, r.next, scope, {}, pr, end);
  }

  // ---- Binders --------------------------------------------------------------------------------------

  ghost predicate BagBelow(m: multiset<CpsId>, bound: nat) {
    forall x :: x in m ==> x < bound
  }

  /** `after` has the binders of `before` as they were, and besides only ids from `lo` up to `hi`, each
      at most once. */
  ghost predicate AddsFresh(before: multiset<CpsId>, after: multiset<CpsId>, lo: nat, hi: nat) {
    forall x :: if x < lo then after[x] == before[x] else if x < hi then after[x] <= 1 else after[x] == 0
  }

  lemma AddsFreshSum(a: multiset<CpsId>, a': multiset<CpsId>, b: multiset<CpsId>, b': multiset<CpsId>, lo: nat, mid: nat, hi: nat)
    requires lo <= mid <= hi && BagBelow(a, lo) && BagBelow(b, lo)
    requires AddsFresh(a, a', lo, mid) && AddsFresh(b, b', mid, hi)
    ensures AddsFresh(a + b, a' + b', lo, hi)
  {
    assert forall x :: x >= lo ==> x !in b;
  }

  lemma AddsFreshKeep(kept: multiset<CpsId>, a: multiset<CpsId>, a': multiset<CpsId>, lo: nat, hi: nat)
    requires lo <= hi && BagBelow(kept, lo) && AddsFresh(a, a', lo, hi)
    ensures AddsFresh(kept + a, kept + a', lo, hi)
  {
    assert forall x :: x >= lo ==> x !in kept;
  }

  lemma BagParts(a: multiset<CpsId>, b: multiset<CpsId>, bound: nat)
    requires BagBelow(a + b, bound)
    ensures BagBelow(a, bound) && BagBelow(b, bound)
  {
    assert forall x :: x in a ==> x in a + b;
    assert forall x :: x in b ==> x in a + b;
  }

  lemma {:induction false} LiftBinders(e: Expr, next: nat)
    requires BagBelow(Binders(e), next)
    ensures var r := LiftExpr(e, next); AddsFresh(Binders(e), Binders(r.0), next, r.1)
    decreases e, 1
  {
    hide AddsFresh, BagBelow;
    match e
    case LetVal(_, name, _, cont) =>
      BagParts(multiset{name.id}, ContBinders(cont), next);
      LiftContBinders(cont, next);
      AddsFreshKeep(multiset{name.id}, ContBinders(cont), ContBinders(LiftCont(cont, next).0), next, LiftCont(cont, next).1);
    case LetFn(_, _, _, _, _, _) => LiftFnBinders(e, next);
    case App(id, func, args) =>
      var a := LiftArgs(args, next);
      LiftArgsBinders(args, next);
      if !KeepsInline(func) {
        UserAppBinders(id, func, args, a.0, next, a.1);
      }
    case If(_, _, thn, els) =>
      var t := LiftExpr(thn, next);
      var f := LiftExpr(els, t.1);
      BagParts(Binders(thn), Binders(els), next);
      LiftBinders(thn, next);
      LaterBag(Binders(els), next, t.1);
      LiftBinders(els, t.1);
      AddsFreshSum(Binders(thn), Binders(t.0), Binders(els), Binders(f.0), next, t.1, f.1);
    case LetRec(_, slots, body) =>
      BagParts(NodeBinders(slots), Binders(body), next);
      LiftBinders(body, next);
      AddsFreshKeep(NodeBinders(slots), Binders(body), Binders(LiftExpr(body, next).0), next, LiftExpr(body, next).1);
    case Set(_, _, _, cont) => LiftContBinders(cont, next);
    case Closure(_, _, _, cont) => LiftContBinders(cont, next);
    case LetCaps(_, _, binds, cont) =>
      BagParts(NodeBinders(binds), ContBinders(cont), next);
      LiftContBinders(cont, next);
      AddsFreshKeep(NodeBinders(binds), ContBinders(cont), ContBinders(LiftCont(cont, next).0), next, LiftCont(cont, next).1);
  }

  lemma {:induction false} LiftFnBinders(e: Expr, next: nat)
    requires e.LetFn? && BagBelow(Binders(e), next)
    ensures var r := LiftExpr(e, next); AddsFresh(Binders(e), Binders(r.0), next, r.1)
    decreases e, 0
  {
    hide AddsFresh, BagBelow;
    var LetFn(_, name, params, _, body, cont) := e;
    var b := LiftExpr(body, next);
    var c := LiftCont(cont, b.1);
    var own := multiset{name.id} + ParamBinders(params);
    assert Binders(e) == own + (Binders(body) + ContBinders(cont));
    BagParts(own, Binders(body) + ContBinders(cont), next);
    BagParts(Binders(body), ContBinders(cont), next);
    LiftBinders(body, next);
    LaterBag(ContBinders(cont), next, b.1);
    LiftContBinders(cont, b.1);
    AddsFreshSum(Binders(body), Binders(b.0), ContBinders(cont), ContBinders(c.0), next, b.1, c.1);
    AddsFreshKeep(own, Binders(body) + ContBinders(cont), Binders(b.0) + ContBinders(c.0), next, c.1);
    assert Binders(LiftExpr(e, next).0) == own + (Binders(b.0) + ContBinders(c.0));
  }

  lemma NothingAdded(m: multiset<CpsId>, lo: nat)
    requires BagBelow(m, lo)
    ensures AddsFresh(m, m, lo, lo)
  {
    assert forall x :: x >= lo ==> x !in m;
  }

  lemma LaterBag(m: multiset<CpsId>, lo: nat, hi: nat)
    requires BagBelow(m, lo) && lo <= hi
    ensures BagBelow(m, hi)
  {
  }

  lemma {:induction false} LiftContBinders(c: Cont, next: nat)
    requires BagBelow(ContBinders(c), next)
    ensures var r := LiftCont(c, next); AddsFresh(ContBinders(c), ContBinders(r.0), next, r.1)
    decreases c
  {
    hide AddsFresh, BagBelow;
    if c.ContTo? {
      NothingAdded(multiset{}, next);
    } else {
      BagParts(NodeBinders(c.args), Binders(c.body), next);
      LiftBinders(c.body, next);
      AddsFreshKeep(NodeBinders(c.args), Binders(c.body), Binders(LiftExpr(c.body, next).0), next, LiftExpr(c.body, next).1);
    }
  }

  lemma {:induction false} LiftArgsBinders(args: List<Arg>, next: nat)
    requires BagBelow(ArgsBinders(args), next)
    ensures var r := LiftArgs(args, next); AddsFresh(ArgsBinders(args), ArgsBinders(r.0), next, r.1)
    decreases args
  {
    match args
    case Nil =>
    case Cons(a, rest) =>
      var h := LiftArg(a, next);
      var t := LiftArgs(rest, h.1);
      BagParts(ArgBinders(a), ArgsBinders(rest), next);
      LiftArgBinders(a, next);
      LaterBag(ArgsBinders(rest), next, h.1);
      LiftArgsBinders(rest, h.1);
      AddsFreshSum(ArgBinders(a), ArgBinders(h.0), ArgsBinders(rest), ArgsBinders(t.0), next, h.1, t.1);
  }

  lemma {:induction false} LiftArgBinders(a: Arg, next: nat)
    requires BagBelow(ArgBinders(a), next)
    ensures var r := LiftArg(a, next); AddsFresh(ArgBinders(a), ArgBinders(r.0), next, r.1)
    decreases a
  {
    match a
    case ArgCont(c) => LiftContBinders(c, next);
    case ArgExpr(e) => LiftBinders(e, next);
    case _ =>
  }

  function ContsBinders(conts: seq<LiftedCont>): multiset<CpsId> {
    if conts == [] then multiset{}
    else NodeBinders(conts[0].params) + Binders(conts[0].body) + ContsBinders(conts[1..])
  }

  function FnIdBag(conts: seq<LiftedCont>): multiset<CpsId> {
    if conts == [] then multiset{} else multiset{conts[0].fnId} + FnIdBag(conts[1..])
  }

  lemma {:induction false} FnIdsOnce(conts: seq<LiftedCont>, lo: nat, hi: nat)
    requires Rising(conts, lo) && forall c :: c in conts ==> c.fnId < hi
    ensures AddsFresh(multiset{}, FnIdBag(conts), lo, hi)
    decreases conts
  {
    if conts != [] {
      assert conts[0] in conts;
      FnIdsOnce(conts[1..], conts[0].fnId + 1, hi);
    }
  }

  lemma {:induction false} NamesBinders(binds: seq<BindNode>)
    ensures ParamBinders(Names(binds)) == NodeBinders(binds)
  {
    if binds != [] {
      assert Names(binds)[1..] == Names(binds[1..]);
      NamesBinders(binds[1..]);
    }
  }

  /** The binders of one definition around `rest`. */
  lemma DefinitionBinders(c: LiftedCont, rest: Expr, id: CpsId)
    ensures Binders(LetFn(id, BindNode(c.fnId, Synth), Names(c.params), CpsClosure, c.body, Inline([], rest)))
            == multiset{c.fnId} + NodeBinders(c.params) + Binders(c.body) + Binders(rest)
  {
    hide NodeBinders, ParamBinders;
    NamesBinders(c.params);
    assert NodeBinders([]) == multiset{} by {
      NoNodeBinders();
    }
  }

  lemma NoNodeBinders()
    ensures NodeBinders([]) == multiset{}
  {
  }

  /** Bags of one definition and the rest, regrouped. */
  lemma RegroupDefinition(id: multiset<CpsId>, params: multiset<CpsId>, body: multiset<CpsId>, inner: multiset<CpsId>,
                          conts: multiset<CpsId>, ids: multiset<CpsId>)
    ensures id + params + body + (inner + conts + ids) == inner + (params + body + conts) + (id + ids)
  {
  }

  /** The bags of no continuation, and of one in front of others. */
  lemma BagsStep(conts: seq<LiftedCont>)
    ensures conts == [] ==> ContsBinders(conts) == multiset{} && FnIdBag(conts) == multiset{}
    ensures conts != [] ==>
              && ContsBinders(conts) == NodeBinders(conts[0].params) + Binders(conts[0].body) + ContsBinders(conts[1..])
              && FnIdBag(conts) == multiset{conts[0].fnId} + FnIdBag(conts[1..])
  {
  }

  lemma WrapStep(conts: seq<LiftedCont>, inner: Expr, next: nat)
    ensures conts == [] ==> Wrap(conts, inner, next) == inner
    ensures conts != [] ==>
              Wrap(conts, inner, next)
              == LetFn(next + |conts| - 1, BindNode(conts[0].fnId, Synth), Names(conts[0].params), CpsClosure, conts[0].body,
                       Inline([], Wrap(conts[1..], inner, next)))
  {
  }

  lemma {:induction false} WrapBinders(conts: seq<LiftedCont>, inner: Expr, next: nat)
    ensures Binders(Wrap(conts, inner, next)) == Binders(inner) + ContsBinders(conts) + FnIdBag(conts)
    decreases conts
  {
    hide Binders, NodeBinders, Wrap, ContsBinders, FnIdBag;
    BagsStep(conts);
    WrapStep(conts, inner, next);
    if conts != [] {
      var c := conts[0];
      WrapBinders(conts[1..], inner, next);
      DefinitionBinders(c, Wrap(conts[1..], inner, next), next + |conts| - 1);
      RegroupDefinition(multiset{c.fnId}, NodeBinders(c.params), Binders(c.body), Binders(inner),
                        ContsBinders(conts[1..]), FnIdBag(conts[1..]));
    }
  }

  lemma Regroup(own: multiset<CpsId>, a: multiset<CpsId>, b: multiset<CpsId>, c: multiset<CpsId>)
    requires a + b == c
    ensures multiset{} + a + (own + b) == own + c && (own + a) + b == own + c
  {
  }

  lemma {:induction false} ReplacedBinders(args: List<Arg>, at: nat)
    ensures var r := Replace(args, at);
            && ArgsBinders(r.args) + ContsBinders(r.conts) == ArgsBinders(args)
            && forall c :: c in r.conts ==> c.fnId < r.next
    decreases args
  {
    hide Binders, NodeBinders, ContsBinders, ArgsBinders, Replace;
    match args
    case Nil => NoArgBinders(at);
    case Cons(a, rest) =>
      ConsBinders(a, rest);
      if a.ArgCont? && a.cont.Inline? {
        ReplaceInline(a.cont.args, a.cont.body, rest, at);
        ReplacedBinders(rest, at + 2);
        var r := Replace(rest, at + 2);
        var c := LiftedCont(at, a.cont.args, a.cont.body);
        var own := NodeBinders(c.params) + Binders(c.body);
        ConsBinders(ArgVal(Val(at + 1, Ref(at))), r.args);
        FirstContBinders(c, r.conts);
        Regroup(own, ArgsBinders(r.args), ContsBinders(r.conts), ArgsBinders(rest));
      } else {
        ReplaceOther(a, rest, at);
        ReplacedBinders(rest, at);
        var r := Replace(rest, at);
        ConsBinders(a, r.args);
        Regroup(ArgBinders(a), ArgsBinders(r.args), ContsBinders(r.conts), ArgsBinders(rest));
      }
  }

  lemma NoArgBinders(at: nat)
    ensures Replace(Nil, at) == Replaced(Nil, [], at) && ArgsBinders(Nil) == multiset{} && ContsBinders([]) == multiset{}
  {
  }

  lemma ConsBinders(a: Arg, rest: List<Arg>)
    ensures ArgsBinders(Cons(a, rest)) == ArgBinders(a) + ArgsBinders(rest)
  {
  }

  lemma FirstContBinders(c: LiftedCont, rest: seq<LiftedCont>)
    ensures ContsBinders([c] + rest) == NodeBinders(c.params) + Binders(c.body) + ContsBinders(rest)
  {
    assert ([c] + rest)[1..] == rest;
  }

  lemma UserAppBinders(id: CpsId, func: Callable, source: List<Arg>, args: List<Arg>, lo: nat, at: nat)
    requires lo <= at && BagBelow(ArgsBinders(source), lo) && AddsFresh(ArgsBinders(source), ArgsBinders(args), lo, at)
    ensures var r := LiftUserApp(id, func, args, at); AddsFresh(ArgsBinders(source), Binders(r.0), lo, r.1)
  {
    var r := Replace(args, at);
    var end := r.next + |r.conts|;
    WrapBinders(r.conts, App(id, func, r.args), r.next);
    ReplacedBinders(args, at);
    ReplaceRises(args, at);
    FnIdsOnce(r.conts, at, end);
    AddsFreshSum(ArgsBinders(source), ArgsBinders(args), multiset{}, FnIdBag(r.conts), lo, at, end);
    assert Binders(LiftUserApp(id, func, args, at).0) == ArgsBinders(args) + FnIdBag(r.conts);
    assert ArgsBinders(source) + multiset{} == ArgsBinders(source);
  }

  /** Lifting keeps binders unique: it keeps the ones there are and adds only fresh ones. */
  lemma LiftKeepsBindersUnique(e: Expr, slots: set<CpsId>, next: nat)
    requires BindersUnique(Binders(e), slots, next)
    ensures var r := LiftExpr(e, next); BindersUnique(Binders(r.0), slots, r.1)
  {
    LiftBinders(e, next);
  }
}
