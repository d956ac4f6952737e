/** Continuation lifting: an inline continuation handed to a call that crosses the apply boundary
    becomes a named function defined just before the call. */
module ContLift {
  import opened Collections
  import opened CpsIr
  import opened Machine
  import EnvMachine

  // ---- The pass -----------------------------------------------------------------------------------

  /** A continuation on its way to becoming a function. */
  datatype LiftedCont = LiftedCont(fnId: CpsId, params: seq<BindNode>, body: Expr)

  datatype Replaced = Replaced(args: List<Arg>, conts: seq<LiftedCont>, next: nat)

  /** Replaces each inline continuation by a reference to a function of a fresh name. */
  function Replace(args: List<Arg>, next: nat): (r: Replaced)
    ensures r.next >= next
  {
    match args
    case Nil => Replaced(Nil, [], next)
    case Cons(ArgCont(Inline(params, body)), rest) =>
      var r := Replace(rest, next + 2);
      Replaced(Cons(ArgVal(Val(next + 1, Ref(next))), r.args), [LiftedCont(next, params, body)] + r.conts, r.next)
    case Cons(a, rest) =>
      var r := Replace(rest, next);
      Replaced(Cons(a, r.args), r.conts, r.next)
  }

  /** Defines the lifted continuations around `inner`, the first one outermost. The definitions get
      their ids from the inside out, so the first gets the last id. */
  function Wrap(conts: seq<LiftedCont>, inner: Expr, next: nat): Expr {
    if conts == [] then inner
    else
      LetFn(next + |conts| - 1, BindNode(conts[0].fnId, Synth), Names(conts[0].params), CpsClosure, conts[0].body,
            Inline([], Wrap(conts[1..], inner, next)))
  }

  function LiftUserApp(id: CpsId, func: Callable, args: List<Arg>, next: nat): (r: (Expr, nat))
    ensures r.1 >= next
  {
    var r := Replace(args, next);
    (Wrap(r.conts, App(id, func, r.args), r.next), r.next + |r.conts|)
  }

  function LiftExpr(e: Expr, next: nat): (r: (Expr, nat))
    ensures r.1 >= next
    decreases e
  {
    match e
    case LetVal(id, name, val, cont) =>
      var c := LiftCont(cont, next);
      (LetVal(id, name, val, c.0), c.1)
    case LetFn(id, name, params, fnKind, body, cont) =>
      var b := LiftExpr(body, next);
      var c := LiftCont(cont, b.1);
      (LetFn(id, name, params, fnKind, b.0, c.0), c.1)
    case App(id, func, args) =>
      var a := LiftArgs(args, next);
      if KeepsInline(func) then (App(id, func, a.0), a.1) else LiftUserApp(id, func, a.0, a.1)
    case If(id, cond, thn, els) =>
      var t := LiftExpr(thn, next);
      var f := LiftExpr(els, t.1);
      (If(id, cond, t.0, f.0), f.1)
    case LetRec(id, slots, body) =>
      var b := LiftExpr(body, next);
      (LetRec(id, slots, b.0), b.1)
    case Set(id, name, val, cont) =>
      var c := LiftCont(cont, next);
      (Set(id, name, val, c.0), c.1)
    case Closure(id, funcref, captures, cont) =>
      var c := LiftCont(cont, next);
      (Closure(id, funcref, captures, c.0), c.1)
    case LetCaps(id, caps, binds, cont) =>
      var c := LiftCont(cont, next);
      (LetCaps(id, caps, binds, c.0), c.1)
  }

  function LiftCont(c: Cont, next: nat): (r: (Cont, nat))
    ensures r.1 >= next && r.0.ContTo? == c.ContTo?
    decreases c
  {
    match c
    case ContTo(_) => (c, next)
    case Inline(args, body) =>
      var b := LiftExpr(body, next);
      (Inline(args, b.0), b.1)
  }

  function LiftArgs(args: List<Arg>, next: nat): (r: (List<Arg>, nat))
    ensures r.1 >= next
    decreases args
  {
    match args
    case Nil => (Nil, next)
    case Cons(a, rest) =>
      var h := LiftArg(a, next);
      var t := LiftArgs(rest, h.1);
      (Cons(h.0, t.0), t.1)
  }

  function LiftArg(a: Arg, next: nat): (r: (Arg, nat))
    ensures r.1 >= next
    decreases a
  {
    match a
    case ArgCont(c) =>
      var c' := LiftCont(c, next);
      (ArgCont(c'.0), c'.1)
    case ArgExpr(e) =>
      var e' := LiftExpr(e, next);
      (ArgExpr(e'.0), e'.1)
    case _ => (a, next)
  }

  // ---- The pass as it runs ------------------------------------------------------------------------

  /** The pass's context: the counter of ids handed out. */
  class Lifter {
    var next: nat

    constructor (next: nat)
      ensures this.next == next
    {
      this.next := next;
    }

    method FreshId() returns (id: CpsId)
      modifies this
      ensures id == old(next) && next == old(next) + 1
    {
      id := next;
      next := next + 1;
    }

    method Lift(e: Expr) returns (r: Expr)
      modifies this
      ensures (r, next) == LiftExpr(e, old(next))
      decreases e
    {
      match e
      case LetVal(id, name, val, cont) =>
        var c := LiftContOf(cont);
        r := LetVal(id, name, val, c);
      case LetFn(id, name, params, fnKind, body, cont) =>
        var b := Lift(body);
        var c := LiftContOf(cont);
        r := LetFn(id, name, params, fnKind, b, c);
      case App(id, func, args) =>
        var a := LiftArgsOf(args);
        if KeepsInline(func) {
          r := App(id, func, a);
        } else {
          r := LiftCall(id, func, a);
        }
      case If(id, cond, thn, els) =>
        var t := Lift(thn);
        var f := Lift(els);
        r := If(id, cond, t, f);
      case LetRec(id, slots, body) =>
        var b := Lift(body);
        r := LetRec(id, slots, b);
      case Set(id, name, val, cont) =>
        var c := LiftContOf(cont);
        r := Set(id, name, val, c);
      case Closure(id, funcref, captures, cont) =>
        var c := LiftContOf(cont);
        r := Closure(id, funcref, captures, c);
      case LetCaps(id, caps, binds, cont) =>
        var c := LiftContOf(cont);
        r := LetCaps(id, caps, binds, c);
    }

    method LiftContOf(c: Cont) returns (r: Cont)
      modifies this
      ensures (r, next) == LiftCont(c, old(next))
      decreases c
    {
      match c
      case ContTo(_) => r := c;
      case Inline(args, body) =>
        var b := Lift(body);
        r := Inline(args, b);
    }

    method LiftArgsOf(args: List<Arg>) returns (r: List<Arg>)
      modifies this
      ensures (r, next) == LiftArgs(args, old(next))
      decreases args
    {
      match args
      case Nil => r := Nil;
      case Cons(a, rest) =>
        var a' := a;
        match a {
          case ArgCont(c) =>
            var c' := LiftContOf(c);
            a' := ArgCont(c');
          case ArgExpr(e) =>
            var e' := Lift(e);
            a' := ArgExpr(e');
          case _ =>
        }
        var rest' := LiftArgsOf(rest);
        r := Cons(a', rest');
    }

    method ReplaceOf(args: List<Arg>) returns (r: List<Arg>, conts: seq<LiftedCont>)
      modifies this
      ensures Replaced(r, conts, next) == Replace(args, old(next))
    {
      match args
      case Nil => r, conts := Nil, [];
      case Cons(ArgCont(Inline(params, body)), rest) =>
        var fnId := FreshId();
        var valId := FreshId();
        var rest', conts' := ReplaceOf(rest);
        r, conts := Cons(ArgVal(Val(valId, Ref(fnId))), rest'), [LiftedCont(fnId, params, body)] + conts';
      case Cons(a, rest) =>
        var rest', conts' := ReplaceOf(rest);
        r, conts := Cons(a, rest'), conts';
    }

    /** Wraps the call from the inside out, one definition for each continuation taken out of it. */
    method LiftCall(id: CpsId, func: Callable, args: List<Arg>) returns (acc: Expr)
      modifies this
      ensures (acc, next) == LiftUserApp(id, func, args, old(next))
    {
      var args', conts := ReplaceOf(args);
      ghost var first := next;
      var inner := App(id, func, args');
      acc := inner;
      var i := |conts|;
      while i > 0
        invariant 0 <= i <= |conts|
        invariant next == first + |conts| - i
        invariant acc == Wrap(conts[i..], inner, first)
      {
        i := i - 1;
        var wrapId := FreshId();
        acc := LetFn(wrapId, BindNode(conts[i].fnId, Synth), Names(conts[i].params), CpsClosure, conts[i].body, Inline([], acc));
        assert conts[i..][1..] == conts[i + 1..];
      }
      assert conts[0..] == conts;
    }
  }

  // ---- Meaning ------------------------------------------------------------------------------------

  /** Every id that `e` binds or uses was handed out before `base`. */
  predicate IdsBelow(e: Expr, base: nat)
    decreases e
  {
    match e
    case LetVal(_, name, val, cont) => name.id < base && ReadsBelow(val, base) && IdsBelowCont(cont, base)
    case LetFn(_, name, params, _, body, cont) =>
      name.id < base && ParamsBelow(params, base) && IdsBelow(body, base) && IdsBelowCont(cont, base)
    case App(_, func, args) => (forall x :: x in CallableReads(func) ==> x < base) && IdsBelowArgs(args, base)
    case If(_, cond, thn, els) => ReadsBelow(cond, base) && IdsBelow(thn, base) && IdsBelow(els, base)
    case LetRec(_, slots, body) => NodesBelow(slots, base) && IdsBelow(body, base)
    case Set(_, name, val, cont) => name.id < base && ReadsBelow(val, base) && IdsBelowCont(cont, base)
    case Closure(_, funcref, captures, cont) => IdsBelowCont(cont, base)
    case LetCaps(_, caps, binds, cont) => IdsBelowCont(cont, base)
  }

  predicate ReadsBelow(v: Val, base: nat) {
    forall x :: x in ValReads(v) ==> x < base
  }

  predicate NodesBelow(binds: seq<BindNode>, base: nat) {
    forall b :: b in binds ==> b.id < base
  }

  predicate ParamsBelow(params: seq<Param>, base: nat) {
    forall p :: p in params ==> p.bind.id < base
  }

  predicate IdsBelowCont(c: Cont, base: nat)
    decreases c
  {
    match c
    case ContTo(k) => k < base
    case Inline(args, body) => NodesBelow(args, base) && IdsBelow(body, base)
  }

  predicate IdsBelowArgs(args: List<Arg>, base: nat)
    decreases args
  {
    match args
    case Nil => true
    case Cons(a, rest) => IdsBelowArg(a, base) && IdsBelowArgs(rest, base)
  }

  predicate IdsBelowArg(a: Arg, base: nat)
    decreases a
  {
    match a
    case ArgVal(v) => ReadsBelow(v, base)
    case ArgSpread(v) => ReadsBelow(v, base)
    case ArgCont(c) => IdsBelowCont(c, base)
    case ArgExpr(e) => IdsBelow(e, base)
  }

  /** Both environments hold the same under every id below `base`. */
  ghost predicate AgreeBelow(base: nat, env: Env, env': Env) {
    forall x :: x < base ==> (x in env <==> x in env') && (x in env ==> env[x] == env'[x])
  }

  /** The lifted function runs the lifted body, from some id on, in an environment that agrees. */
  ghost predicate SameFn(base: nat, f: EnvMachine.EnvFn, g: EnvMachine.EnvFn, from: nat) {
    && from >= base && IdsBelow(f.body, base) && ParamsBelow(f.params, base)
    && g.params == f.params && g.body == LiftExpr(f.body, from).0 && AgreeBelow(base, f.env, g.env)
  }

  ghost predicate SameFns(base: nat, fs: seq<EnvMachine.EnvFn>, gs: seq<EnvMachine.EnvFn>, froms: seq<nat>) {
    |fs| == |gs| == |froms| && forall i :: 0 <= i < |fs| ==> SameFn(base, fs[i], gs[i], froms[i])
  }

  lemma SameFnsConcat(base: nat, fs: seq<EnvMachine.EnvFn>, gs: seq<EnvMachine.EnvFn>, froms: seq<nat>,
                      fs': seq<EnvMachine.EnvFn>, gs': seq<EnvMachine.EnvFn>, froms': seq<nat>)
    requires SameFns(base, fs, gs, froms) && SameFns(base, fs', gs', froms')
    ensures SameFns(base, fs + fs', gs + gs', froms + froms')
  {
    hide SameFn;
  }

  lemma SameRead(base: nat, v: Val, env: Env, env': Env, sh: Shared)
    requires ReadsBelow(v, base) && AgreeBelow(base, env, env')
    ensures ReadVal(v, env, sh) == ReadVal(v, env', sh)
  {
    if v.kind.Ref? || v.kind.ContRef? {
      assert v.kind.target in ValReads(v);
    }
  }

  lemma SameFill(base: nat, x: CpsId, v: Value, env: Env, env': Env, sh: Shared)
    requires x < base && AgreeBelow(base, env, env')
    ensures FillSlot(x, v, env, sh) == FillSlot(x, v, env', sh)
  {
  }

  lemma AgreeMore(base: nat, env: Env, env': Env, more: Env)
    requires AgreeBelow(base, env, env')
    ensures AgreeBelow(base, env + more, env' + more)
  {
  }

  /** Both runs: an environment each, everything else shared or paired up. */
  datatype Both = Both(env: Env, env': Env, ctx: Value, sh: Shared, fs: seq<EnvMachine.EnvFn>, gs: seq<EnvMachine.EnvFn>,
                       froms: seq<nat>)

  ghost predicate Paired(base: nat, m: Both) {
    AgreeBelow(base, m.env, m.env') && SameFns(base, m.fs, m.gs, m.froms)
  }

  function Source(rt: Runtime, fuel: nat, e: Expr, m: Both): Result {
    EnvMachine.Eval(rt, fuel, e, m.env, m.ctx, m.sh, m.fs)
  }

  function Target(rt: Runtime, fuel: nat, e: Expr, m: Both): Result {
    EnvMachine.Eval(rt, fuel, e, m.env', m.ctx, m.sh, m.gs)
  }

  function SourceCall(rt: Runtime, fuel: nat, k: Cont, args: seq<Value>, m: Both): Result {
    EnvMachine.RunCall(rt, fuel, k, args, m.env, m.ctx, m.sh, m.fs)
  }

  function TargetCall(rt: Runtime, fuel: nat, k: Cont, args: seq<Value>, m: Both): Result {
    EnvMachine.RunCall(rt, fuel, k, args, m.env', m.ctx, m.sh, m.gs)
  }

  function Bind(m: Both, more: Env): Both {
    m.(env := m.env + more, env' := m.env' + more)
  }

  lemma PairedMore(base: nat, m: Both, more: Env)
    requires Paired(base, m)
    ensures Paired(base, Bind(m, more))
  {
    AgreeMore(base, m.env, m.env', more);
  }

  lemma {:induction false} LiftSame(rt: Runtime, base: nat, fuel: nat, e: Expr, next: nat, m: Both)
    requires base <= next && IdsBelow(e, base) && Paired(base, m)
    ensures Source(rt, fuel, e, m) == Target(rt, fuel, LiftExpr(e, next).0, m)
    decreases fuel, 1, e, 3
  {
    match e
    case LetVal(_, _, _, _) => LetValSame(rt, base, fuel, e, next, m);
    case LetFn(_, _, _, _, _, _) => LetFnSame(rt, base, fuel, e, next, m);
    case App(_, func, _) =>
      if KeepsInline(func) {
        KeptSame(rt, base, fuel, e, next, m);
      } else {
        UserAppSame(rt, base, fuel, e, next, m);
      }
    case If(_, _, _, _) => IfSame(rt, base, fuel, e, next, m);
    case LetRec(_, slots, body) =>
      var m' := Bind(m, SlotEntries(slots, |m.sh.cells|)).(sh := Declare(slots, m.sh));
      PairedMore(base, m, SlotEntries(slots, |m.sh.cells|));
      LiftSame(rt, base, fuel, body, next, m');
    case Set(_, _, _, _) => SetSame(rt, base, fuel, e, next, m);
    case Closure(_, _, _, _) =>
    case LetCaps(_, _, _, _) =>
  }

  lemma {:induction false} LetValSame(rt: Runtime, base: nat, fuel: nat, e: Expr, next: nat, m: Both)
    requires e.LetVal? && base <= next && IdsBelow(e, base) && Paired(base, m)
    ensures Source(rt, fuel, e, m) == Target(rt, fuel, LiftExpr(e, next).0, m)
    decreases fuel, 1, e, 0
  {
    hide SameFns, AgreeBelow;
    var LetVal(_, name, val, cont) := e;
    SameRead(base, val, m.env, m.env', m.sh);
    var v := ReadVal(val, m.env, m.sh);
    if v.Some? {
      if name.id in rt.slots {
        SameFill(base, name.id, v.value, m.env, m.env', m.sh);
        var sh' := FillSlot(name.id, v.value, m.env, m.sh);
        if sh'.Some? {
          CallSame(rt, base, fuel, cont, next, ContArgs(cont, [v.value], m.ctx), m.(sh := sh'.value));
        }
      } else {
        var more: Env := map[name.id := Holds(v.value)];
        PairedMore(base, m, more);
        PutIsAdd(m.env, name.id, v.value);
        PutIsAdd(m.env', name.id, v.value);
        CallSame(rt, base, fuel, cont, next, ContArgs(cont, [v.value], m.ctx), Bind(m, more));
      }
    }
  }

  lemma {:induction false} LetFnSame(rt: Runtime, base: nat, fuel: nat, e: Expr, next: nat, m: Both)
    requires e.LetFn? && base <= next && IdsBelow(e, base) && Paired(base, m)
    ensures Source(rt, fuel, e, m) == Target(rt, fuel, LiftExpr(e, next).0, m)
    decreases fuel, 1, e, 0
  {
    var LetFn(_, name, params, _, body, cont) := e;
    var b := LiftExpr(body, next);
    var f := EnvMachine.EnvFn(params, body, m.env);
    var g := EnvMachine.EnvFn(params, b.0, m.env');
    SameFnsConcat(base, m.fs, m.gs, m.froms, [f], [g], [next]);
    var more: Env := map[name.id := Holds(FnAt(|m.fs|))];
    var m' := Bind(m, more).(fs := m.fs + [f], gs := m.gs + [g], froms := m.froms + [next]);
    AgreeMore(base, m.env, m.env', more);
    PutIsAdd(m.env, name.id, FnAt(|m.fs|));
    PutIsAdd(m.env', name.id, FnAt(|m.fs|));
    CallSame(rt, base, fuel, cont, b.1, ContArgs(cont, [FnAt(|m.fs|)], m.ctx), m');
  }

  lemma {:induction false} IfSame(rt: Runtime, base: nat, fuel: nat, e: Expr, next: nat, m: Both)
    requires e.If? && base <= next && IdsBelow(e, base) && Paired(base, m)
    ensures Source(rt, fuel, e, m) == Target(rt, fuel, LiftExpr(e, next).0, m)
    decreases fuel, 1, e, 0
  {
    hide Paired;
    assert Paired(base, m);
    var If(_, cond, thn, els) := e;
    IfReads(base, cond, m);
    LiftSame(rt, base, fuel, thn, next, m);
    LiftSame(rt, base, fuel, els, LiftExpr(thn, next).1, m);
  }

  lemma IfReads(base: nat, cond: Val, m: Both)
    requires ReadsBelow(cond, base) && Paired(base, m)
    ensures ReadVal(cond, m.env, m.sh) == ReadVal(cond, m.env', m.sh)
  {
    SameRead(base, cond, m.env, m.env', m.sh);
  }

  lemma {:induction false} SetSame(rt: Runtime, base: nat, fuel: nat, e: Expr, next: nat, m: Both)
    requires e.Set? && base <= next && IdsBelow(e, base) && Paired(base, m)
    ensures Source(rt, fuel, e, m) == Target(rt, fuel, LiftExpr(e, next).0, m)
    decreases fuel, 1, e, 0
  {
    hide SameFns;
    var Set(_, name, val, cont) := e;
    SameRead(base, val, m.env, m.env', m.sh);
    var v := ReadVal(val, m.env, m.sh);
    if v.Some? {
      var sh' := FillSlot(name.id, v.value, m.env, m.sh);
      assert sh' == FillSlot(name.id, v.value, m.env', m.sh);
      if sh'.Some? {
        CallSame(rt, base, fuel, cont, next, ContArgs(cont, [], m.ctx), m.(sh := sh'.value));
      }
    }
  }

  lemma {:induction false} CallSame(rt: Runtime, base: nat, fuel: nat, k: Cont, next: nat, args: seq<Value>, m: Both)
    requires base <= next && IdsBelowCont(k, base) && Paired(base, m)
    ensures SourceCall(rt, fuel, k, args, m) == TargetCall(rt, fuel, LiftCont(k, next).0, args, m)
    decreases fuel, 1, k
  {
    match k
    case ContTo(x) =>
      var f := ReadId(x, m.env, m.sh);
      assert f == ReadId(x, m.env', m.sh);
      if f.Some? {
        InvokeSame(rt, base, fuel, f.value, args, m);
      }
    case Inline(binds, body) =>
      var more := BindParams(Names(binds), args);
      if more.Some? {
        PairedMore(base, m, more.value);
        LiftSame(rt, base, fuel, body, next, Bind(m, more.value));
      }
  }

  lemma {:induction false} InvokeSame(rt: Runtime, base: nat, fuel: nat, f: Value, args: seq<Value>, m: Both)
    requires SameFns(base, m.fs, m.gs, m.froms)
    ensures EnvMachine.Invoke(rt, fuel, f, args, m.sh, m.fs) == EnvMachine.Invoke(rt, fuel, f, args, m.sh, m.gs)
    decreases fuel, 0
  {
    if fuel > 0 && f.FnAt? && f.addr < |m.fs| {
      var fn, gn, from := m.fs[f.addr], m.gs[f.addr], m.froms[f.addr];
      assert SameFn(base, fn, gn, from);
      var more := BindParams(fn.params, args);
      if more.Some? {
        AgreeMore(base, fn.env, gn.env, more.value);
        LiftSame(rt, base, fuel - 1, fn.body, from, m.(env := fn.env + more.value, env' := gn.env + more.value, ctx := CtxOf(args)));
      }
    }
  }

  // ---- Calls that keep their continuation ---------------------------------------------------------

  lemma KeptPubKey(base: nat, args: List<Arg>, next: nat)
    requires IdsBelowArgs(args, base)
    ensures match PubKey(args)
            case None => PubKey(LiftArgs(args, next).0) == None
            case Some(key) => PubKey(LiftArgs(args, next).0) == Some((key.0, LiftCont(key.1, next).0))
    ensures PubKey(args).Some? ==> IdsBelowCont(PubKey(args).value.1, base)
  {
    if args.Cons? {
      var h := LiftArg(args.head, next);
      assert LiftArgs(args, next).0 == Cons(h.0, LiftArgs(args.tail, h.1).0);
      if args.head.ArgVal? && args.tail.Cons? {
        var h2 := LiftArg(args.tail.head, next);
        assert LiftArgs(args.tail, next).0 == Cons(h2.0, LiftArgs(args.tail.tail, h2.1).0);
        if args.tail.head.ArgVal? && args.tail.tail.Cons? {
          KeptCont(base, args.tail.tail, next);
        }
      }
    }
  }

  /** The only continuation of a call is lifted in place. */
  lemma KeptCont(base: nat, args: List<Arg>, next: nat)
    requires args.Cons? && IdsBelowArgs(args, base)
    ensures var args' := LiftArgs(args, next).0;
            && args'.Cons? && (args'.tail.Nil? <==> args.tail.Nil?) && args'.head.ArgCont? == args.head.ArgCont?
            && (args.head.ArgCont? ==>
                  IdsBelowCont(args.head.cont, base) && args'.head == ArgCont(LiftCont(args.head.cont, next).0))
  {
    var h := LiftArg(args.head, next);
    assert LiftArgs(args, next).0 == Cons(h.0, LiftArgs(args.tail, h.1).0);
  }

  lemma {:induction false} KeptSame(rt: Runtime, base: nat, fuel: nat, e: Expr, next: nat, m: Both)
    requires e.App? && KeepsInline(e.func) && base <= next && IdsBelow(e, base) && Paired(base, m)
    ensures Source(rt, fuel, e, m) == Target(rt, fuel, LiftExpr(e, next).0, m)
    decreases fuel, 1, e, 1
  {
    var op, args := e.func.op, e.args;
    var args' := LiftArgs(args, next).0;
    match op
    case Pub =>
      PubSame(rt, base, fuel, e, next, m);
    case FinkModule =>
      if args.Cons? {
        KeptCont(base, args, next);
        if args.head.ArgCont? && args.tail == Nil {
          CallSame(rt, base, fuel, args.head.cont, next, [m.ctx, HostDone], m);
        }
      }
    case _ =>
  }

  lemma {:induction false} PubSame(rt: Runtime, base: nat, fuel: nat, e: Expr, next: nat, m: Both)
    requires e.App? && e.func == CallBuiltIn(Pub) && base <= next && IdsBelow(e, base) && Paired(base, m)
    ensures Source(rt, fuel, e, m) == Target(rt, fuel, LiftExpr(e, next).0, m)
    decreases fuel, 1, e, 0
  {
    hide SameFns, AgreeBelow;
    KeptPubKey(base, e.args, next);
    var key := PubKey(e.args);
    if key.Some? {
      var sh' := ExportSlot(key.value.0, m.sh);
      if sh'.Some? {
        CallSame(rt, base, fuel, key.value.1, next, [m.ctx], m.(sh := sh'.value));
      }
    }
  }

  // ---- Calls that cross the apply boundary --------------------------------------------------------

  /** The functions that a call's inline continuations become, from the left. */
  function InlineFns(args: List<Arg>, env: Env): seq<EnvMachine.EnvFn> {
    match args
    case Nil => []
    case Cons(ArgCont(Inline(binds, body)), rest) => [EnvMachine.EnvFn(Names(binds), body, env)] + InlineFns(rest, env)
    case Cons(_, rest) => InlineFns(rest, env)
  }

  /** The ids from which their bodies are lifted. */
  function InlineFroms(args: List<Arg>, next: nat): seq<nat> {
    match args
    case Nil => []
    case Cons(a, rest) =>
      (if a.ArgCont? && a.cont.Inline? then [next] else []) + InlineFroms(rest, LiftArg(a, next).1)
  }

  /** The environment at the call, and the functions defined on the way to it. */
  function WrapEnv(conts: seq<LiftedCont>, env: Env, addr: nat): Env
    decreases conts
  {
    if conts == [] then env else WrapEnv(conts[1..], env[conts[0].fnId := Holds(FnAt(addr))], addr + 1)
  }

  function WrapFns(conts: seq<LiftedCont>, env: Env, addr: nat): (r: seq<EnvMachine.EnvFn>)
    ensures |r| == |conts|
    decreases conts
  {
    if conts == [] then []
    else
      [EnvMachine.EnvFn(Names(conts[0].params), conts[0].body, env)]
      + WrapFns(conts[1..], env[conts[0].fnId := Holds(FnAt(addr))], addr + 1)
  }

  /** Running the definitions around a call leads to the call. */
  lemma {:induction false} RunWrap(rt: Runtime, fuel: nat, conts: seq<LiftedCont>, inner: Expr, next: nat, env: Env,
                                   ctx: Value, sh: Shared, gs: seq<EnvMachine.EnvFn>)
    ensures EnvMachine.Eval(rt, fuel, Wrap(conts, inner, next), env, ctx, sh, gs)
            == EnvMachine.Eval(rt, fuel, inner, WrapEnv(conts, env, |gs|), ctx, sh, gs + WrapFns(conts, env, |gs|))
    decreases conts
  {
    if conts == [] {
      assert gs + [] == gs;
    } else {
      var h := conts[0];
      var f := FnAt(|gs|);
      var env1 := env[h.fnId := Holds(f)];
      var g := EnvMachine.EnvFn(Names(h.params), h.body, env);
      var rest := Wrap(conts[1..], inner, next);
      BindNone([f]);
      assert env1 + map[] == env1;
      RunDefine(rt, fuel, next + |conts| - 1, BindNode(h.fnId, Synth), Names(h.params), h.body, rest, env, ctx, sh, gs);
      RunWrap(rt, fuel, conts[1..], inner, next, env1, ctx, sh, gs + [g]);
      assert gs + [g] + WrapFns(conts[1..], env1, |gs| + 1) == gs + WrapFns(conts, env, |gs|);
    }
  }

  lemma RunDefine(rt: Runtime, fuel: nat, id: CpsId, name: BindNode, params: seq<Param>, body: Expr, rest: Expr,
                  env: Env, ctx: Value, sh: Shared, gs: seq<EnvMachine.EnvFn>)
    ensures EnvMachine.Eval(rt, fuel, LetFn(id, name, params, CpsClosure, body, Inline([], rest)), env, ctx, sh, gs)
            == EnvMachine.Eval(rt, fuel, rest, env[name.id := Holds(FnAt(|gs|))], ctx, sh,
                               gs + [EnvMachine.EnvFn(params, body, env)])
  {
    BindNone([FnAt(|gs|)]);
    var env1 := env[name.id := Holds(FnAt(|gs|))];
    assert env1 + map[] == env1;
  }

  /** Fresh names, in increasing order. */
  ghost predicate Rising(conts: seq<LiftedCont>, lo: nat) {
    && (forall i :: 0 <= i < |conts| ==> conts[i].fnId >= lo)
    && forall i, j :: 0 <= i < j < |conts| ==> conts[i].fnId < conts[j].fnId
  }

  lemma {:induction false} ReplaceRises(args: List<Arg>, next: nat)
    ensures Rising(Replace(args, next).conts, next)
  {
    match args
    case Nil =>
    case Cons(ArgCont(Inline(_, _)), rest) => ReplaceRises(rest, next + 2);
    case Cons(_, rest) => ReplaceRises(rest, next);
  }

  lemma {:induction false} WrapEnvAt(conts: seq<LiftedCont>, env: Env, addr: nat, lo: nat)
    requires Rising(conts, lo)
    ensures AgreeBelow(lo, env, WrapEnv(conts, env, addr))
    ensures forall i :: 0 <= i < |conts| ==>
              conts[i].fnId in WrapEnv(conts, env, addr) && WrapEnv(conts, env, addr)[conts[i].fnId] == Holds(FnAt(addr + i))
    decreases conts
  {
    if conts != [] {
      var env1 := env[conts[0].fnId := Holds(FnAt(addr))];
      WrapEnvAt(conts[1..], env1, addr + 1, conts[0].fnId + 1);
      forall i | 0 <= i < |conts|
        ensures conts[i].fnId in WrapEnv(conts, env, addr) && WrapEnv(conts, env, addr)[conts[i].fnId] == Holds(FnAt(addr + i))
      {
        if i > 0 {
          assert conts[i] == conts[1..][i - 1];
        }
      }
    }
  }

  lemma LiftedInline(params: seq<BindNode>, body: Expr, next: nat)
    ensures LiftArg(ArgCont(Inline(params, body)), next).0 == ArgCont(Inline(params, LiftExpr(body, next).0))
  {
    assert LiftCont(Inline(params, body), next).0 == Inline(params, LiftExpr(body, next).0);
  }

  lemma ReplaceInline(params: seq<BindNode>, body: Expr, rest: List<Arg>, at: nat)
    ensures var r := Replace(rest, at + 2);
            Replace(Cons(ArgCont(Inline(params, body)), rest), at)
            == Replaced(Cons(ArgVal(Val(at + 1, Ref(at))), r.args), [LiftedCont(at, params, body)] + r.conts, r.next)
  {
  }

  lemma ReplaceOther(a: Arg, rest: List<Arg>, at: nat)
    requires !(a.ArgCont? && a.cont.Inline?)
    ensures var r := Replace(rest, at); Replace(Cons(a, rest), at) == Replaced(Cons(a, r.args), r.conts, r.next)
  {
  }

  /** Both argument lists evaluate alike, the source making the functions `made` on the way. */
  ghost predicate SameArgs(args: List<Arg>, args': List<Arg>, env: Env, env': Env, sh: Shared, fs: seq<EnvMachine.EnvFn>,
                           gs: seq<EnvMachine.EnvFn>, made: seq<EnvMachine.EnvFn>)
  {
    match EnvMachine.EvalArgs(args, env, sh, fs)
    case None => EnvMachine.EvalArgs(args', env', sh, gs) == None
    case Some((vs, fs')) => EnvMachine.EvalArgs(args', env', sh, gs) == Some((vs, gs)) && fs' == fs + made
  }

  lemma SameArgsStep(a: Arg, a': Arg, rest: List<Arg>, rest': List<Arg>, env: Env, env': Env, sh: Shared,
                     fs: seq<EnvMachine.EnvFn>, gs: seq<EnvMachine.EnvFn>, first: seq<EnvMachine.EnvFn>, made: seq<EnvMachine.EnvFn>)
    requires match EnvMachine.EvalArg(a, env, sh, fs)
             case None => EnvMachine.EvalArg(a', env', sh, gs) == None
             case Some((vs, fs')) => EnvMachine.EvalArg(a', env', sh, gs) == Some((vs, gs)) && fs' == fs + first
    requires SameArgs(rest, rest', env, env', sh, fs + first, gs, made)
    ensures SameArgs(Cons(a, rest), Cons(a', rest'), env, env', sh, fs, gs, first + made)
  {
    hide EnvMachine.EvalArg;
    assert fs + first + made == fs + (first + made);
  }

  /** The lifted continuations are bound to the functions from `addr` on. */
  ghost predicate FnsAt(conts: seq<LiftedCont>, env: Env, addr: nat) {
    forall i :: 0 <= i < |conts| ==> conts[i].fnId in env && env[conts[i].fnId] == Holds(FnAt(addr + i))
  }

  lemma FnsAtFirst(c: LiftedCont, rest: seq<LiftedCont>, env: Env, addr: nat)
    requires FnsAt([c] + rest, env, addr)
    ensures c.fnId in env && env[c.fnId] == Holds(FnAt(addr)) && FnsAt(rest, env, addr + 1)
  {
    var conts := [c] + rest;
    assert conts[0] == c && forall i :: 0 <= i < |rest| ==> rest[i] == conts[i + 1];
  }

  lemma {:induction false} ReplacedArgs(base: nat, args: List<Arg>, next: nat, at: nat, env: Env, env': Env, sh: Shared,
                                        fs: seq<EnvMachine.EnvFn>, gs: seq<EnvMachine.EnvFn>)
    requires base <= next && base <= at && IdsBelowArgs(args, base) && AgreeBelow(base, env, env')
    requires FnsAt(Replace(LiftArgs(args, next).0, at).conts, env', |fs|)
    ensures SameArgs(args, Replace(LiftArgs(args, next).0, at).args, env, env', sh, fs, gs, InlineFns(args, env))
    decreases args
  {
    hide Replace, LiftExpr, IdsBelow, SameArgs, EnvMachine.EvalArgs, FnsAt, AgreeBelow;
    match args
    case Nil => NoArgs(env, env', sh, fs, gs, at);
    case Cons(a, rest) =>
      var h := LiftArg(a, next);
      var t := LiftArgs(rest, h.1).0;
      assert LiftArgs(args, next).0 == Cons(h.0, t);
      if a.ArgCont? && a.cont.Inline? {
        var f := EnvMachine.EnvFn(Names(a.cont.args), a.cont.body, env);
        LiftedInline(a.cont.args, a.cont.body, next);
        ReplaceInline(a.cont.args, LiftExpr(a.cont.body, next).0, t, at);
        FnsAtFirst(LiftedCont(at, a.cont.args, LiftExpr(a.cont.body, next).0), Replace(t, at + 2).conts, env', |fs|);
        ReplacedArgs(base, rest, h.1, at + 2, env, env', sh, fs + [f], gs);
        SameArgsStep(a, ArgVal(Val(at + 1, Ref(at))), rest, Replace(t, at + 2).args, env, env', sh, fs, gs, [f], InlineFns(rest, env));
      } else {
        assert !(h.0.ArgCont? && h.0.cont.Inline?);
        ReplaceOther(h.0, t, at);
        assert fs + [] == fs && [] + InlineFns(rest, env) == InlineFns(rest, env);
        ReplacedArgs(base, rest, h.1, at, env, env', sh, fs, gs);
        ReplacedOther(base, a, next, env, env', sh, fs, gs);
        SameArgsStep(a, h.0, rest, Replace(t, at).args, env, env', sh, fs, gs, [], InlineFns(rest, env));
      }
  }

  lemma NoArgs(env: Env, env': Env, sh: Shared, fs: seq<EnvMachine.EnvFn>, gs: seq<EnvMachine.EnvFn>, at: nat)
    ensures SameArgs(Nil, Replace(Nil, at).args, env, env', sh, fs, gs, [])
  {
    assert fs + [] == fs;
  }

  lemma ReplacedOther(base: nat, a: Arg, next: nat, env: Env, env': Env, sh: Shared, fs: seq<EnvMachine.EnvFn>,
                      gs: seq<EnvMachine.EnvFn>)
    requires IdsBelowArg(a, base) && AgreeBelow(base, env, env') && !(a.ArgCont? && a.cont.Inline?)
    ensures match EnvMachine.EvalArg(a, env, sh, fs)
            case None => EnvMachine.EvalArg(LiftArg(a, next).0, env', sh, gs) == None
            case Some((vs, fs')) => fs' == fs && EnvMachine.EvalArg(LiftArg(a, next).0, env', sh, gs) == Some((vs, gs))
  {
    match a
    case ArgVal(v) => SameRead(base, v, env, env', sh);
    case ArgSpread(v) => SameRead(base, v, env, env', sh);
    case ArgCont(_) =>
    case ArgExpr(_) =>
  }

  /** The functions defined before the call are the ones its inline continuations would become. */
  lemma {:induction false} WrapFnsSame(base: nat, args: List<Arg>, next: nat, at: nat, env: Env, env': Env, addr: nat)
    requires base <= next && base <= at && IdsBelowArgs(args, base) && AgreeBelow(base, env, env')
    ensures SameFns(base, InlineFns(args, env), WrapFns(Replace(LiftArgs(args, next).0, at).conts, env', addr), InlineFroms(args, next))
    decreases args
  {
    match args
    case Nil =>
    case Cons(a, rest) =>
      var h := LiftArg(a, next);
      var t := LiftArgs(rest, h.1).0;
      assert LiftArgs(args, next).0 == Cons(h.0, t);
      if a.ArgCont? && a.cont.Inline? {
        var params, body := a.cont.args, a.cont.body;
        var f := EnvMachine.EnvFn(Names(params), body, env);
        var g := EnvMachine.EnvFn(Names(params), LiftExpr(body, next).0, env');
        var c := LiftedCont(at, params, LiftExpr(body, next).0);
        var env1 := env'[at := Holds(FnAt(addr))];
        var rs := Replace(t, at + 2).conts;
        var conts := [c] + rs;
        LiftedInline(params, body, next);
        ReplaceInline(params, LiftExpr(body, next).0, t, at);
        assert conts[1..] == rs;
        WrapFnsSame(base, rest, h.1, at + 2, env, env1, addr + 1);
        assert IdsBelowCont(a.cont, base) && SameFn(base, f, g, next);
        SameFnsConcat(base, [f], [g], [next], InlineFns(rest, env), WrapFns(rs, env1, addr + 1), InlineFroms(rest, h.1));
      } else {
        WrapFnsSame(base, rest, h.1, at, env, env', addr);
        assert !(h.0.ArgCont? && h.0.cont.Inline?);
        ReplaceOther(h.0, t, at);
        assert InlineFroms(args, next) == InlineFroms(rest, h.1);
      }
  }

  /** Both runs at a call whose continuations were lifted. */
  function AtCall(args: List<Arg>, next: nat, m: Both): Both {
    var a := LiftArgs(args, next);
    var conts := Replace(a.0, a.1).conts;
    m.(env' := WrapEnv(conts, m.env', |m.gs|), fs := m.fs + InlineFns(args, m.env),
       gs := m.gs + WrapFns(conts, m.env', |m.gs|), froms := m.froms + InlineFroms(args, next))
  }

  lemma AtCallPaired(base: nat, args: List<Arg>, next: nat, m: Both)
    requires base <= next && IdsBelowArgs(args, base) && Paired(base, m)
    ensures Paired(base, AtCall(args, next, m))
    ensures var m' := AtCall(args, next, m);
            var a := LiftArgs(args, next);
            SameArgs(args, Replace(a.0, a.1).args, m.env, m'.env', m.sh, m.fs, m'.gs, InlineFns(args, m.env))
  {
    var a := LiftArgs(args, next);
    var conts := Replace(a.0, a.1).conts;
    var m' := AtCall(args, next, m);
    ReplaceRises(a.0, a.1);
    WrapEnvAt(conts, m.env', |m.gs|, a.1);
    WrapFnsSame(base, args, next, a.1, m.env, m.env', |m.gs|);
    SameFnsConcat(base, m.fs, m.gs, m.froms, InlineFns(args, m.env), WrapFns(conts, m.env', |m.gs|), InlineFroms(args, next));
    assert AgreeBelow(base, m.env, m'.env');
    ReplacedArgs(base, args, next, a.1, m.env, m'.env', m.sh, m.fs, m'.gs);
  }

  lemma {:induction false} UserAppSame(rt: Runtime, base: nat, fuel: nat, e: Expr, next: nat, m: Both)
    requires e.App? && !KeepsInline(e.func) && base <= next && IdsBelow(e, base) && Paired(base, m)
    ensures Source(rt, fuel, e, m) == Target(rt, fuel, LiftExpr(e, next).0, m)
    decreases fuel, 1, e, 1
  {
    var App(id, func, args) := e;
    var a := LiftArgs(args, next);
    var r := Replace(a.0, a.1);
    var call := App(id, func, r.args);
    var m' := AtCall(args, next, m);
    AtCallPaired(base, args, next, m);
    RunWrap(rt, fuel, r.conts, call, r.next, m.env', m.ctx, m.sh, m.gs);
    assert Target(rt, fuel, LiftExpr(e, next).0, m) == Target(rt, fuel, call, m');
    CallAppSame(rt, base, fuel, e, call, m, m', InlineFns(args, m.env));
  }

  lemma {:induction false} CallAppSame(rt: Runtime, base: nat, fuel: nat, e: Expr, call: Expr, m: Both, m': Both,
                                       made: seq<EnvMachine.EnvFn>)
    requires e.App? && !KeepsInline(e.func) && IdsBelow(e, base) && call.App? && call == App(e.id, e.func, call.args)
    requires Paired(base, m') && m'.env == m.env && m'.ctx == m.ctx && m'.sh == m.sh
    requires SameArgs(e.args, call.args, m.env, m'.env', m.sh, m.fs, m'.gs, made) && m'.fs == m.fs + made
    ensures Source(rt, fuel, e, m) == Target(rt, fuel, call, m')
    decreases fuel, 1, e, 0
  {
    hide AgreeBelow, SameFns;
    var vals := EnvMachine.EvalArgs(e.args, m.env, m.sh, m.fs);
    assert forall x :: x in CallableReads(e.func) ==> x < base;
    if e.func.CallVal? {
      assert CallableReads(e.func) == ValReads(e.func.val);
      SameRead(base, e.func.val, m'.env, m'.env', m.sh);
      var f := ReadVal(e.func.val, m.env, m.sh);
      if f.Some? && vals.Some? {
        InvokeSame(rt, base, fuel, f.value, vals.value.0, m');
      }
    } else if vals.Some? {
      var sh' := Logged(e.func.op, vals.value.0, m.sh);
      var step := rt.answer(sh'.log);
      if step.TailCall? {
        InvokeSame(rt, base, fuel, step.callee, step.args, m'.(sh := sh'));
      }
    }
  }

  /** For every runtime, context and amount of fuel, the lifted program ends like the program it came
      from: same outcome, same answers, same slot cells, same exports, same operator calls. */
  lemma LiftPreservesMeaning(rt: Runtime, fuel: nat, root: Expr, next: nat, ctx: Value, sh: Shared)
    requires IdsBelow(root, next)
    ensures EnvMachine.Eval(rt, fuel, LiftExpr(root, next).0, map[], ctx, sh, [])
            == EnvMachine.Eval(rt, fuel, root, map[], ctx, sh, [])
  {
    LiftSame(rt, next, fuel, root, next, Both(map[], map[], ctx, sh, [], [], []));
  }
}
