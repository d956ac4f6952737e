/** Hoisting: every definition moves to a chain around the program, innermost definitions first. */
module Hoist {
  import opened Collections
  import opened CpsIr
  import opened Definitions
  import opened Typing
  import opened Machine
  import FlatMachine

  // ---- The pass -----------------------------------------------------------------------------------

  /** What is left of a tree: a definition gives way to what follows it. */
  function Walked(e: Expr): Expr
    decreases e
  {
    match e
    case LetVal(id, name, val, cont) => LetVal(id, name, val, WalkedCont(cont))
    case LetFn(id, _, _, _, _, cont) =>
      if cont.Inline? then Walked(cont.body) else App(id, CallVal(Val(id, ContRef(cont.target))), Nil)
    case App(id, func, args) => App(id, func, WalkedArgs(args))
    case If(id, cond, thn, els) => If(id, cond, Walked(thn), Walked(els))
    case LetRec(id, slots, body) => LetRec(id, slots, Walked(body))
    case Set(id, name, val, cont) => Set(id, name, val, WalkedCont(cont))
    case Closure(id, funcref, captures, cont) => Closure(id, funcref, captures, WalkedCont(cont))
    case LetCaps(id, caps, binds, cont) => LetCaps(id, caps, binds, WalkedCont(cont))
  }

  function WalkedCont(c: Cont): Cont
    decreases c
  {
    match c
    case ContTo(_) => c
    case Inline(args, body) => Inline(args, Walked(body))
  }

  function WalkedArgs(args: List<Arg>): List<Arg>
    decreases args
  {
    match args
    case Nil => Nil
    case Cons(a, rest) => Cons(WalkedArg(a), WalkedArgs(rest))
  }

  function WalkedArg(a: Arg): Arg
    decreases a
  {
    match a
    case ArgCont(c) => ArgCont(WalkedCont(c))
    case ArgExpr(e) => ArgExpr(Walked(e))
    case _ => a
  }

  /** The definitions with their bodies walked, in the order the pass collects them. */
  function Hoisted(ds: seq<Definition>): (hs: seq<Definition>)
    ensures |hs| == |ds|
    ensures forall i :: 0 <= i < |ds| ==> hs[i] == ds[i].(body := Walked(ds[i].body))
  {
    seq(|ds|, i requires 0 <= i < |ds| => ds[i].(body := Walked(ds[i].body)))
  }

  function Define(h: Definition, rest: Expr): Expr {
    LetFn(h.id, h.name, h.params, h.fnKind, h.body, Inline([], rest))
  }

  function Chain(hs: seq<Definition>, root: Expr): Expr {
    if hs == [] then root else Define(hs[0], Chain(hs[1..], root))
  }

  function HoistProgram(root: Expr): Expr {
    Chain(Hoisted(DefsOf(root)), Walked(root))
  }

  lemma HoistedConcat(a: seq<Definition>, b: seq<Definition>)
    ensures Hoisted(a + b) == Hoisted(a) + Hoisted(b)
  {
  }

  /** The pass as it runs: one walk over the tree that fills a buffer. */
  class Hoister {
    var hoisted: seq<Definition>

    constructor ()
      ensures hoisted == []
    {
      hoisted := [];
    }

    method WalkExpr(e: Expr) returns (r: Expr)
      modifies this
      ensures r == Walked(e)
      ensures hoisted == old(hoisted) + Hoisted(DefsOf(e))
      decreases e, 1
    {
      match e
      case LetVal(id, name, val, cont) =>
        var cont' := WalkCont(cont);
        r := LetVal(id, name, val, cont');
      case LetFn(_, _, _, _, _, _) => r := WalkFn(e);
      case App(id, func, args) =>
        var args' := WalkArgs(args);
        r := App(id, func, args');
      case If(id, cond, thn, els) =>
        var thn' := WalkExpr(thn);
        var els' := WalkExpr(els);
        HoistedConcat(DefsOf(thn), DefsOf(els));
        r := If(id, cond, thn', els');
      case LetRec(id, slots, body) =>
        var body' := WalkExpr(body);
        r := LetRec(id, slots, body');
      case Set(id, name, val, cont) =>
        var cont' := WalkCont(cont);
        r := Set(id, name, val, cont');
      case Closure(id, funcref, captures, cont) =>
        var cont' := WalkCont(cont);
        r := Closure(id, funcref, captures, cont');
      case LetCaps(id, caps, binds, cont) =>
        var cont' := WalkCont(cont);
        r := LetCaps(id, caps, binds, cont');
    }

    /** Collects the definition after those inside its body; what follows takes its place. */
    method WalkFn(e: Expr) returns (r: Expr)
      requires e.LetFn?
      modifies this
      ensures r == Walked(e)
      ensures hoisted == old(hoisted) + Hoisted(DefsOf(e))
      decreases e, 0
    {
      var LetFn(id, name, params, fnKind, body, cont) := e;
      var body' := WalkExpr(body);
      var h := Definition(id, name, params, fnKind, body');
      hoisted := hoisted + [h];
      ghost var d := Definition(id, name, params, fnKind, body);
      HoistedConcat(DefsOf(body), [d]);
      HoistedConcat(DefsOf(body) + [d], DefsOfCont(cont));
      assert Hoisted([d]) == [h];
      match cont {
        case Inline(_, rest) =>
          r := WalkExpr(rest);
        case ContTo(k) =>
          r := App(id, CallVal(Val(id, ContRef(k))), Nil);
      }
    }

    method WalkCont(c: Cont) returns (r: Cont)
      modifies this
      ensures r == WalkedCont(c)
      ensures hoisted == old(hoisted) + Hoisted(DefsOfCont(c))
      decreases c
    {
      match c
      case ContTo(_) => r := c;
      case Inline(args, body) =>
        var body' := WalkExpr(body);
        r := Inline(args, body');
    }

    method WalkArgs(args: List<Arg>) returns (r: List<Arg>)
      modifies this
      ensures r == WalkedArgs(args)
      ensures hoisted == old(hoisted) + Hoisted(DefsOfArgs(args))
      decreases args
    {
      match args
      case Nil => r := Nil;
      case Cons(a, rest) =>
        var a' := a;
        match a {
          case ArgCont(c) =>
            var c' := WalkCont(c);
            a' := ArgCont(c');
          case ArgExpr(e) =>
            var e' := WalkExpr(e);
            a' := ArgExpr(e');
          case _ =>
        }
        var rest' := WalkArgs(rest);
        HoistedConcat(DefsOfArg(a), DefsOfArgs(rest));
        r := Cons(a', rest');
    }
  }

  /** Builds the chain from the inside out. */
  method WrapWithHoisted(root: Expr, hoisted: seq<Definition>) returns (acc: Expr)
    ensures acc == Chain(hoisted, root)
  {
    acc := root;
    var i := |hoisted|;
    while i > 0
      invariant 0 <= i <= |hoisted|
      invariant acc == Chain(hoisted[i..], root)
    {
      i := i - 1;
      acc := Define(hoisted[i], acc);
      assert hoisted[i..][1..] == hoisted[i + 1..];
    }
    assert hoisted[0..] == hoisted;
  }

  method HoistAll(root: Expr) returns (r: Expr)
    ensures r == HoistProgram(root)
  {
    var h := new Hoister();
    var newRoot := h.WalkExpr(root);
    assert h.hoisted == Hoisted(DefsOf(root));
    r := WrapWithHoisted(newRoot, h.hoisted);
  }

  // ---- Shape --------------------------------------------------------------------------------------

  lemma {:induction false} WalkedHasNone(e: Expr)
    ensures DefsOf(Walked(e)) == []
    decreases e
  {
    match e
    case LetVal(_, _, _, cont) => WalkedHasNoneCont(cont);
    case LetFn(_, _, _, _, _, cont) =>
      if cont.Inline? {
        WalkedHasNone(cont.body);
      } else {
        assert DefsOfArgs(Nil) == [];
      }
    case App(_, _, args) => WalkedHasNoneArgs(args);
    case If(_, _, thn, els) =>
      WalkedHasNone(thn);
      WalkedHasNone(els);
    case LetRec(_, _, body) => WalkedHasNone(body);
    case Set(_, _, _, cont) => WalkedHasNoneCont(cont);
    case Closure(_, _, _, cont) => WalkedHasNoneCont(cont);
    case LetCaps(_, _, _, cont) => WalkedHasNoneCont(cont);
  }

  lemma {:induction false} WalkedHasNoneCont(c: Cont)
    ensures DefsOfCont(WalkedCont(c)) == []
    decreases c
  {
    if c.Inline? {
      WalkedHasNone(c.body);
    }
  }

  lemma {:induction false} WalkedHasNoneArgs(args: List<Arg>)
    ensures DefsOfArgs(WalkedArgs(args)) == []
    decreases args
  {
    match args
    case Nil =>
    case Cons(a, rest) =>
      WalkedHasNoneArgs(rest);
      match a
      case ArgCont(c) => WalkedHasNoneCont(c);
      case ArgExpr(e) => WalkedHasNone(e);
      case _ =>
  }

  lemma {:induction false} ChainDefinitions(hs: seq<Definition>, root: Expr)
    requires forall h :: h in hs ==> DefsOf(h.body) == []
    ensures DefsOf(Chain(hs, root)) == hs + DefsOf(root)
    decreases hs
  {
    if hs != [] {
      ChainDefinitions(hs[1..], root);
      var rest := Chain(hs[1..], root);
      assert hs[0] in hs;
      assert DefsOfCont(Inline([], rest)) == DefsOf(rest);
      assert DefsOf(Define(hs[0], rest)) == [] + [hs[0]] + DefsOf(rest);
      assert hs == [hs[0]] + hs[1..];
    }
  }

  /** The output is a chain of definitions around a root. Neither the root nor any definition's body
      defines anything itself, and the chain holds each definition of the input exactly once, in
      post-order, with its name, parameters and kind. */
  lemma HoistedShape(root: Expr)
    ensures DefsOf(HoistProgram(root)) == Hoisted(DefsOf(root))
    ensures DefsOf(Walked(root)) == []
    ensures forall h :: h in Hoisted(DefsOf(root)) ==> DefsOf(h.body) == []
  {
    var ds := DefsOf(root);
    var hs := Hoisted(ds);
    forall h | h in hs
      ensures DefsOf(h.body) == []
    {
      var i :| 0 <= i < |hs| && hs[i] == h;
      WalkedHasNone(ds[i].body);
    }
    WalkedHasNone(root);
    ChainDefinitions(hs, Walked(root));
    assert hs + [] == hs;
  }

  // ---- Meaning ------------------------------------------------------------------------------------

  /** No definition hands its closure to a named continuation; conversion leaves none that does. */
  predicate DefsInline(e: Expr)
    decreases e
  {
    match e
    case LetVal(_, _, _, cont) => DefsInlineCont(cont)
    case LetFn(_, _, _, _, body, cont) => cont.Inline? && DefsInline(body) && DefsInlineCont(cont)
    case App(_, _, args) => DefsInlineArgs(args)
    case If(_, _, thn, els) => DefsInline(thn) && DefsInline(els)
    case LetRec(_, _, body) => DefsInline(body)
    case Set(_, _, _, cont) => DefsInlineCont(cont)
    case Closure(_, _, _, cont) => DefsInlineCont(cont)
    case LetCaps(_, _, _, cont) => DefsInlineCont(cont)
  }

  predicate DefsInlineCont(c: Cont)
    decreases c
  {
    c.Inline? ==> DefsInline(c.body)
  }

  predicate DefsInlineArgs(args: List<Arg>)
    decreases args
  {
    match args
    case Nil => true
    case Cons(ArgCont(c), rest) => DefsInlineCont(c) && DefsInlineArgs(rest)
    case Cons(ArgExpr(e), rest) => DefsInline(e) && DefsInlineArgs(rest)
    case Cons(_, rest) => DefsInlineArgs(rest)
  }

  ghost predicate WalkedTable(table: FlatMachine.FnTable, table': FlatMachine.FnTable) {
    && table.Keys == table'.Keys
    && forall x :: x in table ==>
         table'[x] == FnDef(table[x].params, Walked(table[x].body)) && DefsInline(table[x].body)
  }

  lemma {:induction false} WalkSame(rt: Runtime, t: FlatMachine.FnTable, t': FlatMachine.FnTable, fuel: nat, e: Expr,
                                    env: Env, ctx: Value, sh: Shared, fns: seq<FlatMachine.FlatFn>)
    requires WalkedTable(t, t') && DefsInline(e)
    ensures FlatMachine.Eval(rt, t, fuel, e, env, ctx, sh, fns) == FlatMachine.Eval(rt, t', fuel, Walked(e), env, ctx, sh, fns)
    decreases fuel, 1, e, 2
  {
    match e
    case LetVal(_, _, _, _) => LetValSame(rt, t, t', fuel, e, env, ctx, sh, fns);
    case LetFn(_, _, _, _, _, cont) => WalkSame(rt, t, t', fuel, cont.body, env, ctx, sh, fns);
    case App(_, _, _) => AppSame(rt, t, t', fuel, e, env, ctx, sh, fns);
    case If(_, cond, thn, els) =>
      WalkSame(rt, t, t', fuel, thn, env, ctx, sh, fns);
      WalkSame(rt, t, t', fuel, els, env, ctx, sh, fns);
    case LetRec(_, slots, body) =>
      WalkSame(rt, t, t', fuel, body, env + SlotEntries(slots, |sh.cells|), ctx, Declare(slots, sh), fns);
    case Set(_, _, _, _) => SetSame(rt, t, t', fuel, e, env, ctx, sh, fns);
    case Closure(_, _, _, _) => ClosureSame(rt, t, t', fuel, e, env, ctx, sh, fns);
    case LetCaps(_, _, _, _) => LetCapsSame(rt, t, t', fuel, e, env, ctx, sh, fns);
  }

  lemma {:induction false} LetValSame(rt: Runtime, t: FlatMachine.FnTable, t': FlatMachine.FnTable, fuel: nat, e: Expr,
                                      env: Env, ctx: Value, sh: Shared, fns: seq<FlatMachine.FlatFn>)
    requires e.LetVal? && WalkedTable(t, t') && DefsInline(e)
    ensures FlatMachine.Eval(rt, t, fuel, e, env, ctx, sh, fns) == FlatMachine.Eval(rt, t', fuel, Walked(e), env, ctx, sh, fns)
    decreases fuel, 1, e, 0
  {
    var LetVal(_, name, val, cont) := e;
    var seen := Sees(rt.slots, env, sh);
    var v := ReadVal(val, seen, sh);
    if v.Some? {
      if name.id !in rt.slots {
        CallSame(rt, t, t', fuel, cont, ContArgs(cont, [v.value], ctx), env[name.id := Holds(v.value)], ctx, sh, fns);
      } else {
        var sh' := FillSlot(name.id, v.value, seen, sh);
        if sh'.Some? {
          CallSame(rt, t, t', fuel, cont, ContArgs(cont, [v.value], ctx), env, ctx, sh'.value, fns);
        }
      }
    }
  }

  lemma {:induction false} SetSame(rt: Runtime, t: FlatMachine.FnTable, t': FlatMachine.FnTable, fuel: nat, e: Expr,
                                   env: Env, ctx: Value, sh: Shared, fns: seq<FlatMachine.FlatFn>)
    requires e.Set? && WalkedTable(t, t') && DefsInline(e)
    ensures FlatMachine.Eval(rt, t, fuel, e, env, ctx, sh, fns) == FlatMachine.Eval(rt, t', fuel, Walked(e), env, ctx, sh, fns)
    decreases fuel, 1, e, 0
  {
    var Set(_, name, val, cont) := e;
    var seen := Sees(rt.slots, env, sh);
    var v := ReadVal(val, seen, sh);
    if v.Some? {
      var sh' := FillSlot(name.id, v.value, seen, sh);
      if sh'.Some? {
        CallSame(rt, t, t', fuel, cont, ContArgs(cont, [], ctx), env, ctx, sh'.value, fns);
      }
    }
  }

  lemma {:induction false} ClosureSame(rt: Runtime, t: FlatMachine.FnTable, t': FlatMachine.FnTable, fuel: nat, e: Expr,
                                       env: Env, ctx: Value, sh: Shared, fns: seq<FlatMachine.FlatFn>)
    requires e.Closure? && WalkedTable(t, t') && DefsInline(e)
    ensures FlatMachine.Eval(rt, t, fuel, e, env, ctx, sh, fns) == FlatMachine.Eval(rt, t', fuel, Walked(e), env, ctx, sh, fns)
    decreases fuel, 1, e, 0
  {
    var Closure(_, funcref, captures, cont) := e;
    var es := FlatMachine.CaptureAll(captures, Sees(rt.slots, env, sh));
    if funcref.kind.Ref? && es.Some? {
      CallSame(rt, t, t', fuel, cont, ContArgs(cont, [FnAt(|fns|)], ctx), env, ctx, sh,
               fns + [FlatMachine.FlatFn(funcref.kind.target, es.value)]);
    }
  }

  lemma {:induction false} LetCapsSame(rt: Runtime, t: FlatMachine.FnTable, t': FlatMachine.FnTable, fuel: nat, e: Expr,
                                       env: Env, ctx: Value, sh: Shared, fns: seq<FlatMachine.FlatFn>)
    requires e.LetCaps? && WalkedTable(t, t') && DefsInline(e)
    ensures FlatMachine.Eval(rt, t, fuel, e, env, ctx, sh, fns) == FlatMachine.Eval(rt, t', fuel, Walked(e), env, ctx, sh, fns)
    decreases fuel, 1, e, 0
  {
    var LetCaps(_, caps, binds, cont) := e;
    if caps.kind.Ref? {
      var x := caps.kind.target;
      if x in env && env[x].Record? && FlatMachine.Fits(binds, env[x].entries) {
        CallSame(rt, t, t', fuel, cont, ContArgs(cont, [], ctx), env + FlatMachine.Unpack(binds, env[x].entries), ctx, sh, fns);
      }
    }
  }

  lemma {:induction false} CallSame(rt: Runtime, t: FlatMachine.FnTable, t': FlatMachine.FnTable, fuel: nat, k: Cont,
                                    args: seq<Value>, env: Env, ctx: Value, sh: Shared, fns: seq<FlatMachine.FlatFn>)
    requires WalkedTable(t, t') && DefsInlineCont(k)
    ensures FlatMachine.RunCall(rt, t, fuel, k, args, env, ctx, sh, fns)
            == FlatMachine.RunCall(rt, t', fuel, WalkedCont(k), args, env, ctx, sh, fns)
    decreases fuel, 1, k
  {
    match k
    case ContTo(x) =>
      match ReadId(x, Sees(rt.slots, env, sh), sh) {
        case None =>
        case Some(f) => InvokeSame(rt, t, t', fuel, f, args, sh, fns);
      }
    case Inline(binds, body) =>
      match BindParams(Names(binds), args) {
        case None =>
        case Some(m) => WalkSame(rt, t, t', fuel, body, env + m, ctx, sh, fns);
      }
  }

  lemma {:induction false} InvokeSame(rt: Runtime, t: FlatMachine.FnTable, t': FlatMachine.FnTable, fuel: nat, f: Value,
                                      args: seq<Value>, sh: Shared, fns: seq<FlatMachine.FlatFn>)
    requires WalkedTable(t, t')
    ensures FlatMachine.Invoke(rt, t, fuel, f, args, sh, fns) == FlatMachine.Invoke(rt, t', fuel, f, args, sh, fns)
    decreases fuel, 0
  {
    if fuel > 0 && f.FnAt? && f.addr < |fns| && fns[f.addr].code in t {
      var fn := fns[f.addr];
      var def := t[fn.code];
      assert fn.code in t' && t'[fn.code] == FnDef(def.params, Walked(def.body));
      if def.params != [] && def.params[0].bind.kind == Caps {
        var m := BindParams(def.params[1..], args);
        if m.Some? {
          WalkSame(rt, t, t', fuel - 1, def.body, m.value[def.params[0].bind.id := Record(fn.captures)], CtxOf(args), sh, fns);
        }
      }
    }
  }

  lemma {:induction false} WalkedArgsSame(args: List<Arg>, env: Env, sh: Shared)
    ensures FlatMachine.EvalArgs(args, env, sh) == FlatMachine.EvalArgs(WalkedArgs(args), env, sh)
  {
    match args
    case Nil =>
    case Cons(a, rest) =>
      WalkedArgsSame(rest, env, sh);
      assert FlatMachine.EvalArg(a, env, sh) == FlatMachine.EvalArg(WalkedArg(a), env, sh);
      assert WalkedArgs(args) == Cons(WalkedArg(a), WalkedArgs(rest));
  }

  lemma WalkedPubKey(args: List<Arg>)
    requires DefsInlineArgs(args)
    ensures match PubKey(args)
            case None => PubKey(WalkedArgs(args)) == None
            case Some((x, k)) => PubKey(WalkedArgs(args)) == Some((x, WalkedCont(k))) && DefsInlineCont(k)
  {
    if args.Cons? {
      assert WalkedArgs(args) == Cons(WalkedArg(args.head), WalkedArgs(args.tail));
      if args.tail.Cons? {
        var last := args.tail.tail;
        assert WalkedArgs(args.tail) == Cons(WalkedArg(args.tail.head), WalkedArgs(last));
        if last.Cons? {
          assert WalkedArgs(last) == Cons(WalkedArg(last.head), WalkedArgs(last.tail));
          assert PubKey(args).Some? ==> DefsInlineArgs(last);
        }
      }
    }
  }

  lemma {:induction false} AppSame(rt: Runtime, t: FlatMachine.FnTable, t': FlatMachine.FnTable, fuel: nat, e: Expr,
                                   env: Env, ctx: Value, sh: Shared, fns: seq<FlatMachine.FlatFn>)
    requires e.App? && WalkedTable(t, t') && DefsInline(e)
    ensures FlatMachine.Eval(rt, t, fuel, e, env, ctx, sh, fns) == FlatMachine.Eval(rt, t', fuel, Walked(e), env, ctx, sh, fns)
    decreases fuel, 1, e, 1
  {
    var App(id, func, args) := e;
    var seen := Sees(rt.slots, env, sh);
    WalkedArgsSame(args, seen, sh);
    var vals := FlatMachine.EvalArgs(args, seen, sh);
    match func
    case CallBuiltIn(op) =>
      match op {
        case Pub => PubSame(rt, t, t', fuel, e, env, ctx, sh, fns);
        case FinkModule =>
          if args.Cons? && args.head.ArgCont? && args.tail == Nil {
            CallSame(rt, t, t', fuel, args.head.cont, [ctx, HostDone], env, ctx, sh, fns);
          }
        case Operator(_) =>
          if vals.Some? {
            var sh' := Logged(op, vals.value, sh);
            var next := rt.answer(sh'.log);
            if next.TailCall? {
              InvokeSame(rt, t, t', fuel, next.callee, next.args, sh', fns);
            }
          }
        case _ =>
      }
    case CallVal(callee) =>
      var f := ReadVal(callee, seen, sh);
      if f.Some? && vals.Some? {
        InvokeSame(rt, t, t', fuel, f.value, vals.value, sh, fns);
      }
  }

  lemma {:induction false} PubSame(rt: Runtime, t: FlatMachine.FnTable, t': FlatMachine.FnTable, fuel: nat, e: Expr,
                                   env: Env, ctx: Value, sh: Shared, fns: seq<FlatMachine.FlatFn>)
    requires e.App? && e.func == CallBuiltIn(Pub) && WalkedTable(t, t') && DefsInline(e)
    ensures FlatMachine.Eval(rt, t, fuel, e, env, ctx, sh, fns) == FlatMachine.Eval(rt, t', fuel, Walked(e), env, ctx, sh, fns)
    decreases fuel, 1, e, 0
  {
    WalkedPubKey(e.args);
    var key := PubKey(e.args);
    if key.Some? {
      var sh' := ExportSlot(key.value.0, sh);
      if sh'.Some? {
        CallSame(rt, t, t', fuel, key.value.1, [ctx], env, ctx, sh'.value, fns);
      }
    }
  }

  /** A chain of definitions runs as its root does. */
  lemma {:induction false} ChainRuns(rt: Runtime, table: FlatMachine.FnTable, fuel: nat, hs: seq<Definition>, root: Expr,
                                     env: Env, ctx: Value, sh: Shared)
    ensures FlatMachine.Eval(rt, table, fuel, Chain(hs, root), env, ctx, sh, [])
            == FlatMachine.Eval(rt, table, fuel, root, env, ctx, sh, [])
    decreases hs
  {
    if hs != [] {
      ChainRuns(rt, table, fuel, hs[1..], root, env, ctx, sh);
    }
  }

  lemma {:induction false} InlineDefs(e: Expr)
    requires DefsInline(e)
    ensures forall d :: d in DefsOf(e) ==> DefsInline(d.body)
    decreases e
  {
    match e
    case LetVal(_, _, _, cont) => InlineDefsCont(cont);
    case LetFn(_, _, _, _, body, cont) =>
      InlineDefs(body);
      InlineDefsCont(cont);
    case App(_, _, args) => InlineDefsArgs(args);
    case If(_, _, thn, els) =>
      InlineDefs(thn);
      InlineDefs(els);
    case LetRec(_, _, body) => InlineDefs(body);
    case Set(_, _, _, cont) => InlineDefsCont(cont);
    case Closure(_, _, _, cont) => InlineDefsCont(cont);
    case LetCaps(_, _, _, cont) => InlineDefsCont(cont);
  }

  lemma {:induction false} InlineDefsCont(c: Cont)
    requires DefsInlineCont(c)
    ensures forall d :: d in DefsOfCont(c) ==> DefsInline(d.body)
    decreases c
  {
    if c.Inline? {
      InlineDefs(c.body);
    }
  }

  lemma {:induction false} InlineDefsArgs(args: List<Arg>)
    requires DefsInlineArgs(args)
    ensures forall d :: d in DefsOfArgs(args) ==> DefsInline(d.body)
    decreases args
  {
    match args
    case Nil =>
    case Cons(ArgCont(c), rest) =>
      InlineDefsCont(c);
      InlineDefsArgs(rest);
    case Cons(ArgExpr(e), rest) =>
      InlineDefs(e);
      InlineDefsArgs(rest);
    case Cons(_, rest) => InlineDefsArgs(rest);
  }

  lemma {:induction false} HoistedTable(ds: seq<Definition>)
    requires forall d :: d in ds ==> DefsInline(d.body)
    ensures WalkedTable(TableFrom(ds), TableFrom(Hoisted(ds)))
    decreases ds
  {
    if ds != [] {
      assert Hoisted(ds)[1..] == Hoisted(ds[1..]);
      assert ds[0] in ds && forall d :: d in ds[1..] ==> d in ds;
      HoistedTable(ds[1..]);
    }
  }

  /** For every runtime, context and amount of fuel, the hoisted program ends like the program it
      came from: same outcome, same answers, same slot cells, same exports, same operator calls. */
  lemma HoistPreservesMeaning(rt: Runtime, fuel: nat, root: Expr, ctx: Value, sh: Shared)
    requires DefsInline(root)
    ensures FlatMeaning(rt, fuel, HoistProgram(root), ctx, sh) == FlatMeaning(rt, fuel, root, ctx, sh)
  {
    hide FlatMachine.Eval, Walked, DefsOf, DefsInline;
    var ds := DefsOf(root);
    HoistedShape(root);
    InlineDefs(root);
    HoistedTable(ds);
    WalkSame(rt, TableFrom(ds), TableFrom(Hoisted(ds)), fuel, root, map[], ctx, sh, []);
    ChainRuns(rt, TableFrom(Hoisted(ds)), fuel, Hoisted(ds), Walked(root), map[], ctx, sh);
  }

  // ---- Scoping and layouts ------------------------------------------------------------------------

  lemma {:induction false} TypedInline(e: Expr, codes: Codes, sc: Sorts, rules: Rules)
    requires Typed(e, codes, sc, rules)
    ensures DefsInline(e)
    decreases e, 0
  {
    match e
    case LetVal(_, name, _, cont) => TypedInlineCont(cont, codes, sc[name.id := LetSort(name.id, rules)], rules);
    case LetFn(_, name, params, _, body, cont) =>
      TypedFnInline(params, body, codes, rules);
      TypedInline(cont.body, codes[name.id := LayoutOf(body)], sc, rules);
    case App(_, func, args) => TypedInlineArgs(args, codes, sc, rules, func == CallBuiltIn(Pub), 0);
    case If(_, _, thn, els) =>
      TypedInline(thn, codes, sc, rules);
      TypedInline(els, codes, sc, rules);
    case LetRec(_, slots, body) => TypedInline(body, codes, sc + Cells(BindIds(slots)), rules);
    case Set(_, _, _, cont) => TypedInlineCont(cont, codes, sc, rules);
    case Closure(_, _, _, cont) => TypedInlineCont(cont, codes, sc, rules);
  }

  lemma {:induction false} TypedFnInline(params: seq<Param>, body: Expr, codes: Codes, rules: Rules)
    requires TypedFn(params, body, codes, rules)
    ensures DefsInline(body)
    decreases body, 1
  {
    var own := Values(ParamIds(params[1..]));
    if body.LetCaps? {
      TypedInline(body.cont.body, codes, own + LocalSorts(body.binds), rules);
      assert DefsInline(body) == DefsInlineCont(body.cont);
    } else {
      TypedInline(body, codes, own, rules);
    }
  }

  lemma {:induction false} TypedInlineCont(c: Cont, codes: Codes, sc: Sorts, rules: Rules)
    requires TypedCont(c, codes, sc, rules)
    ensures DefsInlineCont(c)
    decreases c
  {
    if c.Inline? {
      TypedInline(c.body, codes, sc + Values(BindIds(c.args)), rules);
    }
  }

  lemma {:induction false} TypedInlineArgs(args: List<Arg>, codes: Codes, sc: Sorts, rules: Rules, isPub: bool, index: nat)
    requires TypedArgs(args, codes, sc, rules, isPub, index)
    ensures DefsInlineArgs(args)
    decreases args
  {
    match args
    case Nil =>
    case Cons(a, rest) =>
      TypedInlineArgs(rest, codes, sc, rules, isPub, index + 1);
      match a
      case ArgCont(c) => TypedInlineCont(c, codes, sc, rules);
      case ArgExpr(e) => TypedInline(e, codes, sc, rules);
      case _ =>
  }

  function CodesOf(hs: seq<Definition>): Codes {
    if hs == [] then map[] else map[hs[0].name.id := LayoutOf(hs[0].body)] + CodesOf(hs[1..])
  }

  predicate ChainTyped(hs: seq<Definition>, codes: Codes, rules: Rules) {
    hs == []
    || (&& TypedFn(hs[0].params, hs[0].body, codes, rules)
        && ChainTyped(hs[1..], codes[hs[0].name.id := LayoutOf(hs[0].body)], rules))
  }

  ghost predicate Extends(codes: Codes, more: Codes) {
    forall x :: x in codes ==> x in more && more[x] == codes[x]
  }

  /** Names of definitions that are new, and distinct. */
  ghost predicate NewNames(ds: seq<Definition>, codes: Codes) {
    Distinct(ds) && forall d :: d in ds ==> d.name.id !in codes
  }

  /** The codes known after `acc` once the definitions `ds` are hoisted. */
  function After(acc: Codes, ds: seq<Definition>): Codes {
    acc + CodesOf(Hoisted(ds))
  }

  function NamesOf(ds: seq<Definition>): set<CpsId> {
    set d | d in ds :: d.name.id
  }

  lemma {:induction false} HoistedNames(ds: seq<Definition>)
    ensures CodesOf(Hoisted(ds)).Keys == NamesOf(ds)
    decreases ds
  {
    if ds != [] {
      assert Hoisted(ds)[1..] == Hoisted(ds[1..]);
      HoistedNames(ds[1..]);
      assert ds == [ds[0]] + ds[1..];
    }
  }

  lemma AddStep(codes: Codes, x: CpsId, layout: Layout, more: Codes)
    ensures codes + (map[x := layout] + more) == codes[x := layout] + more
  {
  }

  lemma {:induction false} ChainTypedConcat(a: seq<Definition>, b: seq<Definition>, codes: Codes, rules: Rules)
    requires ChainTyped(a, codes, rules) && ChainTyped(b, codes + CodesOf(a), rules)
    ensures ChainTyped(a + b, codes, rules) && codes + CodesOf(a + b) == codes + CodesOf(a) + CodesOf(b)
    decreases a
  {
    hide TypedFn, LayoutOf;
    if a == [] {
      assert a + b == b && codes + CodesOf(a) == codes;
    } else {
      var x, layout := a[0].name.id, LayoutOf(a[0].body);
      assert (a + b)[1..] == a[1..] + b && (a + b)[0] == a[0];
      AddStep(codes, x, layout, CodesOf(a[1..]));
      AddStep(codes, x, layout, CodesOf(a[1..] + b));
      ChainTypedConcat(a[1..], b, codes[x := layout], rules);
    }
  }

  /** Hoisting one group of definitions after another; what was known stays known. */
  lemma AfterBoth(d1: seq<Definition>, d2: seq<Definition>, acc: Codes, rules: Rules)
    requires NewNames(d1 + d2, acc)
    requires ChainTyped(Hoisted(d1), acc, rules) && ChainTyped(Hoisted(d2), After(acc, d1), rules)
    ensures ChainTyped(Hoisted(d1 + d2), acc, rules) && After(acc, d1 + d2) == After(After(acc, d1), d2)
    ensures Extends(acc, After(acc, d1)) && Extends(After(acc, d1), After(acc, d1 + d2))
  {
    HoistedConcat(d1, d2);
    ChainTypedConcat(Hoisted(d1), Hoisted(d2), acc, rules);
    NewAfter(d1, d2, acc);
  }

  lemma DistinctParts(d1: seq<Definition>, d2: seq<Definition>)
    requires Distinct(d1 + d2)
    ensures Distinct(d1) && Distinct(d2) && NamesOf(d1) !! NamesOf(d2)
  {
    var all := d1 + d2;
    forall i, j | 0 <= i < j < |d1|
      ensures d1[i].name.id != d1[j].name.id
    {
      assert all[i] == d1[i] && all[j] == d1[j];
    }
    forall i, j | 0 <= i < j < |d2|
      ensures d2[i].name.id != d2[j].name.id
    {
      assert all[|d1| + i] == d2[i] && all[|d1| + j] == d2[j];
    }
    forall i, j | 0 <= i < |d1| && 0 <= j < |d2|
      ensures d1[i].name.id != d2[j].name.id
    {
      assert all[i] == d1[i] && all[|d1| + j] == d2[j];
    }
  }

  /** Later definitions are new to what earlier ones made known. */
  lemma NewAfter(d1: seq<Definition>, d2: seq<Definition>, acc: Codes)
    requires NewNames(d1 + d2, acc)
    ensures NewNames(d1, acc) && NewNames(d2, After(acc, d1))
    ensures Extends(acc, After(acc, d1)) && Extends(After(acc, d1), After(After(acc, d1), d2))
  {
    hide Distinct, CodesOf, Hoisted;
    DistinctParts(d1, d2);
    HoistedNames(d1);
    HoistedNames(d2);
  }

  /** More definitions do no harm. */
  lemma {:induction false} Weaken(e: Expr, codes: Codes, more: Codes, sc: Sorts, rules: Rules)
    requires Typed(e, codes, sc, rules) && Extends(codes, more)
    ensures Typed(e, more, sc, rules)
    decreases e, 0
  {
    match e
    case LetVal(_, name, _, cont) => WeakenCont(cont, codes, more, sc[name.id := LetSort(name.id, rules)], rules);
    case LetFn(_, name, params, _, body, cont) =>
      WeakenFn(params, body, codes, more, rules);
      Weaken(cont.body, codes[name.id := LayoutOf(body)], more[name.id := LayoutOf(body)], sc, rules);
    case App(_, func, args) => WeakenArgs(args, codes, more, sc, rules, func == CallBuiltIn(Pub), 0);
    case If(_, _, thn, els) =>
      Weaken(thn, codes, more, sc, rules);
      Weaken(els, codes, more, sc, rules);
    case LetRec(_, slots, body) => Weaken(body, codes, more, sc + Cells(BindIds(slots)), rules);
    case Set(_, _, _, cont) => WeakenCont(cont, codes, more, sc, rules);
    case Closure(_, _, _, cont) => WeakenCont(cont, codes, more, sc, rules);
  }

  lemma {:induction false} WeakenFn(params: seq<Param>, body: Expr, codes: Codes, more: Codes, rules: Rules)
    requires TypedFn(params, body, codes, rules) && Extends(codes, more)
    ensures TypedFn(params, body, more, rules)
    decreases body, 1
  {
    var own := Values(ParamIds(params[1..]));
    if body.LetCaps? {
      Weaken(body.cont.body, codes, more, own + LocalSorts(body.binds), rules);
    } else {
      Weaken(body, codes, more, own, rules);
    }
  }

  lemma {:induction false} WeakenCont(c: Cont, codes: Codes, more: Codes, sc: Sorts, rules: Rules)
    requires TypedCont(c, codes, sc, rules) && Extends(codes, more)
    ensures TypedCont(c, more, sc, rules)
    decreases c
  {
    if c.Inline? {
      Weaken(c.body, codes, more, sc + Values(BindIds(c.args)), rules);
    }
  }

  lemma {:induction false} WeakenArgs(args: List<Arg>, codes: Codes, more: Codes, sc: Sorts, rules: Rules, isPub: bool, index: nat)
    requires TypedArgs(args, codes, sc, rules, isPub, index) && Extends(codes, more)
    ensures TypedArgs(args, more, sc, rules, isPub, index)
    decreases args
  {
    match args
    case Nil =>
    case Cons(a, rest) =>
      WeakenArgs(rest, codes, more, sc, rules, isPub, index + 1);
      if !(isPub && index == 1 && a.ArgVal?) {
        WeakenArg(a, codes, more, sc, rules);
      }
  }

  lemma {:induction false} WeakenArg(a: Arg, codes: Codes, more: Codes, sc: Sorts, rules: Rules)
    requires TypedArg(a, codes, sc, rules) && Extends(codes, more)
    ensures TypedArg(a, more, sc, rules)
    decreases a
  {
    match a
    case ArgCont(c) => WeakenCont(c, codes, more, sc, rules);
    case ArgExpr(e) => Weaken(e, codes, more, sc, rules);
    case _ =>
  }

  lemma {:induction false} WalkedNoCaps(e: Expr, codes: Codes, sc: Sorts, rules: Rules)
    requires Typed(e, codes, sc, rules)
    ensures !Walked(e).LetCaps?
    decreases e
  {
    if e.LetFn? {
      WalkedNoCaps(e.cont.body, codes[e.name.id := LayoutOf(e.fnBody)], sc, rules);
    }
  }

  lemma {:induction false} WalkTyped(e: Expr, codes: Codes, sc: Sorts, acc: Codes, rules: Rules)
    requires Typed(e, codes, sc, rules) && Extends(codes, acc) && NewNames(DefsOf(e), acc)
    ensures ChainTyped(Hoisted(DefsOf(e)), acc, rules) && Typed(Walked(e), After(acc, DefsOf(e)), sc, rules)
    decreases e, 1
  {
    match e
    case LetVal(_, name, _, cont) =>
      WalkContTyped(cont, codes, sc[name.id := LetSort(name.id, rules)], acc, rules);
    case LetFn(_, _, _, _, _, _) => WalkDefinitionTyped(e, codes, sc, acc, rules);
    case App(_, func, args) => WalkArgsTyped(args, codes, sc, acc, rules, func == CallBuiltIn(Pub), 0);
    case If(_, _, thn, els) =>
      var d1, d2 := DefsOf(thn), DefsOf(els);
      NewAfter(d1, d2, acc);
      WalkTyped(thn, codes, sc, acc, rules);
      WalkTyped(els, codes, sc, After(acc, d1), rules);
      AfterBoth(d1, d2, acc, rules);
      Weaken(Walked(thn), After(acc, d1), After(acc, d1 + d2), sc, rules);
    case LetRec(_, slots, body) => WalkTyped(body, codes, sc + Cells(BindIds(slots)), acc, rules);
    case Set(_, _, _, cont) => WalkContTyped(cont, codes, sc, acc, rules);
    case Closure(_, funcref, _, cont) =>
      WalkContTyped(cont, codes, sc, acc, rules);
      KnownAfter(funcref.kind.target, codes, acc, DefsOfCont(cont));
  }

  lemma KnownAfter(x: CpsId, codes: Codes, acc: Codes, ds: seq<Definition>)
    requires x in codes && Extends(codes, acc) && NewNames(ds, acc)
    ensures x in After(acc, ds) && After(acc, ds)[x] == codes[x]
  {
    assert ds + [] == ds;
    NewAfter(ds, [], acc);
  }

  lemma {:induction false} WalkContTyped(c: Cont, codes: Codes, sc: Sorts, acc: Codes, rules: Rules)
    requires TypedCont(c, codes, sc, rules) && Extends(codes, acc) && NewNames(DefsOfCont(c), acc)
    ensures ChainTyped(Hoisted(DefsOfCont(c)), acc, rules)
    ensures TypedCont(WalkedCont(c), After(acc, DefsOfCont(c)), sc, rules)
    decreases c
  {
    if c.Inline? {
      WalkTyped(c.body, codes, sc + Values(BindIds(c.args)), acc, rules);
    }
  }

  lemma {:induction false} WalkArgsTyped(args: List<Arg>, codes: Codes, sc: Sorts, acc: Codes, rules: Rules, isPub: bool, index: nat)
    requires TypedArgs(args, codes, sc, rules, isPub, index) && Extends(codes, acc) && NewNames(DefsOfArgs(args), acc)
    ensures ChainTyped(Hoisted(DefsOfArgs(args)), acc, rules)
    ensures TypedArgs(WalkedArgs(args), After(acc, DefsOfArgs(args)), sc, rules, isPub, index)
    decreases args
  {
    hide ChainTyped, Extends, NewNames, Hoisted, After, TypedArg, TypedArgs;
    match args
    case Nil => NoArgsTyped(sc, acc, rules, isPub, index);
    case Cons(a, rest) =>
      var d1, d2 := DefsOfArg(a), DefsOfArgs(rest);
      TypedParts(a, rest, codes, sc, rules, isPub, index);
      NewAfter(d1, d2, acc);
      ExtendsBoth(codes, acc, After(acc, d1));
      WalkArgTyped(a, codes, sc, acc, rules, isPub && index == 1);
      WalkArgsTyped(rest, codes, sc, After(acc, d1), rules, isPub, index + 1);
      AfterBoth(d1, d2, acc, rules);
      assert WalkedArg(a).ArgVal? == a.ArgVal?;
      if !(isPub && index == 1 && a.ArgVal?) {
        WeakenArg(WalkedArg(a), After(acc, d1), After(acc, d1 + d2), sc, rules);
      }
      TypedParts(WalkedArg(a), WalkedArgs(rest), After(acc, d1 + d2), sc, rules, isPub, index);
  }

  lemma NoArgsTyped(sc: Sorts, acc: Codes, rules: Rules, isPub: bool, index: nat)
    ensures ChainTyped(Hoisted([]), acc, rules) && TypedArgs(Nil, After(acc, []), sc, rules, isPub, index)
  {
  }

  lemma TypedParts(a: Arg, rest: List<Arg>, codes: Codes, sc: Sorts, rules: Rules, isPub: bool, index: nat)
    ensures TypedArgs(Cons(a, rest), codes, sc, rules, isPub, index)
            <==> ((isPub && index == 1 && a.ArgVal?) || TypedArg(a, codes, sc, rules))
                 && TypedArgs(rest, codes, sc, rules, isPub, index + 1)
  {
  }

  lemma ExtendsBoth(a: Codes, b: Codes, c: Codes)
    requires Extends(a, b) && Extends(b, c)
    ensures Extends(a, c)
  {
  }

  lemma {:induction false} WalkArgTyped(a: Arg, codes: Codes, sc: Sorts, acc: Codes, rules: Rules, exempt: bool)
    requires (exempt && a.ArgVal?) || TypedArg(a, codes, sc, rules)
    requires Extends(codes, acc) && NewNames(DefsOfArg(a), acc)
    ensures ChainTyped(Hoisted(DefsOfArg(a)), acc, rules)
    ensures (exempt && a.ArgVal?) || TypedArg(WalkedArg(a), After(acc, DefsOfArg(a)), sc, rules)
    decreases a
  {
    match a
    case ArgCont(c) => WalkContTyped(c, codes, sc, acc, rules);
    case ArgExpr(e) => WalkTyped(e, codes, sc, acc, rules);
    case _ =>
  }

  lemma {:induction false} WalkFnTyped(params: seq<Param>, body: Expr, codes: Codes, acc: Codes, rules: Rules)
    requires TypedFn(params, body, codes, rules) && Extends(codes, acc) && NewNames(DefsOf(body), acc)
    ensures ChainTyped(Hoisted(DefsOf(body)), acc, rules)
    ensures TypedFn(params, Walked(body), After(acc, DefsOf(body)), rules) && LayoutOf(Walked(body)) == LayoutOf(body)
    decreases body, 2
  {
    var own := Values(ParamIds(params[1..]));
    if body.LetCaps? {
      assert DefsOf(body) == DefsOfCont(body.cont) == DefsOf(body.cont.body);
      WalkTyped(body.cont.body, codes, own + LocalSorts(body.binds), acc, rules);
    } else {
      WalkTyped(body, codes, own, acc, rules);
      WalkedNoCaps(body, codes, own, rules);
    }
  }

  lemma {:induction false} WalkDefinitionTyped(e: Expr, codes: Codes, sc: Sorts, acc: Codes, rules: Rules)
    requires e.LetFn? && Typed(e, codes, sc, rules) && Extends(codes, acc) && NewNames(DefsOf(e), acc)
    ensures ChainTyped(Hoisted(DefsOf(e)), acc, rules) && Typed(Walked(e), After(acc, DefsOf(e)), sc, rules)
    decreases e, 0
  {
    var LetFn(id, name, params, fnKind, body, cont) := e;
    var self := Definition(id, name, params, fnKind, body);
    var d1, d2 := DefsOf(body), DefsOf(cont.body);
    assert DefsOf(e) == d1 + [self] + d2;
    NewAfter(d1 + [self], d2, acc);
    NewAfter(d1, [self], acc);
    WalkFnTyped(params, body, codes, acc, rules);
    OneTyped(self, After(acc, d1), rules);
    AfterBoth(d1, [self], acc, rules);
    var acc2 := After(acc, d1 + [self]);
    assert acc2 == After(acc, d1)[name.id := LayoutOf(body)];
    WalkTyped(cont.body, codes[name.id := LayoutOf(body)], sc, acc2, rules);
    AfterBoth(d1 + [self], d2, acc, rules);
  }

  lemma OneTyped(d: Definition, codes: Codes, rules: Rules)
    requires TypedFn(d.params, Walked(d.body), codes, rules) && LayoutOf(Walked(d.body)) == LayoutOf(d.body)
    ensures ChainTyped(Hoisted([d]), codes, rules) && After(codes, [d]) == codes[d.name.id := LayoutOf(d.body)]
  {
    var h := d.(body := Walked(d.body));
    assert Hoisted([d]) == [h];
    assert [h][1..] == [];
    assert CodesOf([h]) == map[h.name.id := LayoutOf(h.body)];
  }

  lemma {:induction false} ChainTypedIs(hs: seq<Definition>, root: Expr, codes: Codes, rules: Rules)
    requires ChainTyped(hs, codes, rules) && Typed(root, codes + CodesOf(hs), map[], rules)
    ensures Typed(Chain(hs, root), codes, map[], rules)
    decreases hs
  {
    if hs == [] {
      assert codes + CodesOf(hs) == codes;
    } else {
      AddStep(codes, hs[0].name.id, LayoutOf(hs[0].body), CodesOf(hs[1..]));
      ChainTypedIs(hs[1..], root, codes[hs[0].name.id := LayoutOf(hs[0].body)], rules);
    }
  }

  /** Hoisting keeps a program well typed: bodies stay closed, capture lists still line up with the
      locals unpacked, and every closure names a definition strictly earlier in the chain. */
  lemma HoistKeepsTyping(root: Expr, rules: Rules)
    requires Typed(root, map[], map[], rules) && Distinct(DefsOf(root))
    ensures Typed(HoistProgram(root), map[], map[], rules)
  {
    WalkTyped(root, map[], map[], map[], rules);
    ChainTypedIs(Hoisted(DefsOf(root)), Walked(root), map[], rules);
  }

  /** A closure being made: the code it names and the locals its captures are for. */
  datatype Made = Made(code: CpsId, locals: Layout)

  /** The closures a body makes itself. */
  ghost function MadeIn(e: Expr): set<Made>
    decreases e
  {
    match e
    case LetVal(_, _, _, cont) => MadeInCont(cont)
    case LetFn(_, _, _, _, _, cont) => MadeInCont(cont)
    case App(_, _, args) => MadeInArgs(args)
    case If(_, _, thn, els) => MadeIn(thn) + MadeIn(els)
    case LetRec(_, _, body) => MadeIn(body)
    case Set(_, _, _, cont) => MadeInCont(cont)
    case Closure(_, funcref, captures, cont) =>
      (if funcref.kind.Ref? then {Made(funcref.kind.target, LayoutOfCaptures(captures))} else {}) + MadeInCont(cont)
    case LetCaps(_, _, _, cont) => MadeInCont(cont)
  }

  ghost function MadeInCont(c: Cont): set<Made>
    decreases c
  {
    if c.Inline? then MadeIn(c.body) else {}
  }

  ghost function MadeInArgs(args: List<Arg>): set<Made>
    decreases args
  {
    match args
    case Nil => {}
    case Cons(ArgCont(c), rest) => MadeInCont(c) + MadeInArgs(rest)
    case Cons(ArgExpr(e), rest) => MadeIn(e) + MadeInArgs(rest)
    case Cons(_, rest) => MadeInArgs(rest)
  }

  ghost predicate Known(made: set<Made>, codes: Codes) {
    forall m :: m in made ==> m.code in codes && codes[m.code] == m.locals
  }

  lemma {:induction false} MadeKnown(e: Expr, codes: Codes, sc: Sorts, rules: Rules)
    requires Typed(e, codes, sc, rules) && DefsOf(e) == []
    ensures Known(MadeIn(e), codes)
    decreases e
  {
    match e
    case LetVal(_, name, _, cont) => MadeKnownCont(cont, codes, sc[name.id := LetSort(name.id, rules)], rules);
    case App(_, func, args) => MadeKnownArgs(args, codes, sc, rules, func == CallBuiltIn(Pub), 0);
    case If(_, _, thn, els) =>
      MadeKnown(thn, codes, sc, rules);
      MadeKnown(els, codes, sc, rules);
    case LetRec(_, slots, body) => MadeKnown(body, codes, sc + Cells(BindIds(slots)), rules);
    case Set(_, _, _, cont) => MadeKnownCont(cont, codes, sc, rules);
    case Closure(_, _, _, cont) => MadeKnownCont(cont, codes, sc, rules);
  }

  lemma {:induction false} MadeKnownCont(c: Cont, codes: Codes, sc: Sorts, rules: Rules)
    requires TypedCont(c, codes, sc, rules) && DefsOfCont(c) == []
    ensures Known(MadeInCont(c), codes)
    decreases c
  {
    if c.Inline? {
      MadeKnown(c.body, codes, sc + Values(BindIds(c.args)), rules);
    }
  }

  lemma {:induction false} MadeKnownArgs(args: List<Arg>, codes: Codes, sc: Sorts, rules: Rules, isPub: bool, index: nat)
    requires TypedArgs(args, codes, sc, rules, isPub, index) && DefsOfArgs(args) == []
    ensures Known(MadeInArgs(args), codes)
    decreases args
  {
    match args
    case Nil =>
    case Cons(a, rest) =>
      assert DefsOfArg(a) == [];
      MadeKnownArgs(rest, codes, sc, rules, isPub, index + 1);
      match a
      case ArgCont(c) => MadeKnownCont(c, codes, sc, rules);
      case ArgExpr(e) => MadeKnown(e, codes, sc, rules);
      case _ =>
  }

  lemma {:induction false} ChainTypedAt(hs: seq<Definition>, codes: Codes, rules: Rules, i: nat)
    requires ChainTyped(hs, codes, rules) && i < |hs|
    ensures TypedFn(hs[i].params, hs[i].body, codes + CodesOf(hs[..i]), rules)
    decreases hs
  {
    if i == 0 {
      assert codes + CodesOf(hs[..0]) == codes;
    } else {
      var codes' := codes[hs[0].name.id := LayoutOf(hs[0].body)];
      ChainTypedAt(hs[1..], codes', rules, i - 1);
      assert hs[..i][1..] == hs[1..][..i - 1];
      AddStep(codes, hs[0].name.id, LayoutOf(hs[0].body), CodesOf(hs[..i][1..]));
    }
  }

  lemma {:induction false} CodesNamed(hs: seq<Definition>)
    ensures forall x :: x in CodesOf(hs) ==>
              exists j :: 0 <= j < |hs| && hs[j].name.id == x && LayoutOf(hs[j].body) == CodesOf(hs)[x]
  {
    if hs != [] {
      CodesNamed(hs[1..]);
      forall x | x in CodesOf(hs)
        ensures exists j :: 0 <= j < |hs| && hs[j].name.id == x && LayoutOf(hs[j].body) == CodesOf(hs)[x]
      {
        if x in CodesOf(hs[1..]) {
          var j :| 0 <= j < |hs[1..]| && hs[1..][j].name.id == x && LayoutOf(hs[1..][j].body) == CodesOf(hs[1..])[x];
          assert hs[j + 1] == hs[1..][j];
        } else {
          assert hs[0].name.id == x;
        }
      }
    }
  }

  /** What the body of the `i`th definition makes is named by definitions strictly before it, with the
      same locals in the same order and of the same kinds. */
  ghost predicate MadeBefore(made: set<Made>, hs: seq<Definition>, i: nat)
    requires i <= |hs|
  {
    forall m :: m in made ==> exists j :: 0 <= j < i && hs[j].name.id == m.code && LayoutOf(hs[j].body) == m.locals
  }

  lemma KnownMadeBefore(made: set<Made>, hs: seq<Definition>, i: nat)
    requires i <= |hs| && Known(made, CodesOf(hs[..i]))
    ensures MadeBefore(made, hs, i)
  {
    CodesNamed(hs[..i]);
    forall m | m in made
      ensures exists j :: 0 <= j < i && hs[j].name.id == m.code && LayoutOf(hs[j].body) == m.locals
    {
      var j :| 0 <= j < |hs[..i]| && hs[..i][j].name.id == m.code && LayoutOf(hs[..i][j].body) == CodesOf(hs[..i])[m.code];
      assert hs[j] == hs[..i][j];
    }
  }

  lemma FnMadeKnown(params: seq<Param>, body: Expr, codes: Codes, rules: Rules)
    requires TypedFn(params, body, codes, rules) && DefsOf(body) == []
    ensures Known(MadeIn(body), codes)
  {
    var own := Values(ParamIds(params[1..]));
    if body.LetCaps? {
      assert DefsOf(body) == DefsOfCont(body.cont) == DefsOf(body.cont.body);
      MadeKnown(body.cont.body, codes, own + LocalSorts(body.binds), rules);
      assert MadeIn(body) == MadeInCont(body.cont) == MadeIn(body.cont.body);
    } else {
      MadeKnown(body, codes, own, rules);
    }
  }

  /** In the chain, every closure names a definition strictly earlier, so none is used before it is
      in scope, and its captures are listed as that definition unpacks them. */
  lemma ClosuresNameEarlierCode(root: Expr, rules: Rules)
    requires Typed(root, map[], map[], rules) && Distinct(DefsOf(root))
    ensures var hs := Hoisted(DefsOf(root));
            && MadeBefore(MadeIn(Walked(root)), hs, |hs|)
            && forall i :: 0 <= i < |hs| ==> MadeBefore(MadeIn(hs[i].body), hs, i)
  {
    hide Typed, TypedFn, MadeIn, Walked, DefsOf, ChainTyped, CodesOf, MadeBefore, Known;
    var hs := Hoisted(DefsOf(root));
    WalkTyped(root, map[], map[], map[], rules);
    HoistedShape(root);
    assert hs[..|hs|] == hs && After(map[], DefsOf(root)) == CodesOf(hs);
    MadeKnown(Walked(root), CodesOf(hs), map[], rules);
    KnownMadeBefore(MadeIn(Walked(root)), hs, |hs|);
    forall i | 0 <= i < |hs|
      ensures MadeBefore(MadeIn(hs[i].body), hs, i)
    {
      ChainTypedAt(hs, map[], rules, i);
      var none: Codes := map[];
      assert none + CodesOf(hs[..i]) == CodesOf(hs[..i]);
      assert hs[i] in hs;
      FnMadeKnown(hs[i].params, hs[i].body, CodesOf(hs[..i]), rules);
      KnownMadeBefore(MadeIn(hs[i].body), hs, i);
    }
  }
}
