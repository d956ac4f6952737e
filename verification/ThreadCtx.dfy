/** Context threading: every function and every result continuation of a call takes the universe
    context first, and every call passes the innermost one on. */
module ThreadCtx {
  import opened Collections
  import opened CpsIr
  import opened FreeVars
  import Machine

  // ---- The pass -----------------------------------------------------------------------------------

  predicate IsModuleEntry(func: Callable) {
    func == CallBuiltIn(FinkModule)
  }

  function ThreadExpr(e: Expr, stack: CtxStack, next: nat): (r: (Expr, nat))
    ensures r.1 >= next
    decreases e
  {
    match e
    case LetVal(id, name, val, cont) =>
      var c := ThreadCont(cont, false, stack, next);
      (LetVal(id, name, val, c.0), c.1)
    case LetFn(id, name, params, fnKind, body, cont) =>
      var b := ThreadExpr(body, stack + [next], next + 1);
      var c := ThreadCont(cont, false, stack, b.1);
      (LetFn(id, name, [Name(BindNode(next, Ctx))] + params, fnKind, b.0, c.0), c.1)
    case App(id, func, args) =>
      if !IsModuleEntry(func) && stack != [] then
        var a := ThreadArgs(args, true, stack, next + 1);
        (App(id, func, Cons(ArgVal(Val(next, Ref(stack[|stack| - 1]))), a.0)), a.1)
      else
        var a := ThreadArgs(args, !IsModuleEntry(func), stack, next);
        (App(id, func, a.0), a.1)
    case If(id, cond, thn, els) =>
      var t := ThreadExpr(thn, stack, next);
      var f := ThreadExpr(els, stack, t.1);
      (If(id, cond, t.0, f.0), f.1)
    case LetRec(id, slots, body) =>
      var b := ThreadExpr(body, stack, next);
      (LetRec(id, slots, b.0), b.1)
    case Set(id, name, val, cont) =>
      var c := ThreadCont(cont, false, stack, next);
      (Set(id, name, val, c.0), c.1)
    case Closure(id, funcref, captures, cont) =>
      var c := ThreadCont(cont, false, stack, next);
      (Closure(id, funcref, captures, c.0), c.1)
    case LetCaps(id, caps, binds, cont) =>
      var c := ThreadCont(cont, false, stack, next);
      (LetCaps(id, caps, binds, c.0), c.1)
  }

  function ThreadCont(c: Cont, prepend: bool, stack: CtxStack, next: nat): (r: (Cont, nat))
    ensures r.1 >= next && r.0.ContTo? == c.ContTo?
    decreases c
  {
    match c
    case ContTo(_) => (c, next)
    case Inline(args, body) =>
      if prepend then
        var b := ThreadExpr(body, stack + [next], next + 1);
        (Inline([BindNode(next, Ctx)] + args, b.0), b.1)
      else
        var b := ThreadExpr(body, stack, next);
        (Inline(args, b.0), b.1)
  }

  function ThreadArgs(args: List<Arg>, prepend: bool, stack: CtxStack, next: nat): (r: (List<Arg>, nat))
    ensures r.1 >= next
    decreases args
  {
    match args
    case Nil => (Nil, next)
    case Cons(a, rest) =>
      var h := ThreadArg(a, prepend, stack, next);
      var t := ThreadArgs(rest, prepend, stack, h.1);
      (Cons(h.0, t.0), t.1)
  }

  function ThreadArg(a: Arg, prepend: bool, stack: CtxStack, next: nat): (r: (Arg, nat))
    ensures r.1 >= next
    decreases a
  {
    match a
    case ArgCont(c) =>
      var c' := ThreadCont(c, prepend, stack, next);
      (ArgCont(c'.0), c'.1)
    case ArgExpr(e) =>
      var e' := ThreadExpr(e, stack, next);
      (ArgExpr(e'.0), e'.1)
    case _ => (a, next)
  }

  /** The one root shape the pass works on; it leaves every other root as it is. */
  predicate ModuleShaped(root: Expr) {
    && root.App? && root.func == CallBuiltIn(FinkModule)
    && match root.args
       case Cons(ArgCont(Inline(binds, _)), Nil) => |binds| == 2 && binds[0].kind == Ctx
       case _ => false
  }

  function ModuleWith(root: Expr, body: Expr): Expr
    requires ModuleShaped(root)
  {
    root.(args := Cons(ArgCont(Inline(root.args.head.cont.args, body)), Nil))
  }

  function ThreadProgram(root: Expr, next: nat): (r: (Expr, nat))
    ensures r.1 >= next
  {
    if ModuleShaped(root) then
      var module' := root.args.head.cont;
      var b := ThreadExpr(module'.body, [module'.args[0].id], next);
      (ModuleWith(root, b.0), b.1)
    else (root, next)
  }

  // ---- The pass as it runs ------------------------------------------------------------------------

  /** The pass's context: the counter of ids handed out and the contexts of the functions around. */
  class Threader {
    var next: nat
    var ctxStack: CtxStack

    constructor (next: nat)
      ensures this.next == next && ctxStack == []
    {
      this.next := next;
      ctxStack := [];
    }

    method FreshId() returns (id: CpsId)
      modifies this
      ensures id == old(next) && next == old(next) + 1 && ctxStack == old(ctxStack)
    {
      id := next;
      next := next + 1;
    }

    method Thread(e: Expr) returns (r: Expr)
      modifies this
      ensures (r, next) == ThreadExpr(e, old(ctxStack), old(next)) && ctxStack == old(ctxStack)
      decreases e
    {
      match e
      case LetVal(id, name, val, cont) =>
        var c := ThreadContOf(cont, false);
        r := LetVal(id, name, val, c);
      case LetFn(id, name, params, fnKind, body, cont) =>
        var ctx := FreshId();
        ctxStack := ctxStack + [ctx];
        var b := Thread(body);
        ctxStack := ctxStack[..|ctxStack| - 1];
        var c := ThreadContOf(cont, false);
        r := LetFn(id, name, [Name(BindNode(ctx, Ctx))] + params, fnKind, b, c);
      case App(id, func, args) =>
        var isModuleEntry := func == CallBuiltIn(FinkModule);
        if !isModuleEntry && ctxStack != [] {
          var valId := FreshId();
          var ctxArg := ArgVal(Val(valId, Ref(ctxStack[|ctxStack| - 1])));
          var a := ThreadArgsOf(args, true);
          r := App(id, func, Cons(ctxArg, a));
        } else {
          var a := ThreadArgsOf(args, !isModuleEntry);
          r := App(id, func, a);
        }
      case If(id, cond, thn, els) =>
        var t := Thread(thn);
        var f := Thread(els);
        r := If(id, cond, t, f);
      case LetRec(id, slots, body) =>
        var b := Thread(body);
        r := LetRec(id, slots, b);
      case Set(id, name, val, cont) =>
        var c := ThreadContOf(cont, false);
        r := Set(id, name, val, c);
      case Closure(id, funcref, captures, cont) =>
        var c := ThreadContOf(cont, false);
        r := Closure(id, funcref, captures, c);
      case LetCaps(id, caps, binds, cont) =>
        var c := ThreadContOf(cont, false);
        r := LetCaps(id, caps, binds, c);
    }

    method ThreadContOf(c: Cont, prepend: bool) returns (r: Cont)
      modifies this
      ensures (r, next) == ThreadCont(c, prepend, old(ctxStack), old(next)) && ctxStack == old(ctxStack)
      decreases c
    {
      match c
      case ContTo(_) => r := c;
      case Inline(args, body) =>
        if prepend {
          var ctx := FreshId();
          ctxStack := ctxStack + [ctx];
          var b := Thread(body);
          ctxStack := ctxStack[..|ctxStack| - 1];
          r := Inline([BindNode(ctx, Ctx)] + args, b);
        } else {
          var b := Thread(body);
          r := Inline(args, b);
        }
    }

    method ThreadArgsOf(args: List<Arg>, prepend: bool) returns (r: List<Arg>)
      modifies this
      ensures (r, next) == ThreadArgs(args, prepend, old(ctxStack), old(next)) && ctxStack == old(ctxStack)
      decreases args
    {
      match args
      case Nil => r := Nil;
      case Cons(a, rest) =>
        var a' := a;
        match a {
          case ArgCont(c) =>
            var c' := ThreadContOf(c, prepend);
            a' := ArgCont(c');
          case ArgExpr(e) =>
            var e' := Thread(e);
            a' := ArgExpr(e');
          case _ =>
        }
        var rest' := ThreadArgsOf(rest, prepend);
        r := Cons(a', rest');
    }

    method ThreadRoot(root: Expr) returns (r: Expr)
      requires ctxStack == []
      modifies this
      ensures (r, next) == ThreadProgram(root, old(next)) && ctxStack == []
    {
      if ModuleShaped(root) {
        var module' := root.args.head.cont;
        ctxStack := [module'.args[0].id];
        var body := Thread(module'.body);
        ctxStack := [];
        r := ModuleWith(root, body);
      } else {
        r := root;
      }
    }
  }

  // ---- Erasing what was inserted --------------------------------------------------------------------

  function Erase(e: Expr): Expr
    decreases e
  {
    match e
    case LetVal(id, name, val, cont) => LetVal(id, name, val, EraseCont(cont, false))
    case LetFn(id, name, params, fnKind, body, cont) =>
      LetFn(id, name, if params == [] then [] else params[1..], fnKind, Erase(body), EraseCont(cont, false))
    case App(id, func, args) =>
      if func == CallBuiltIn(FinkModule) then App(id, func, EraseArgs(args, false))
      else App(id, func, if args.Nil? then Nil else EraseArgs(args.tail, true))
    case If(id, cond, thn, els) => If(id, cond, Erase(thn), Erase(els))
    case LetRec(id, slots, body) => LetRec(id, slots, Erase(body))
    case Set(id, name, val, cont) => Set(id, name, val, EraseCont(cont, false))
    case Closure(id, funcref, captures, cont) => Closure(id, funcref, captures, EraseCont(cont, false))
    case LetCaps(id, caps, binds, cont) => LetCaps(id, caps, binds, EraseCont(cont, false))
  }

  function EraseCont(c: Cont, prepended: bool): Cont
    decreases c
  {
    match c
    case ContTo(_) => c
    case Inline(args, body) => Inline(if prepended && args != [] then args[1..] else args, Erase(body))
  }

  function EraseArgs(args: List<Arg>, prepended: bool): List<Arg>
    decreases args
  {
    match args
    case Nil => Nil
    case Cons(a, rest) =>
      var a' := match a
        case ArgCont(c) => ArgCont(EraseCont(c, prepended))
        case ArgExpr(e) => ArgExpr(Erase(e))
        case _ => a;
      Cons(a', EraseArgs(rest, prepended))
  }

  function EraseProgram(root: Expr): Expr {
    if ModuleShaped(root) then ModuleWith(root, Erase(root.args.head.cont.body)) else root
  }

  lemma {:induction false} EraseThread(e: Expr, stack: CtxStack, next: nat)
    requires stack != []
    ensures Erase(ThreadExpr(e, stack, next).0) == e
    decreases e
  {
    match e
    case LetVal(_, _, _, cont) => EraseThreadCont(cont, false, stack, next);
    case LetFn(_, _, _, _, body, cont) =>
      EraseThread(body, stack + [next], next + 1);
      EraseThreadCont(cont, false, stack, ThreadExpr(body, stack + [next], next + 1).1);
    case App(_, func, args) =>
      EraseThreadArgs(args, !IsModuleEntry(func), stack, if IsModuleEntry(func) then next else next + 1);
    case If(_, _, thn, els) =>
      EraseThread(thn, stack, next);
      EraseThread(els, stack, ThreadExpr(thn, stack, next).1);
    case LetRec(_, _, body) => EraseThread(body, stack, next);
    case Set(_, _, _, cont) => EraseThreadCont(cont, false, stack, next);
    case Closure(_, _, _, cont) => EraseThreadCont(cont, false, stack, next);
    case LetCaps(_, _, _, cont) => EraseThreadCont(cont, false, stack, next);
  }

  lemma {:induction false} EraseThreadCont(c: Cont, prepend: bool, stack: CtxStack, next: nat)
    requires stack != []
    ensures EraseCont(ThreadCont(c, prepend, stack, next).0, prepend) == c
    decreases c
  {
    if c.Inline? {
      if prepend {
        EraseThread(c.body, stack + [next], next + 1);
        assert ([BindNode(next, Ctx)] + c.args)[1..] == c.args;
      } else {
        EraseThread(c.body, stack, next);
      }
    }
  }

  lemma {:induction false} EraseThreadArgs(args: List<Arg>, prepend: bool, stack: CtxStack, next: nat)
    requires stack != []
    ensures EraseArgs(ThreadArgs(args, prepend, stack, next).0, prepend) == args
    decreases args
  {
    match args
    case Nil =>
    case Cons(a, rest) =>
      EraseThreadArgs(rest, prepend, stack, ThreadArg(a, prepend, stack, next).1);
      match a
      case ArgCont(c) => EraseThreadCont(c, prepend, stack, next);
      case ArgExpr(e) => EraseThread(e, stack, next);
      case _ =>
  }

  // ---- What the inserted references name --------------------------------------------------------------

  /** Every function leads with a context parameter; every call but the module's entry, which receives its context
      from the runtime, passes first the innermost context around it, which is `ctx` here, and each of its inline
      continuations leads with a context argument. */
  predicate PassesInnermost(e: Expr, ctx: CpsId)
    decreases e
  {
    match e
    case LetVal(_, _, _, cont) => PassesInnermostCont(cont, false, ctx)
    case LetFn(_, _, params, _, body, cont) =>
      && params != [] && params[0].Name? && params[0].bind.kind == Ctx
      && PassesInnermost(body, params[0].bind.id) && PassesInnermostCont(cont, false, ctx)
    case App(_, func, args) =>
      if func == CallBuiltIn(FinkModule) then PassesInnermostArgs(args, false, ctx)
      else
        && args.Cons? && args.head.ArgVal? && args.head.val.kind == Ref(ctx)
        && PassesInnermostArgs(args.tail, true, ctx)
    case If(_, _, thn, els) => PassesInnermost(thn, ctx) && PassesInnermost(els, ctx)
    case LetRec(_, _, body) => PassesInnermost(body, ctx)
    case Set(_, _, _, cont) => PassesInnermostCont(cont, false, ctx)
    case Closure(_, _, _, cont) => PassesInnermostCont(cont, false, ctx)
    case LetCaps(_, _, _, cont) => PassesInnermostCont(cont, false, ctx)
  }

  predicate PassesInnermostCont(c: Cont, prepended: bool, ctx: CpsId)
    decreases c
  {
    match c
    case ContTo(_) => true
    case Inline(args, body) =>
      if prepended then args != [] && args[0].kind == Ctx && PassesInnermost(body, args[0].id)
      else PassesInnermost(body, ctx)
  }

  predicate PassesInnermostArgs(args: List<Arg>, prepended: bool, ctx: CpsId)
    decreases args
  {
    match args
    case Nil => true
    case Cons(ArgCont(c), rest) => PassesInnermostCont(c, prepended, ctx) && PassesInnermostArgs(rest, prepended, ctx)
    case Cons(ArgExpr(e), rest) => PassesInnermost(e, ctx) && PassesInnermostArgs(rest, prepended, ctx)
    case Cons(_, rest) => PassesInnermostArgs(rest, prepended, ctx)
  }

  lemma {:induction false} ThreadPassesInnermost(e: Expr, stack: CtxStack, next: nat)
    requires stack != []
    ensures PassesInnermost(ThreadExpr(e, stack, next).0, stack[|stack| - 1])
    decreases e
  {
    match e
    case LetVal(_, _, _, cont) => ThreadContPassesInnermost(cont, false, stack, next);
    case LetFn(_, _, _, _, body, cont) =>
      ThreadPassesInnermost(body, stack + [next], next + 1);
      ThreadContPassesInnermost(cont, false, stack, ThreadExpr(body, stack + [next], next + 1).1);
    case App(_, func, args) =>
      ThreadArgsPassesInnermost(args, !IsModuleEntry(func), stack, if IsModuleEntry(func) then next else next + 1);
    case If(_, _, thn, els) =>
      ThreadPassesInnermost(thn, stack, next);
      ThreadPassesInnermost(els, stack, ThreadExpr(thn, stack, next).1);
    case LetRec(_, _, body) => ThreadPassesInnermost(body, stack, next);
    case Set(_, _, _, cont) => ThreadContPassesInnermost(cont, false, stack, next);
    case Closure(_, _, _, cont) => ThreadContPassesInnermost(cont, false, stack, next);
    case LetCaps(_, _, _, cont) => ThreadContPassesInnermost(cont, false, stack, next);
  }

  lemma {:induction false} ThreadContPassesInnermost(c: Cont, prepend: bool, stack: CtxStack, next: nat)
    requires stack != []
    ensures PassesInnermostCont(ThreadCont(c, prepend, stack, next).0, prepend, stack[|stack| - 1])
    decreases c
  {
    if c.Inline? {
      if prepend {
        ThreadPassesInnermost(c.body, stack + [next], next + 1);
      } else {
        ThreadPassesInnermost(c.body, stack, next);
      }
    }
  }

  lemma {:induction false} ThreadArgsPassesInnermost(args: List<Arg>, prepend: bool, stack: CtxStack, next: nat)
    requires stack != []
    ensures PassesInnermostArgs(ThreadArgs(args, prepend, stack, next).0, prepend, stack[|stack| - 1])
    decreases args
  {
    match args
    case Nil =>
    case Cons(a, rest) =>
      ThreadArgsPassesInnermost(rest, prepend, stack, ThreadArg(a, prepend, stack, next).1);
      match a
      case ArgCont(c) => ThreadContPassesInnermost(c, prepend, stack, next);
      case ArgExpr(e) => ThreadPassesInnermost(e, stack, next);
      case _ =>
  }

  // ---- Exports ----------------------------------------------------------------------------------------

  /** What lowering leaves of an export: the name and what follows. */
  function NamedFirst(args: List<Arg>): Option<CpsId> {
    match args
    case Cons(ArgVal(Val(_, Ref(x))), Cons(ArgCont(_), Nil)) => Some(x)
    case _ => None
  }

  /** The name each export of `e` makes, in the tree's order: before threading its first argument, and afterwards the
      one the machines and the code generator find behind the context. An export they cannot carry out has none. */
  function Exports(e: Expr, threaded: bool): seq<Option<CpsId>>
    decreases e
  {
    match e
    case LetVal(_, _, _, cont) => ExportsCont(cont, threaded)
    case LetFn(_, _, _, _, body, cont) => Exports(body, threaded) + ExportsCont(cont, threaded)
    case App(_, func, args) =>
      var own :=
        if func != CallBuiltIn(Pub) then []
        else if !threaded then [NamedFirst(args)]
        else [match Machine.PubKey(args) case Some((x, _)) => Some(x) case None => None];
      own + ExportsArgs(args, threaded)
    case If(_, _, thn, els) => Exports(thn, threaded) + Exports(els, threaded)
    case LetRec(_, _, body) => Exports(body, threaded)
    case Set(_, _, _, cont) => ExportsCont(cont, threaded)
    case Closure(_, _, _, cont) => ExportsCont(cont, threaded)
    case LetCaps(_, _, _, cont) => ExportsCont(cont, threaded)
  }

  function ExportsCont(c: Cont, threaded: bool): seq<Option<CpsId>>
    decreases c
  {
    if c.ContTo? then [] else Exports(c.body, threaded)
  }

  function ExportsArgs(args: List<Arg>, threaded: bool): seq<Option<CpsId>>
    decreases args
  {
    match args
    case Nil => []
    case Cons(ArgCont(c), rest) => ExportsCont(c, threaded) + ExportsArgs(rest, threaded)
    case Cons(ArgExpr(e), rest) => Exports(e, threaded) + ExportsArgs(rest, threaded)
    case Cons(_, rest) => ExportsArgs(rest, threaded)
  }

  lemma {:induction false} ThreadKeepsExports(e: Expr, stack: CtxStack, next: nat)
    requires stack != []
    ensures Exports(ThreadExpr(e, stack, next).0, true) == Exports(e, false)
    decreases e
  {
    match e
    case LetVal(_, _, _, cont) => ThreadContKeepsExports(cont, false, stack, next);
    case LetFn(_, _, _, _, body, cont) =>
      ThreadKeepsExports(body, stack + [next], next + 1);
      ThreadContKeepsExports(cont, false, stack, ThreadExpr(body, stack + [next], next + 1).1);
    case App(_, func, args) =>
      ThreadArgsKeepsExports(args, !IsModuleEntry(func), stack, if IsModuleEntry(func) then next else next + 1);
      if func == CallBuiltIn(Pub) {
        KeyBehindContext(Val(next, Ref(stack[|stack| - 1])), args, stack, next + 1);
      }
    case If(_, _, thn, els) =>
      ThreadKeepsExports(thn, stack, next);
      ThreadKeepsExports(els, stack, ThreadExpr(thn, stack, next).1);
    case LetRec(_, _, body) => ThreadKeepsExports(body, stack, next);
    case Set(_, _, _, cont) => ThreadContKeepsExports(cont, false, stack, next);
    case Closure(_, _, _, cont) => ThreadContKeepsExports(cont, false, stack, next);
    case LetCaps(_, _, _, cont) => ThreadContKeepsExports(cont, false, stack, next);
  }

  /** Behind a context, the key of an export is the name it had first. */
  lemma {:induction false} KeyBehindContext(ctx: Val, args: List<Arg>, stack: CtxStack, next: nat)
    ensures var key := Machine.PubKey(Cons(ArgVal(ctx), ThreadArgs(args, true, stack, next).0));
            NamedFirst(args) == match key case Some((x, _)) => Some(x) case None => None
  {
    match args
    case Cons(a, Cons(k, rest)) =>
      var a', n := ThreadArg(a, true, stack, next).0, ThreadArg(a, true, stack, next).1;
      var k', m := ThreadArg(k, true, stack, n).0, ThreadArg(k, true, stack, n).1;
      var rest' := ThreadArgs(rest, true, stack, m).0;
      assert ThreadArgs(args, true, stack, next).0 == Cons(a', Cons(k', rest'));
      assert rest'.Nil? <==> rest.Nil?;
    case Cons(_, Nil) =>
    case Nil =>
  }

  lemma {:induction false} ThreadContKeepsExports(c: Cont, prepend: bool, stack: CtxStack, next: nat)
    requires stack != []
    ensures ExportsCont(ThreadCont(c, prepend, stack, next).0, true) == ExportsCont(c, false)
    decreases c
  {
    if c.Inline? {
      if prepend {
        ThreadKeepsExports(c.body, stack + [next], next + 1);
      } else {
        ThreadKeepsExports(c.body, stack, next);
      }
    }
  }

  lemma {:induction false} ThreadArgsKeepsExports(args: List<Arg>, prepend: bool, stack: CtxStack, next: nat)
    requires stack != []
    ensures ExportsArgs(ThreadArgs(args, prepend, stack, next).0, true) == ExportsArgs(args, false)
    decreases args
  {
    match args
    case Nil =>
    case Cons(a, rest) =>
      ThreadArgsKeepsExports(rest, prepend, stack, ThreadArg(a, prepend, stack, next).1);
      match a
      case ArgCont(c) => ThreadContKeepsExports(c, prepend, stack, next);
      case ArgExpr(e) => ThreadKeepsExports(e, stack, next);
      case _ =>
  }

  /** A threaded module exports the names its source exports, in their order: each export is one the runtime can carry
      out exactly when lowering left the name first and a continuation after it. */
  lemma ThreadingKeepsExports(root: Expr, next: nat)
    requires ModuleShaped(root)
    ensures Exports(ThreadProgram(root, next).0, true) == Exports(root, false)
  {
    var m := root.args.head.cont;
    ThreadKeepsExports(m.body, [m.args[0].id], next);
    assert ExportsArgs(root.args, false) == Exports(m.body, false) + ExportsArgs(Nil, false);
    var t := ThreadProgram(root, next).0;
    assert ExportsArgs(t.args, true) == Exports(t.args.head.cont.body, true) + ExportsArgs(Nil, true);
  }

  // ---- The whole pass -----------------------------------------------------------------------------------

  /** On every program, erasing what threading inserted gives the program back exactly; on a module, whose entry binds
      a context and the runtime's continuation, every inserted reference names the innermost context around it; any
      other program is left alone. */
  lemma ThreadingOnlyInserts(root: Expr, next: nat)
    ensures var t := ThreadProgram(root, next).0;
            && EraseProgram(t) == root
            && match root
               case App(id, CallBuiltIn(FinkModule), Cons(ArgCont(Inline(binds, body)), Nil)) =>
                 if |binds| == 2 && binds[0].kind == Ctx then
                   exists body' ::
                     && t == App(id, root.func, Cons(ArgCont(Inline(binds, body')), Nil))
                     && Erase(body') == body && PassesInnermost(body', binds[0].id)
                 else t == root
               case _ => t == root
  {
    if ModuleShaped(root) {
      var m := root.args.head.cont;
      EraseThread(m.body, [m.args[0].id], next);
      ThreadPassesInnermost(m.body, [m.args[0].id], next);
    }
  }
}
