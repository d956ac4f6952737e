/** Closure conversion as it runs: one context with an id counter and a stack of enclosing contexts,
    and an insertion-ordered set that the free-variable scan fills in place. */
module ConvertPass {
  import opened Collections
  import opened CpsIr
  import opened FreeVars
  import opened Convert

  /** An insertion-ordered set of ids. */
  class Frees {
    var seen: set<CpsId>
    var order: seq<CpsId>

    ghost predicate Valid()
      reads this
    {
      seen == Elements(order) && NoDup(order)
    }

    constructor ()
      ensures Valid() && order == []
    {
      seen := {};
      order := [];
    }

    method Insert(x: CpsId)
      requires Valid()
      modifies this
      ensures Valid() && order == if x in old(order) then old(order) else old(order) + [x]
    {
      if x !in seen {
        seen := seen + {x};
        order := order + [x];
      }
    }

    method ScanId(x: CpsId, bound: set<CpsId>)
      requires Valid()
      modifies this
      ensures Valid() && order == CollectId(x, bound, old(order))
    {
      if x !in bound {
        Insert(x);
      }
    }

    method ScanVal(v: Val, bound: set<CpsId>)
      requires Valid()
      modifies this
      ensures Valid() && order == CollectVal(v, bound, old(order))
    {
      match v.kind
      case Ref(x) => ScanId(x, bound);
      case ContRef(x) => ScanId(x, bound);
      case _ =>
    }

    method Scan(e: Expr, bound: set<CpsId>)
      requires Valid()
      modifies this
      ensures Valid() && order == Collect(e, bound, old(order))
      decreases e
    {
      match e
      case LetVal(_, name, val, cont) =>
        ScanVal(val, bound);
        ScanCont(cont, bound + {name.id});
      case LetFn(_, name, _, _, _, cont) =>
        ScanCont(cont, bound + {name.id});
      case App(_, func, args) =>
        if func.CallVal? {
          ScanVal(func.val, bound);
        }
        ScanArgs(args, bound);
      case If(_, cond, thn, els) =>
        ScanVal(cond, bound);
        Scan(thn, bound);
        Scan(els, bound);
      case LetRec(_, slots, body) =>
        var inner := WithAll(bound, slots);
        Scan(body, inner);
      case Set(_, _, val, cont) =>
        ScanVal(val, bound);
        ScanCont(cont, bound);
      case Closure(_, funcref, captures, cont) =>
        ScanVal(funcref, bound);
        ScanCaptures(captures, bound);
        ScanCont(cont, bound);
      case LetCaps(_, caps, binds, cont) =>
        ScanVal(caps, bound);
        var inner := WithAll(bound, binds);
        ScanCont(cont, inner);
    }

    method ScanCaptures(captures: seq<Capture>, bound: set<CpsId>)
      requires Valid()
      modifies this
      ensures Valid() && order == CollectCaptures(captures, bound, old(order))
    {
      var i := 0;
      while i < |captures|
        invariant 0 <= i <= |captures| && Valid()
        invariant CollectCaptures(captures[i..], bound, order) == CollectCaptures(captures, bound, old(order))
      {
        ScanVal(captures[i].val, bound);
        assert captures[i..][1..] == captures[i + 1..];
        i := i + 1;
      }
    }

    method ScanCont(c: Cont, bound: set<CpsId>)
      requires Valid()
      modifies this
      ensures Valid() && order == CollectCont(c, bound, old(order))
      decreases c
    {
      match c
      case ContTo(k) => ScanId(k, bound);
      case Inline(args, body) =>
        var inner := WithAll(bound, args);
        Scan(body, inner);
    }

    method ScanArgs(args: List<Arg>, bound: set<CpsId>)
      requires Valid()
      modifies this
      ensures Valid() && order == CollectArgs(args, bound, old(order))
      decreases args
    {
      match args
      case Nil =>
      case Cons(a, rest) =>
        match a {
          case ArgVal(v) => ScanVal(v, bound);
          case ArgSpread(v) => ScanVal(v, bound);
          case ArgCont(c) => ScanCont(c, bound);
          case ArgExpr(e) => Scan(e, bound);
        }
        ScanArgs(rest, bound);
    }
  }

  /** `bound` and the ids that `binds` bind. */
  method WithAll(bound: set<CpsId>, binds: seq<BindNode>) returns (inner: set<CpsId>)
    ensures inner == bound + BindIds(binds)
  {
    inner := bound;
    var i := 0;
    while i < |binds|
      invariant 0 <= i <= |binds|
      invariant inner == bound + BindIds(binds[..i])
    {
      inner := inner + {binds[i].id};
      assert binds[..i + 1] == binds[..i] + [binds[i]];
      i := i + 1;
    }
    assert binds[..i] == binds;
  }

  lemma RenamingIs(rename: Renaming, outers: seq<CpsId>, first: nat)
    requires (forall x :: x in rename <==> x in outers)
    requires forall j :: 0 <= j < |outers| ==> outers[j] in rename && rename[outers[j]] == first + j
    ensures rename == RenamingTo(outers, first)
  {
    var spec := RenamingTo(outers, first);
    forall x | x in outers
      ensures x in rename && rename[x] == spec[x]
    {
      var j := spec[x] - first;
      assert outers[j] == x;
    }
    assert forall x :: x in rename <==> x in spec;
  }

  /** The pass's context. `snap` was taken before the pass started. */
  class Converter {
    const snap: Snapshot
    var next: nat
    var ctxStack: CtxStack

    constructor (snap: Snapshot, next: nat)
      ensures this.snap == snap && this.next == next && ctxStack == []
    {
      this.snap := snap;
      this.next := next;
      ctxStack := [];
    }

    method FreshId() returns (id: CpsId)
      modifies this
      ensures id == old(next) && next == old(next) + 1 && ctxStack == old(ctxStack)
    {
      id := next;
      next := next + 1;
    }

    method ConvertE(e: Expr) returns (r: Expr)
      requires Forwardable(e, ctxStack != [])
      modifies this
      ensures (r, next) == ConvertExpr(snap, e, old(ctxStack), old(next)) && ctxStack == old(ctxStack)
      decreases e, 1
    {
      match e
      case LetVal(id, name, val, cont) =>
        var c := ConvertC(cont);
        r := LetVal(id, name, val, c);
      case LetFn(_, _, _, _, _, _) =>
        r := ConvertFn(e);
      case App(id, func, args) =>
        var a := ConvertAs(args);
        r := App(id, func, a);
      case If(id, cond, thn, els) =>
        var t := ConvertE(thn);
        var f := ConvertE(els);
        r := If(id, cond, t, f);
      case LetRec(id, slots, body) =>
        var b := ConvertE(body);
        r := LetRec(id, slots, b);
      case Set(id, name, val, cont) =>
        var c := ConvertC(cont);
        r := Set(id, name, val, c);
      case Closure(id, funcref, captures, cont) =>
        var c := ConvertC(cont);
        r := Closure(id, funcref, captures, c);
      case LetCaps(id, caps, binds, cont) =>
        var c := ConvertC(cont);
        r := LetCaps(id, caps, binds, c);
    }

    method ConvertC(c: Cont) returns (r: Cont)
      requires ForwardableCont(c, ctxStack != [])
      modifies this
      ensures (r, next) == ConvertCont(snap, c, old(ctxStack), old(next)) && ctxStack == old(ctxStack)
      decreases c
    {
      match c
      case ContTo(_) => r := c;
      case Inline(args, body) =>
        var b := ConvertE(body);
        r := Inline(args, b);
    }

    method ConvertAs(args: List<Arg>) returns (r: List<Arg>)
      requires ForwardableArgs(args, ctxStack != [])
      modifies this
      ensures (r, next) == ConvertArgs(snap, args, old(ctxStack), old(next)) && ctxStack == old(ctxStack)
      decreases args
    {
      match args
      case Nil => r := Nil;
      case Cons(a, rest) =>
        var a' := a;
        match a {
          case ArgCont(c) =>
            var c' := ConvertC(c);
            a' := ArgCont(c');
          case ArgExpr(e) =>
            var e' := ConvertE(e);
            a' := ArgExpr(e');
          case _ =>
        }
        var rest' := ConvertAs(rest);
        r := Cons(a', rest');
    }

    /** Converts the body with the function's own context on the stack, scans what came out for the
        variables it captures, then lifts it. */
    method ConvertFn(e: Expr) returns (r: Expr)
      requires e.LetFn? && Forwardable(e, ctxStack != [])
      modifies this
      ensures (r, next) == ConvertExpr(snap, e, old(ctxStack), old(next)) && ctxStack == old(ctxStack)
      decreases e, 0
    {
      var LetFn(id, name, params, fnKind, body, cont) := e;
      ghost var stack, start := ctxStack, next;
      var own := CtxParam(params);
      if own.Some? {
        ctxStack := ctxStack + [own.value];
      }
      assert ctxStack == Enter(params, stack);
      var body' := ConvertE(body);
      if own.Some? {
        ctxStack := ctxStack[..|ctxStack| - 1];
      }
      assert ctxStack == stack;
      var cont' := ConvertC(cont);
      var frees := new Frees();
      frees.Scan(body', ParamIds(params));
      assert frees.order == Collect(body', ParamIds(params), []);
      r := Lift(id, name, params, fnKind, body', cont', frees.order);
    }

    method MintLocals(outers: seq<CpsId>) returns (locals: seq<BindNode>, rename: Renaming)
      requires NoDup(outers)
      modifies this
      ensures ctxStack == old(ctxStack) && next == old(next) + |outers|
      ensures locals == Locals(snap, outers, old(next)) && rename == RenamingTo(outers, old(next))
    {
      locals, rename := [], map[];
      var i := 0;
      while i < |outers|
        invariant 0 <= i <= |outers| && ctxStack == old(ctxStack) && next == old(next) + i
        invariant locals == Locals(snap, outers, old(next))[..i]
        invariant forall x :: x in rename <==> x in outers[..i]
        invariant forall j :: 0 <= j < i ==> rename[outers[j]] == old(next) + j
      {
        var local := FreshId();
        locals := locals + [BindNode(local, OuterKind(snap, outers[i]))];
        rename := rename[outers[i] := local];
        assert outers[..i + 1] == outers[..i] + [outers[i]];
        i := i + 1;
      }
      assert outers[..i] == outers;
      RenamingIs(rename, outers, old(next));
    }

    method MintCaptures(outers: seq<CpsId>, locals: seq<BindNode>, ghost first: nat) returns (cs: seq<Capture>)
      requires locals == Locals(snap, outers, first)
      modifies this
      ensures ctxStack == old(ctxStack) && next == old(next) + |outers|
      ensures cs == CapturesOf(snap, outers, first, old(next))
    {
      cs := [];
      var i := 0;
      while i < |outers|
        invariant 0 <= i <= |outers| && ctxStack == old(ctxStack) && next == old(next) + i
        invariant cs == CapturesOf(snap, outers, first, old(next))[..i]
      {
        var valId := FreshId();
        cs := cs + [Capture(locals[i], Val(valId, Ref(outers[i])))];
        i := i + 1;
      }
    }

    /** The lifted definition: a leading record, and a body that unpacks it unless it is empty. */
    method LiftBody(params: seq<Param>, body: Expr, frees: seq<CpsId>)
        returns (locals: seq<BindNode>, newParams: seq<Param>, newBody: Expr)
      requires NoDup(frees)
      modifies this
      ensures locals == Locals(snap, frees, old(next)) && FnDef(newParams, newBody) == LiftedDef(snap, params, body, frees, old(next))
      ensures next == old(next) + |frees| + 3 && ctxStack == old(ctxStack)
    {
      hide Rename, RenamingTo;
      var rename;
      locals, rename := MintLocals(frees);
      newBody := Rename(body, rename);
      var capsId := FreshId();
      var capsRefId := FreshId();
      var letCapsId := FreshId();
      if locals != [] {
        newBody := LetCaps(letCapsId, Val(capsRefId, Ref(capsId)), locals, Inline([], newBody));
      }
      newParams := [Name(BindNode(capsId, Caps))] + params;
    }

    method Lift(id: CpsId, name: BindNode, params: seq<Param>, fnKind: FnKind, body: Expr, cont: Cont, frees: seq<CpsId>)
        returns (r: Expr)
      requires NoDup(frees) && (cont.ContTo? ==> ctxStack != [])
      modifies this
      ensures (r, next) == LiftFn(snap, id, name, params, fnKind, body, cont, old(ctxStack), frees, old(next))
      ensures ctxStack == old(ctxStack)
    {
      hide LiftedDef, Locals, CapturesOf, ClosureCont;
      ghost var first := next;
      var locals, newParams, newBody := LiftBody(params, body, frees);
      var captures := MintCaptures(frees, locals, first);
      var liftedId := FreshId();
      var funcrefId := FreshId();
      var k := CloseOver(name, cont);
      var closureId := FreshId();
      var closure := Closure(closureId, Val(funcrefId, Ref(liftedId)), captures, k);
      r := LetFn(id, BindNode(liftedId, name.kind), newParams, fnKind, newBody, Inline([], closure));
    }

    /** The continuation of the closure node. */
    method CloseOver(name: BindNode, cont: Cont) returns (k: Cont)
      requires cont.ContTo? ==> ctxStack != []
      modifies this
      ensures (k, next) == ClosureCont(name, cont, old(ctxStack), old(next)) && ctxStack == old(ctxStack)
    {
      match cont
      case Inline(_, rest) => k := Inline([name], rest);
      case ContTo(target) =>
        var ctx := ctxStack[|ctxStack| - 1];
        var contValId := FreshId();
        var ctxRefId := FreshId();
        var nameRefId := FreshId();
        var appId := FreshId();
        k := Inline([name],
                    App(appId, CallVal(Val(contValId, ContRef(target))),
                        Cons(ArgVal(Val(ctxRefId, Ref(ctx))), Cons(ArgVal(Val(nameRefId, Ref(name.id))), Nil))));
    }
  }
}
