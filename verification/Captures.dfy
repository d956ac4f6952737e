/** The capture lists that conversion computes bottom-up are the declarative free variables. */
module Captures {
  import opened Collections
  import opened CpsIr
  import opened FreeVars
  import opened Convert

  ghost predicate Below(scope: set<CpsId>, bound: nat) {
    forall x :: x in scope ==> x < bound
  }

  lemma BelowBinds(binds: seq<BindNode>, scope: set<CpsId>, bound: nat)
    requires Below(scope, bound) && forall b :: b in binds ==> b.id < bound
    ensures Below(scope + BindIds(binds), bound)
  {
  }

  lemma BelowParams(params: seq<Param>, scope: set<CpsId>, bound: nat)
    requires Below(scope, bound) && forall p :: p in params ==> p.bind.id < bound
    ensures Below(scope + ParamIds(params), bound)
  {
  }

  lemma {:induction false} CaptureReadsAre(cs: seq<Capture>, frees: seq<CpsId>)
    requires |cs| == |frees|
    requires forall i :: 0 <= i < |cs| ==> cs[i].val.kind == Ref(frees[i])
    ensures CaptureReads(cs) == frees
    decreases cs
  {
    if cs != [] {
      CaptureReadsAre(cs[1..], frees[1..]);
      assert frees == [frees[0]] + frees[1..];
    }
  }

  lemma CapturesOfReads(snap: Snapshot, frees: seq<CpsId>, first: nat, firstVal: nat)
    ensures CaptureReads(CapturesOf(snap, frees, first, firstVal)) == frees
  {
    CaptureReadsAre(CapturesOf(snap, frees, first, firstVal), frees);
  }

  /** What a closure's continuation reads besides the closure itself. */
  function RestOcc(name: BindNode, cont: Cont, stack: CtxStack): seq<CpsId> {
    match cont
    case ContTo(k) => Minus([k] + Innermost(stack), {name.id})
    case Inline(_, rest) => Minus(OwnOcc(rest), {name.id})
  }

  lemma ForwardOcc(k: CpsId, c: CpsId, name: BindNode, next: nat)
    ensures OwnOccCont(Inline([name], ForwardCall(k, c, name.id, next))) == Minus([k] + [c], {name.id})
  {
    var call := ForwardCall(k, c, name.id, next);
    var named := ArgVal(Val(next + 2, Ref(name.id)));
    assert OwnOccArgs(Cons(named, Nil)) == [name.id];
    assert OwnOccArgs(call.args) == [c] + [name.id];
    assert OwnOcc(call) == [k] + ([c] + [name.id]) == ([k] + [c]) + [name.id];
    MinusSnoc([k] + [c], name.id, {name.id});
    assert BindIds([name]) == {name.id};
  }

  lemma HiddenHead(x: CpsId, s: seq<CpsId>)
    requires x !in s
    ensures Minus([x] + s, {x}) == s
  {
    assert ([x] + s)[1..] == s;
    MinusNothing(s, {x});
  }

  lemma ClosureContOcc(name: BindNode, cont: Cont, stack: CtxStack, next: nat)
    requires cont.ContTo? ==> stack != []
    ensures OwnOccCont(ClosureCont(name, cont, stack, next).0) == RestOcc(name, cont, stack)
  {
    assert BindIds([name]) == {name.id};
    if cont.ContTo? {
      ForwardOcc(cont.target, stack[|stack| - 1], name, next);
    }
  }

  /** A definition followed by its closure reads the captures and what the continuation reads. */
  lemma DefinedClosureOcc(def: Expr, captures: seq<Capture>, k: Cont)
    requires def.LetFn? && def.cont.Inline? && def.cont.args == [] && def.cont.body.Closure?
    requires def.cont.body.funcref.kind == Ref(def.name.id)
    requires def.cont.body.captures == captures && def.cont.body.cont == k
    requires def.name.id !in CaptureReads(captures) && def.name.id !in OwnOccCont(k)
    ensures OwnOcc(def) == CaptureReads(captures) + OwnOccCont(k)
  {
    var rest := CaptureReads(captures) + OwnOccCont(k);
    var all := OwnOcc(def.cont.body);
    assert all == [def.name.id] + rest;
    assert BindIds([]) == {};
    MinusNothing(all, {});
    HiddenHead(def.name.id, rest);
  }

  /** The free occurrences at a lifted function and its closure node: what it captures, then what
      the closure's continuation reads. */
  lemma LiftFnOcc(snap: Snapshot, id: CpsId, name: BindNode, params: seq<Param>, fnKind: FnKind, body: Expr,
                  cont: Cont, stack: CtxStack, frees: seq<CpsId>, next: nat, def: Expr, k: Cont)
    requires cont.ContTo? ==> stack != []
    requires def == LiftFn(snap, id, name, params, fnKind, body, cont, stack, frees, next).0
    requires k == ClosureCont(name, cont, stack, LiftedId(frees, next) + 2).0
    requires forall x :: x in frees ==> x < next
    requires forall x :: x in RestOcc(name, cont, stack) ==> x < next
    ensures OwnOcc(def) == frees + RestOcc(name, cont, stack)
  {
    hide OwnOcc, OwnOccCont, CaptureReads, RestOcc, CapturesOf, LiftFn, ClosureCont, LiftedDef;
    var captures := CapturesOf(snap, frees, next, next + |frees| + 3);
    CapturesOfReads(snap, frees, next, next + |frees| + 3);
    ClosureContOcc(name, cont, stack, LiftedId(frees, next) + 2);
    assert OwnOccCont(k) == RestOcc(name, cont, stack);
    assert CaptureReads(captures) == frees;
    DefinedClosureOcc(def, captures, k);
  }

  /** Conversion keeps the free occurrences of a tree, up to repetition. */
  lemma {:induction false} ConvertedOcc(snap: Snapshot, e: Expr, stack: CtxStack, next: nat,
                                        scope: set<CpsId>, pr: Program)
    requires Forwardable(e, stack != []) && WellScoped(e, scope, pr)
    requires StackIn(stack, scope) && Below(scope, pr.base) && pr.base <= next
    ensures SameFirsts(OwnOcc(ConvertExpr(snap, e, stack, next).0), Occ(e, stack))
    decreases e, 1
  {
    match e
    case LetVal(_, name, val, cont) =>
      ConvertedOccCont(snap, cont, stack, next, scope + {name.id}, pr);
      var c := ConvertCont(snap, cont, stack, next).0;
      SameFirstsMinus(OwnOccCont(c), OccCont(cont, stack), {name.id});
      SameFirstsConcat(ValReads(val), ValReads(val), Minus(OwnOccCont(c), {name.id}), Minus(OccCont(cont, stack), {name.id}));
    case LetFn(id, name, params, fnKind, body, cont) =>
      ConvertedOccFn(snap, e, stack, next, scope, pr);
    case App(_, func, args) =>
      ConvertedOccArgs(snap, args, stack, next, scope, pr);
      SameFirstsConcat(CallableReads(func), CallableReads(func),
                       OwnOccArgs(ConvertArgs(snap, args, stack, next).0), OccArgs(args, stack));
    case If(_, cond, thn, els) =>
      var t := ConvertExpr(snap, thn, stack, next);
      var f := ConvertExpr(snap, els, stack, t.1);
      ConvertedOcc(snap, thn, stack, next, scope, pr);
      ConvertedOcc(snap, els, stack, t.1, scope, pr);
      SameFirstsConcat(ValReads(cond), ValReads(cond), OwnOcc(t.0), Occ(thn, stack));
      SameFirstsConcat(ValReads(cond) + OwnOcc(t.0), ValReads(cond) + Occ(thn, stack), OwnOcc(f.0), Occ(els, stack));
    case LetRec(_, slots, body) =>
      BelowBinds(slots, scope, pr.base);
      ConvertedOcc(snap, body, stack, next, scope + BindIds(slots), pr);
      SameFirstsMinus(OwnOcc(ConvertExpr(snap, body, stack, next).0), Occ(body, stack), BindIds(slots));
    case Set(_, name, val, cont) =>
      ConvertedOccCont(snap, cont, stack, next, scope, pr);
      SameFirstsConcat(ValReads(val), ValReads(val),
                       OwnOccCont(ConvertCont(snap, cont, stack, next).0), OccCont(cont, stack));
  }

  lemma {:induction false} ConvertedOccFn(snap: Snapshot, e: Expr, stack: CtxStack, next: nat,
                                          scope: set<CpsId>, pr: Program)
    requires e.LetFn?
    requires Forwardable(e, stack != []) && WellScoped(e, scope, pr)
    requires StackIn(stack, scope) && Below(scope, pr.base) && pr.base <= next
    ensures SameFirsts(OwnOcc(ConvertExpr(snap, e, stack, next).0), Occ(e, stack))
    decreases e, 0
  {
    hide OwnOccCont, CaptureReads, CapturesOf, LiftedDef, SameFirsts, RestOcc, ClosureCont, Minus;
    var LetFn(id, name, params, fnKind, body, cont) := e;
    var inner := Enter(params, stack);
    var b := ConvertExpr(snap, body, inner, next);
    var c := ConvertCont(snap, cont, stack, b.1);
    var frees := Collect(b.0, ParamIds(params), []);
    BodyCaptures(snap, e, stack, next, scope, pr);
    RestSame(snap, e, stack, b.1, scope, pr);
    LiftFnOcc(snap, id, name, params, fnKind, b.0, c.0, stack, frees, c.1, ConvertExpr(snap, e, stack, next).0,
              ClosureCont(name, c.0, stack, LiftedId(frees, c.1) + 2).0);
    SameFirstsConcat(frees, Minus(Occ(body, inner), ParamIds(params)), RestOcc(name, c.0, stack), SourceRest(e, stack));
  }

  /** What the source reads after a definition. */
  function SourceRest(e: Expr, stack: CtxStack): seq<CpsId>
    requires e.LetFn?
  {
    match e.cont
    case ContTo(k) => Minus([k] + Innermost(stack), {e.name.id})
    case Inline(_, r) => Minus(Occ(r, stack), {e.name.id})
  }

  lemma {:induction false} BodyCaptures(snap: Snapshot, e: Expr, stack: CtxStack, next: nat, scope: set<CpsId>, pr: Program)
    requires e.LetFn?
    requires Forwardable(e, stack != []) && WellScoped(e, scope, pr)
    requires StackIn(stack, scope) && Below(scope, pr.base) && pr.base <= next
    ensures var inner := Enter(e.params, stack);
            var frees := Collect(ConvertExpr(snap, e.fnBody, inner, next).0, ParamIds(e.params), []);
            && SameFirsts(frees, Minus(Occ(e.fnBody, inner), ParamIds(e.params)))
            && forall x :: x in frees ==> x < pr.base
    decreases e.fnBody, 2
  {
    var inner := Enter(e.params, stack);
    var b := ConvertExpr(snap, e.fnBody, inner, next).0;
    CtxParamIsParam(e.params);
    BelowParams(e.params, scope, pr.base);
    ConvertedOcc(snap, e.fnBody, inner, next, scope + ParamIds(e.params), pr);
    SameFirstsMinus(OwnOcc(b), Occ(e.fnBody, inner), ParamIds(e.params));
    CollectIs(b, ParamIds(e.params), []);
    InsertAllDedup([], Minus(OwnOcc(b), ParamIds(e.params)));
    FreeVarsInScope(e.params, e.fnBody, stack, scope, pr);
  }

  lemma {:induction false} RestSame(snap: Snapshot, e: Expr, stack: CtxStack, next: nat, scope: set<CpsId>, pr: Program)
    requires e.LetFn?
    requires Forwardable(e, stack != []) && WellScoped(e, scope, pr)
    requires StackIn(stack, scope) && Below(scope, pr.base) && pr.base <= next
    ensures var rest := RestOcc(e.name, ConvertCont(snap, e.cont, stack, next).0, stack);
            SameFirsts(rest, SourceRest(e, stack)) && forall x :: x in rest ==> x < pr.base
    decreases e.cont, 2
  {
    if e.cont.Inline? {
      var body := e.cont.body;
      ConvertedOcc(snap, body, stack, next, scope + {e.name.id}, pr);
      OccInScope(body, stack, scope + {e.name.id}, pr);
      SameFirstsMinus(OwnOcc(ConvertExpr(snap, body, stack, next).0), Occ(body, stack), {e.name.id});
      InMinus(Occ(body, stack), {e.name.id});
    } else {
      InMinus([e.cont.target] + Innermost(stack), {e.name.id});
    }
    SameFirstsElements(RestOcc(e.name, ConvertCont(snap, e.cont, stack, next).0, stack), SourceRest(e, stack));
  }

  lemma {:induction false} ConvertedOccCont(snap: Snapshot, c: Cont, stack: CtxStack, next: nat,
                                            scope: set<CpsId>, pr: Program)
    requires ForwardableCont(c, stack != []) && WellScopedCont(c, scope, pr)
    requires StackIn(stack, scope) && pr.base <= next
    requires Below(scope, pr.base)
    ensures SameFirsts(OwnOccCont(ConvertCont(snap, c, stack, next).0), OccCont(c, stack))
    decreases c
  {
    if c.Inline? {
      BelowBinds(c.args, scope, pr.base);
      ConvertedOcc(snap, c.body, stack, next, scope + BindIds(c.args), pr);
      SameFirstsMinus(OwnOcc(ConvertExpr(snap, c.body, stack, next).0), Occ(c.body, stack), BindIds(c.args));
    }
  }

  lemma {:induction false} ConvertedOccArgs(snap: Snapshot, args: List<Arg>, stack: CtxStack, next: nat,
                                            scope: set<CpsId>, pr: Program)
    requires ForwardableArgs(args, stack != []) && WellScopedArgs(args, scope, pr)
    requires StackIn(stack, scope) && Below(scope, pr.base) && pr.base <= next
    ensures SameFirsts(OwnOccArgs(ConvertArgs(snap, args, stack, next).0), OccArgs(args, stack))
    decreases args
  {
    if args.Cons? {
      var h := ConvertArg(snap, args.head, stack, next);
      ConvertedOccArg(snap, args.head, stack, next, scope, pr);
      ConvertedOccArgs(snap, args.tail, stack, h.1, scope, pr);
      SameFirstsConcat(OwnOccArg(h.0), OccArg(args.head, stack),
                       OwnOccArgs(ConvertArgs(snap, args.tail, stack, h.1).0), OccArgs(args.tail, stack));
    }
  }

  lemma {:induction false} ConvertedOccArg(snap: Snapshot, a: Arg, stack: CtxStack, next: nat,
                                           scope: set<CpsId>, pr: Program)
    requires ForwardableArg(a, stack != []) && WellScopedArg(a, scope, pr)
    requires StackIn(stack, scope) && Below(scope, pr.base) && pr.base <= next
    ensures SameFirsts(OwnOccArg(ConvertArg(snap, a, stack, next).0), OccArg(a, stack))
    decreases a
  {
    match a
    case ArgCont(c) => ConvertedOccCont(snap, c, stack, next, scope, pr);
    case ArgExpr(e) => ConvertedOcc(snap, e, stack, next, scope, pr);
    case _ =>
  }

  /** The captures of a function, found by scanning its converted body, are exactly the
      declarative free variables of its source body, transitive captures included, in order of
      first occurrence and each once. */
  lemma {:induction false} CapturesAreFreeVars(snap: Snapshot, params: seq<Param>, body: Expr, stack: CtxStack,
                                               next: nat, scope: set<CpsId>, pr: Program)
    requires Forwardable(body, Enter(params, stack) != [])
    requires WellScoped(body, scope + ParamIds(params), pr)
    requires StackIn(stack, scope) && Below(scope + ParamIds(params), pr.base) && pr.base <= next
    ensures var b := ConvertExpr(snap, body, Enter(params, stack), next).0;
            && Collect(b, ParamIds(params), []) == FreeVarsOf(params, body, stack)
            && NoDup(Collect(b, ParamIds(params), []))
            && (forall x :: x in FreeVarsOf(params, body, stack) ==> x in scope && x !in ParamIds(params))
  {
    CtxParamIsParam(params);
    var inner := Enter(params, stack);
    var b := ConvertExpr(snap, body, inner, next).0;
    CollectIs(b, ParamIds(params), []);
    ConvertedOcc(snap, body, inner, next, scope + ParamIds(params), pr);
    SameFirstsMinus(OwnOcc(b), Occ(body, inner), ParamIds(params));
    InsertAllNoDup([], Minus(OwnOcc(b), ParamIds(params)));
    FreeVarsInScope(params, body, stack, scope, pr);
  }

  lemma FreeVarsInScope(params: seq<Param>, body: Expr, stack: CtxStack, scope: set<CpsId>, pr: Program)
    requires WellScoped(body, scope + ParamIds(params), pr) && StackIn(stack, scope)
    ensures forall x :: x in FreeVarsOf(params, body, stack) ==> x in scope && x !in ParamIds(params)
  {
    var occ := Occ(body, Enter(params, stack));
    CtxParamIsParam(params);
    OccInScope(body, Enter(params, stack), scope + ParamIds(params), pr);
    InMinus(occ, ParamIds(params));
    InInsertAll([], Minus(occ, ParamIds(params)));
  }
}
