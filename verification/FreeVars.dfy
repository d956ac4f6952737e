/** Free variables, three ways: the scan the converter runs over an already converted body, the
    plain list of that body's free occurrences, and the declarative free variables of the
    original source tree. */
module FreeVars {
  import opened Collections
  import opened CpsIr

  // ---- The converter's scan: nested function bodies are skipped, their captures are read ------

  function CollectId(x: CpsId, bound: set<CpsId>, found: seq<CpsId>): seq<CpsId> {
    if x in bound || x in found then found else found + [x]
  }

  function CollectVal(v: Val, bound: set<CpsId>, found: seq<CpsId>): seq<CpsId> {
    match v.kind
    case Ref(x) => CollectId(x, bound, found)
    case ContRef(x) => CollectId(x, bound, found)
    case _ => found
  }

  function Collect(e: Expr, bound: set<CpsId>, found: seq<CpsId>): seq<CpsId>
    decreases e
  {
    match e
    case LetVal(_, name, val, cont) =>
      CollectCont(cont, bound + {name.id}, CollectVal(val, bound, found))
    case LetFn(_, name, _, _, _, cont) =>
      CollectCont(cont, bound + {name.id}, found)
    case App(_, func, args) =>
      CollectArgs(args, bound, if func.CallVal? then CollectVal(func.val, bound, found) else found)
    case If(_, cond, thn, els) =>
      Collect(els, bound, Collect(thn, bound, CollectVal(cond, bound, found)))
    case LetRec(_, slots, body) =>
      Collect(body, bound + BindIds(slots), found)
    case Set(_, _, val, cont) =>
      CollectCont(cont, bound, CollectVal(val, bound, found))
    case Closure(_, funcref, captures, cont) =>
      CollectCont(cont, bound, CollectCaptures(captures, bound, CollectVal(funcref, bound, found)))
    case LetCaps(_, caps, binds, cont) =>
      CollectCont(cont, bound + BindIds(binds), CollectVal(caps, bound, found))
  }

  function CollectCaptures(cs: seq<Capture>, bound: set<CpsId>, found: seq<CpsId>): seq<CpsId> {
    if cs == [] then found else CollectCaptures(cs[1..], bound, CollectVal(cs[0].val, bound, found))
  }

  function CollectCont(c: Cont, bound: set<CpsId>, found: seq<CpsId>): seq<CpsId>
    decreases c
  {
    match c
    case ContTo(k) => CollectId(k, bound, found)
    case Inline(args, body) => Collect(body, bound + BindIds(args), found)
  }

  function CollectArgs(args: List<Arg>, bound: set<CpsId>, found: seq<CpsId>): seq<CpsId>
    decreases args
  {
    match args
    case Nil => found
    case Cons(a, rest) => CollectArgs(rest, bound, CollectArg(a, bound, found))
  }

  function CollectArg(a: Arg, bound: set<CpsId>, found: seq<CpsId>): seq<CpsId>
    decreases a
  {
    match a
    case ArgVal(v) => CollectVal(v, bound, found)
    case ArgSpread(v) => CollectVal(v, bound, found)
    case ArgCont(c) => CollectCont(c, bound, found)
    case ArgExpr(e) => Collect(e, bound, found)
  }

  // ---- The free occurrences of a converted body, in order ------------------------------------

  function OwnOcc(e: Expr): seq<CpsId>
    decreases e
  {
    match e
    case LetVal(_, name, val, cont) => ValReads(val) + Minus(OwnOccCont(cont), {name.id})
    case LetFn(_, name, _, _, _, cont) => Minus(OwnOccCont(cont), {name.id})
    case App(_, func, args) => CallableReads(func) + OwnOccArgs(args)
    case If(_, cond, thn, els) => ValReads(cond) + OwnOcc(thn) + OwnOcc(els)
    case LetRec(_, slots, body) => Minus(OwnOcc(body), BindIds(slots))
    case Set(_, _, val, cont) => ValReads(val) + OwnOccCont(cont)
    case Closure(_, funcref, captures, cont) =>
      ValReads(funcref) + CaptureReads(captures) + OwnOccCont(cont)
    case LetCaps(_, caps, binds, cont) => ValReads(caps) + Minus(OwnOccCont(cont), BindIds(binds))
  }

  function CaptureReads(cs: seq<Capture>): seq<CpsId> {
    if cs == [] then [] else ValReads(cs[0].val) + CaptureReads(cs[1..])
  }

  function OwnOccCont(c: Cont): seq<CpsId>
    decreases c
  {
    match c
    case ContTo(k) => [k]
    case Inline(args, body) => Minus(OwnOcc(body), BindIds(args))
  }

  function OwnOccArgs(args: List<Arg>): seq<CpsId>
    decreases args
  {
    match args
    case Nil => []
    case Cons(a, rest) => OwnOccArg(a) + OwnOccArgs(rest)
  }

  function OwnOccArg(a: Arg): seq<CpsId>
    decreases a
  {
    match a
    case ArgVal(v) => ValReads(v)
    case ArgSpread(v) => ValReads(v)
    case ArgCont(c) => OwnOccCont(c)
    case ArgExpr(e) => OwnOcc(e)
  }

  // ---- Declarative free variables of the source tree ------------------------------------------

  /** The context parameters of the enclosing functions, innermost last. */
  type CtxStack = seq<CpsId>

  /** A function's context parameter: its first parameter of that kind. */
  function CtxParam(params: seq<Param>): Option<CpsId> {
    if params == [] then None
    else if params[0].bind.kind == Ctx then Some(params[0].bind.id)
    else CtxParam(params[1..])
  }

  function Enter(params: seq<Param>, stack: CtxStack): CtxStack {
    match CtxParam(params)
    case None => stack
    case Some(c) => stack + [c]
  }

  function Innermost(stack: CtxStack): seq<CpsId> {
    if stack == [] then [] else [stack[|stack| - 1]]
  }

  /** Every free occurrence of `e`, in source order, nested functions included. A function whose
      continuation is a name hands its closure to that name together with the enclosing context,
      so both are occurrences. */
  function Occ(e: Expr, stack: CtxStack): seq<CpsId>
    decreases e
  {
    match e
    case LetVal(_, name, val, cont) => ValReads(val) + Minus(OccCont(cont, stack), {name.id})
    case LetFn(_, name, params, _, body, cont) =>
      Minus(Occ(body, Enter(params, stack)), ParamIds(params))
      + (match cont
         case ContTo(k) => Minus([k] + Innermost(stack), {name.id})
         case Inline(_, rest) => Minus(Occ(rest, stack), {name.id}))
    case App(_, func, args) => CallableReads(func) + OccArgs(args, stack)
    case If(_, cond, thn, els) => ValReads(cond) + Occ(thn, stack) + Occ(els, stack)
    case LetRec(_, slots, body) => Minus(Occ(body, stack), BindIds(slots))
    case Set(_, _, val, cont) => ValReads(val) + OccCont(cont, stack)
    case Closure(_, funcref, captures, cont) =>
      ValReads(funcref) + CaptureReads(captures) + OccCont(cont, stack)
    case LetCaps(_, caps, binds, cont) => ValReads(caps) + Minus(OccCont(cont, stack), BindIds(binds))
  }

  function OccCont(c: Cont, stack: CtxStack): seq<CpsId>
    decreases c
  {
    match c
    case ContTo(k) => [k]
    case Inline(args, body) => Minus(Occ(body, stack), BindIds(args))
  }

  function OccArgs(args: List<Arg>, stack: CtxStack): seq<CpsId>
    decreases args
  {
    match args
    case Nil => []
    case Cons(a, rest) => OccArg(a, stack) + OccArgs(rest, stack)
  }

  function OccArg(a: Arg, stack: CtxStack): seq<CpsId>
    decreases a
  {
    match a
    case ArgVal(v) => ValReads(v)
    case ArgSpread(v) => ValReads(v)
    case ArgCont(c) => OccCont(c, stack)
    case ArgExpr(e) => Occ(e, stack)
  }

  /** The free variables of the function `params => body`, in order of first occurrence. */
  function FreeVarsOf(params: seq<Param>, body: Expr, stack: CtxStack): seq<CpsId> {
    Dedup(Minus(Occ(body, Enter(params, stack)), ParamIds(params)))
  }

  // ---- The scan computes the deduplicated occurrences -----------------------------------------

  lemma CollectValIs(v: Val, bound: set<CpsId>, found: seq<CpsId>)
    ensures CollectVal(v, bound, found) == InsertAll(found, Minus(ValReads(v), bound))
  {
    if v.kind.Ref? || v.kind.ContRef? {
      assert [v.kind.target][1..] == [];
      InsertAllOne(found, v.kind.target);
    }
  }

  lemma InsertMinusConcat(found: seq<CpsId>, s: seq<CpsId>, t: seq<CpsId>, bound: set<CpsId>)
    ensures InsertAll(found, Minus(s + t, bound)) == InsertAll(InsertAll(found, Minus(s, bound)), Minus(t, bound))
  {
    MinusConcat(s, t, bound);
    InsertAllConcat(found, Minus(s, bound), Minus(t, bound));
  }

  lemma {:induction false} CollectIs(e: Expr, bound: set<CpsId>, found: seq<CpsId>)
    ensures Collect(e, bound, found) == InsertAll(found, Minus(OwnOcc(e), bound))
    decreases e
  {
    match e
    case LetVal(_, name, val, cont) =>
      CollectValIs(val, bound, found);
      CollectContIs(cont, bound + {name.id}, CollectVal(val, bound, found));
      MinusMinus(OwnOccCont(cont), {name.id}, bound);
      assert bound + {name.id} == {name.id} + bound;
      InsertMinusConcat(found, ValReads(val), Minus(OwnOccCont(cont), {name.id}), bound);
    case LetFn(_, name, _, _, _, cont) =>
      CollectContIs(cont, bound + {name.id}, found);
      MinusMinus(OwnOccCont(cont), {name.id}, bound);
      assert bound + {name.id} == {name.id} + bound;
    case App(_, func, args) =>
      var found' := if func.CallVal? then CollectVal(func.val, bound, found) else found;
      if func.CallVal? {
        CollectValIs(func.val, bound, found);
      }
      CollectArgsIs(args, bound, found');
      InsertMinusConcat(found, CallableReads(func), OwnOccArgs(args), bound);
    case If(_, cond, thn, els) =>
      var f1 := CollectVal(cond, bound, found);
      CollectValIs(cond, bound, found);
      CollectIs(thn, bound, f1);
      CollectIs(els, bound, Collect(thn, bound, f1));
      InsertMinusConcat(found, ValReads(cond), OwnOcc(thn), bound);
      InsertMinusConcat(found, ValReads(cond) + OwnOcc(thn), OwnOcc(els), bound);
    case LetRec(_, slots, body) =>
      CollectIs(body, bound + BindIds(slots), found);
      MinusMinus(OwnOcc(body), BindIds(slots), bound);
      assert bound + BindIds(slots) == BindIds(slots) + bound;
    case Set(_, _, val, cont) =>
      CollectValIs(val, bound, found);
      CollectContIs(cont, bound, CollectVal(val, bound, found));
      InsertMinusConcat(found, ValReads(val), OwnOccCont(cont), bound);
    case Closure(_, funcref, captures, cont) =>
      var f1 := CollectVal(funcref, bound, found);
      CollectValIs(funcref, bound, found);
      CollectCapturesIs(captures, bound, f1);
      CollectContIs(cont, bound, CollectCaptures(captures, bound, f1));
      InsertMinusConcat(found, ValReads(funcref), CaptureReads(captures), bound);
      InsertMinusConcat(found, ValReads(funcref) + CaptureReads(captures), OwnOccCont(cont), bound);
    case LetCaps(_, caps, binds, cont) =>
      CollectValIs(caps, bound, found);
      CollectContIs(cont, bound + BindIds(binds), CollectVal(caps, bound, found));
      MinusMinus(OwnOccCont(cont), BindIds(binds), bound);
      assert bound + BindIds(binds) == BindIds(binds) + bound;
      InsertMinusConcat(found, ValReads(caps), Minus(OwnOccCont(cont), BindIds(binds)), bound);
  }

  lemma {:induction false} CollectCapturesIs(cs: seq<Capture>, bound: set<CpsId>, found: seq<CpsId>)
    ensures CollectCaptures(cs, bound, found) == InsertAll(found, Minus(CaptureReads(cs), bound))
    decreases cs
  {
    if cs != [] {
      CollectValIs(cs[0].val, bound, found);
      CollectCapturesIs(cs[1..], bound, CollectVal(cs[0].val, bound, found));
      InsertMinusConcat(found, ValReads(cs[0].val), CaptureReads(cs[1..]), bound);
    }
  }

  lemma {:induction false} CollectContIs(c: Cont, bound: set<CpsId>, found: seq<CpsId>)
    ensures CollectCont(c, bound, found) == InsertAll(found, Minus(OwnOccCont(c), bound))
    decreases c
  {
    match c
    case ContTo(k) =>
      assert [k][1..] == [];
      InsertAllOne(found, k);
    case Inline(args, body) =>
      CollectIs(body, bound + BindIds(args), found);
      MinusMinus(OwnOcc(body), BindIds(args), bound);
      assert bound + BindIds(args) == BindIds(args) + bound;
  }

  lemma {:induction false} CollectArgsIs(args: List<Arg>, bound: set<CpsId>, found: seq<CpsId>)
    ensures CollectArgs(args, bound, found) == InsertAll(found, Minus(OwnOccArgs(args), bound))
    decreases args
  {
    match args
    case Nil =>
    case Cons(a, rest) =>
      CollectArgIs(a, bound, found);
      CollectArgsIs(rest, bound, CollectArg(a, bound, found));
      InsertMinusConcat(found, OwnOccArg(a), OwnOccArgs(rest), bound);
  }

  lemma {:induction false} CollectArgIs(a: Arg, bound: set<CpsId>, found: seq<CpsId>)
    ensures CollectArg(a, bound, found) == InsertAll(found, Minus(OwnOccArg(a), bound))
    decreases a
  {
    match a
    case ArgVal(v) => CollectValIs(v, bound, found);
    case ArgSpread(v) => CollectValIs(v, bound, found);
    case ArgCont(c) => CollectContIs(c, bound, found);
    case ArgExpr(e) => CollectIs(e, bound, found);
  }

  // ---- Well-scoped trees ----------------------------------------------------------------------

  ghost predicate StackIn(stack: CtxStack, scope: set<CpsId>) {
    stack != [] ==> stack[|stack| - 1] in scope
  }

  lemma CtxParamIsParam(params: seq<Param>)
    ensures CtxParam(params).Some? ==> CtxParam(params).value in ParamIds(params)
  {
    if params != [] && params[0].bind.kind != Ctx {
      CtxParamIsParam(params[1..]);
      assert ParamIds(params[1..]) <= ParamIds(params) by {
        assert forall p :: p in params[1..] ==> p in params;
      }
    }
  }

  lemma {:induction false} OccInScope(e: Expr, stack: CtxStack, scope: set<CpsId>, pr: Program)
    requires WellScoped(e, scope, pr) && StackIn(stack, scope)
    ensures forall x :: x in Occ(e, stack) ==> x in scope
    decreases e
  {
    match e
    case LetVal(_, name, val, cont) =>
      OccContInScope(cont, stack, scope + {name.id}, pr);
      InMinus(OccCont(cont, stack), {name.id});
    case LetFn(_, name, params, _, body, cont) =>
      CtxParamIsParam(params);
      OccInScope(body, Enter(params, stack), scope + ParamIds(params), pr);
      InMinus(Occ(body, Enter(params, stack)), ParamIds(params));
      if cont.Inline? {
        OccInScope(cont.body, stack, scope + {name.id}, pr);
        InMinus(Occ(cont.body, stack), {name.id});
      } else {
        InMinus([cont.target] + Innermost(stack), {name.id});
      }
    case App(_, func, args) => OccArgsInScope(args, stack, scope, pr);
    case If(_, cond, thn, els) =>
      OccInScope(thn, stack, scope, pr);
      OccInScope(els, stack, scope, pr);
    case LetRec(_, slots, body) =>
      OccInScope(body, stack, scope + BindIds(slots), pr);
      InMinus(Occ(body, stack), BindIds(slots));
    case Set(_, name, val, cont) => OccContInScope(cont, stack, scope, pr);
  }

  lemma {:induction false} OccContInScope(c: Cont, stack: CtxStack, scope: set<CpsId>, pr: Program)
    requires WellScopedCont(c, scope, pr) && StackIn(stack, scope)
    ensures forall x :: x in OccCont(c, stack) ==> x in scope
    decreases c
  {
    if c.Inline? {
      OccInScope(c.body, stack, scope + BindIds(c.args), pr);
      InMinus(Occ(c.body, stack), BindIds(c.args));
    }
  }

  lemma {:induction false} OccArgsInScope(args: List<Arg>, stack: CtxStack, scope: set<CpsId>, pr: Program)
    requires WellScopedArgs(args, scope, pr) && StackIn(stack, scope)
    ensures forall x :: x in OccArgs(args, stack) ==> x in scope
    decreases args
  {
    if args.Cons? {
      OccArgInScope(args.head, stack, scope, pr);
      OccArgsInScope(args.tail, stack, scope, pr);
    }
  }

  lemma {:induction false} OccArgInScope(a: Arg, stack: CtxStack, scope: set<CpsId>, pr: Program)
    requires WellScopedArg(a, scope, pr) && StackIn(stack, scope)
    ensures forall x :: x in OccArg(a, stack) ==> x in scope
    decreases a
  {
    match a
    case ArgCont(c) => OccContInScope(c, stack, scope, pr);
    case ArgExpr(e) => OccInScope(e, stack, scope, pr);
    case _ =>
  }
}
