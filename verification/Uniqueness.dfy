/** Conversion and hoisting keep binders unique: locals, records and lifted functions get ids nobody
    else has, so renaming a reference to a local never runs into another binding. */
module Uniqueness {
  import opened Collections
  import opened CpsIr
  import opened FreeVars
  import opened Convert
  import opened ContLiftScope
  import opened Definitions
  import opened Hoist

  /** `after` has no binder of `before` more often, and besides only ids from `lo` up to `hi`, each at
      most once. */
  ghost predicate AtMostFresh(before: multiset<CpsId>, after: multiset<CpsId>, lo: nat, hi: nat) {
    forall x :: if x < lo then after[x] <= before[x] else if x < hi then after[x] <= 1 else after[x] == 0
  }

  lemma AtMostSum(a: multiset<CpsId>, a': multiset<CpsId>, b: multiset<CpsId>, b': multiset<CpsId>, lo: nat, mid: nat, hi: nat)
    requires lo <= mid <= hi && BagBelow(a, lo) && BagBelow(b, lo)
    requires AtMostFresh(a, a', lo, mid) && AtMostFresh(b, b', mid, hi)
    ensures AtMostFresh(a + b, a' + b', lo, hi)
  {
    assert forall x :: x >= lo ==> x !in b;
  }

  lemma AtMostKeep(kept: multiset<CpsId>, a: multiset<CpsId>, a': multiset<CpsId>, lo: nat, hi: nat)
    requires lo <= hi && BagBelow(kept, lo) && AtMostFresh(a, a', lo, hi)
    ensures AtMostFresh(kept + a, kept + a', lo, hi)
  {
    assert forall x :: x >= lo ==> x !in kept;
  }

  lemma AtMostSame(m: multiset<CpsId>, lo: nat, hi: nat)
    requires BagBelow(m, lo) && lo <= hi
    ensures AtMostFresh(m, m, lo, hi)
  {
    assert forall x :: x >= lo ==> x !in m;
  }

  // ---- Conversion -----------------------------------------------------------------------------------

  lemma {:induction false} RenameBinders(e: Expr, ren: Renaming)
    ensures Binders(Rename(e, ren)) == Binders(e)
    decreases e
  {
    match e
    case LetVal(_, _, _, cont) => RenameContBinders(cont, ren);
    case LetFn(_, _, _, _, _, cont) => RenameContBinders(cont, ren);
    case App(_, func, args) => RenameArgsBinders(args, ren, func == CallBuiltIn(Pub), 0);
    case If(_, _, thn, els) =>
      RenameBinders(thn, ren);
      RenameBinders(els, ren);
    case LetRec(_, _, body) => RenameBinders(body, ren);
    case Set(_, _, _, cont) => RenameContBinders(cont, ren);
    case Closure(_, _, _, cont) => RenameContBinders(cont, ren);
    case LetCaps(_, _, _, cont) => RenameContBinders(cont, ren);
  }

  lemma {:induction false} RenameContBinders(c: Cont, ren: Renaming)
    ensures ContBinders(RenameCont(c, ren)) == ContBinders(c)
    decreases c
  {
    if c.Inline? {
      RenameBinders(c.body, ren);
    }
  }

  lemma {:induction false} RenameArgsBinders(args: List<Arg>, ren: Renaming, isPub: bool, index: nat)
    ensures ArgsBinders(RenameArgs(args, ren, isPub, index)) == ArgsBinders(args)
    decreases args
  {
    match args
    case Nil =>
    case Cons(a, rest) =>
      RenameArgsBinders(rest, ren, isPub, index + 1);
      match a
      case ArgCont(c) => RenameContBinders(c, ren);
      case ArgExpr(e) => RenameBinders(e, ren);
      case _ =>
  }

  lemma {:induction false} ConvertBinders(snap: Snapshot, e: Expr, stack: CtxStack, next: nat)
    requires BagBelow(Binders(e), next) && Forwardable(e, stack != [])
    ensures var r := ConvertExpr(snap, e, stack, next); AtMostFresh(Binders(e), Binders(r.0), next, r.1)
    decreases e, 1
  {
    hide AtMostFresh, BagBelow;
    match e
    case LetVal(_, name, _, cont) =>
      var c := ConvertCont(snap, cont, stack, next);
      BagParts(multiset{name.id}, ContBinders(cont), next);
      ConvertContBinders(snap, cont, stack, next);
      AtMostKeep(multiset{name.id}, ContBinders(cont), ContBinders(c.0), next, c.1);
    case LetFn(_, _, _, _, _, _) => ConvertFnBinders(snap, e, stack, next);
    case App(_, _, args) => ConvertArgsBinders(snap, args, stack, next);
    case If(_, _, thn, els) =>
      var t := ConvertExpr(snap, thn, stack, next);
      var f := ConvertExpr(snap, els, stack, t.1);
      BagParts(Binders(thn), Binders(els), next);
      ConvertBinders(snap, thn, stack, next);
      LaterBag(Binders(els), next, t.1);
      ConvertBinders(snap, els, stack, t.1);
      AtMostSum(Binders(thn), Binders(t.0), Binders(els), Binders(f.0), next, t.1, f.1);
    case LetRec(_, slots, body) =>
      var b := ConvertExpr(snap, body, stack, next);
      BagParts(NodeBinders(slots), Binders(body), next);
      ConvertBinders(snap, body, stack, next);
      AtMostKeep(NodeBinders(slots), Binders(body), Binders(b.0), next, b.1);
    case Set(_, _, _, cont) => ConvertContBinders(snap, cont, stack, next);
    case Closure(_, _, _, cont) => ConvertContBinders(snap, cont, stack, next);
    case LetCaps(_, _, binds, cont) =>
      var c := ConvertCont(snap, cont, stack, next);
      BagParts(NodeBinders(binds), ContBinders(cont), next);
      ConvertContBinders(snap, cont, stack, next);
      AtMostKeep(NodeBinders(binds), ContBinders(cont), ContBinders(c.0), next, c.1);
  }

  lemma {:induction false} ConvertContBinders(snap: Snapshot, c: Cont, stack: CtxStack, next: nat)
    requires BagBelow(ContBinders(c), next) && ForwardableCont(c, stack != [])
    ensures var r := ConvertCont(snap, c, stack, next); AtMostFresh(ContBinders(c), ContBinders(r.0), next, r.1)
    decreases c
  {
    hide AtMostFresh, BagBelow;
    if c.ContTo? {
      AtMostSame(multiset{}, next, next);
    } else {
      var b := ConvertExpr(snap, c.body, stack, next);
      BagParts(NodeBinders(c.args), Binders(c.body), next);
      ConvertBinders(snap, c.body, stack, next);
      AtMostKeep(NodeBinders(c.args), Binders(c.body), Binders(b.0), next, b.1);
    }
  }

  lemma {:induction false} ConvertArgsBinders(snap: Snapshot, args: List<Arg>, stack: CtxStack, next: nat)
    requires BagBelow(ArgsBinders(args), next) && ForwardableArgs(args, stack != [])
    ensures var r := ConvertArgs(snap, args, stack, next); AtMostFresh(ArgsBinders(args), ArgsBinders(r.0), next, r.1)
    decreases args
  {
    hide AtMostFresh, BagBelow;
    match args
    case Nil => AtMostSame(multiset{}, next, next);
    case Cons(a, rest) =>
      var h := ConvertArg(snap, a, stack, next);
      var t := ConvertArgs(snap, rest, stack, h.1);
      BagParts(ArgBinders(a), ArgsBinders(rest), next);
      LaterBag(ArgsBinders(rest), next, h.1);
      ConvertArgsBinders(snap, rest, stack, h.1);
      match a {
        case ArgCont(c) => ConvertContBinders(snap, c, stack, next);
        case ArgExpr(e) => ConvertBinders(snap, e, stack, next);
        case _ => AtMostSame(multiset{}, next, next);
      }
      AtMostSum(ArgBinders(a), ArgBinders(h.0), ArgsBinders(rest), ArgsBinders(t.0), next, h.1, t.1);
  }

  /** What a lifted definition and its closure bind anew. */
  function LiftedBag(snap: Snapshot, frees: seq<CpsId>, next: nat): multiset<CpsId> {
    multiset{LiftedId(frees, next)} + multiset{next + |frees|} + NodeBinders(Locals(snap, frees, next))
  }

  lemma {:induction false} LocalsOnce(locals: seq<BindNode>, first: nat)
    requires forall i :: 0 <= i < |locals| ==> locals[i].id == first + i
    ensures AtMostFresh(multiset{}, NodeBinders(locals), first, first + |locals|)
    decreases locals
  {
    if locals != [] {
      LocalsOnce(locals[1..], first + 1);
    }
  }

  lemma LiftedBagFresh(snap: Snapshot, frees: seq<CpsId>, next: nat, hi: nat)
    requires hi > LiftedId(frees, next)
    ensures AtMostFresh(multiset{}, LiftedBag(snap, frees, next), next, hi)
  {
    LocalsOnce(Locals(snap, frees, next), next);
  }

  /** What the closure's continuation binds besides the closure. */
  function RestBag(cont: Cont): multiset<CpsId> {
    if cont.Inline? then Binders(cont.body) else multiset{}
  }

  lemma ClosureContBag(name: BindNode, cont: Cont, stack: CtxStack, next: nat)
    requires cont.ContTo? ==> stack != []
    ensures ContBinders(ClosureCont(name, cont, stack, next).0) == multiset{name.id} + RestBag(cont)
  {
    assert [name][1..] == [] && NodeBinders([name]) == multiset{name.id};
    if cont.ContTo? {
      var call := ForwardCall(cont.target, stack[|stack| - 1], name.id, next);
      assert ArgsBinders(call.args.tail) == multiset{};
      assert ArgsBinders(call.args) == ArgBinders(call.args.head) + ArgsBinders(call.args.tail) == multiset{};
      assert Binders(call) == multiset{};
    }
  }

  lemma LiftedDefBag(snap: Snapshot, params: seq<Param>, body: Expr, frees: seq<CpsId>, next: nat)
    ensures var def := LiftedDef(snap, params, body, frees, next);
            && ParamBinders(def.params) == multiset{next + |frees|} + ParamBinders(params)
            && Binders(def.body) == NodeBinders(Locals(snap, frees, next)) + Binders(body)
  {
    hide RenamingTo, Rename, Binders, ParamBinders;
    var caps := Name(BindNode(next + |frees|, Caps));
    var renamed := Rename(body, RenamingTo(frees, next));
    RenameBinders(body, RenamingTo(frees, next));
    ParamBag(caps, params);
    if frees != [] {
      UnpackBag(next + |frees| + 2, Val(next + |frees| + 1, Ref(next + |frees|)), Locals(snap, frees, next), renamed);
    } else {
      assert Locals(snap, frees, next) == [];
    }
  }

  lemma ParamBag(p: Param, params: seq<Param>)
    ensures ParamBinders([p] + params) == multiset{p.bind.id} + ParamBinders(params)
  {
    assert ([p] + params)[1..] == params;
  }

  lemma UnpackBag(id: CpsId, caps: Val, locals: seq<BindNode>, body: Expr)
    ensures Binders(LetCaps(id, caps, locals, Inline([], body))) == NodeBinders(locals) + Binders(body)
  {
    assert ContBinders(Inline([], body)) == NodeBinders([]) + Binders(body);
  }

  lemma LiftFnBag(snap: Snapshot, id: CpsId, name: BindNode, params: seq<Param>, fnKind: FnKind, body: Expr, cont: Cont,
                  stack: CtxStack, frees: seq<CpsId>, next: nat)
    requires cont.ContTo? ==> stack != []
    ensures var r := LiftFn(snap, id, name, params, fnKind, body, cont, stack, frees, next).0;
            Binders(r) == multiset{name.id} + ParamBinders(params) + (Binders(body) + RestBag(cont)) + LiftedBag(snap, frees, next)
  {
    hide RenamingTo, CapturesOf, LiftedDef, ClosureCont, RestBag, Locals, ParamBinders, NodeBinders;
    var r := LiftFn(snap, id, name, params, fnKind, body, cont, stack, frees, next).0;
    LiftedDefBag(snap, params, body, frees, next);
    ClosureContBag(name, cont, stack, LiftedId(frees, next) + 2);
    RecordBag(r);
    Assemble(multiset{LiftedId(frees, next)}, multiset{next + |frees|}, ParamBinders(params),
             NodeBinders(Locals(snap, frees, next)), Binders(body), multiset{name.id}, RestBag(cont));
  }

  lemma RecordBag(r: Expr)
    requires r.LetFn? && r.cont.Inline? && r.cont.args == [] && r.cont.body.Closure?
    ensures Binders(r) == multiset{r.name.id} + ParamBinders(r.params) + Binders(r.fnBody) + ContBinders(r.cont.body.cont)
  {
    assert ContBinders(r.cont) == NodeBinders([]) + Binders(r.cont.body);
  }

  lemma Assemble(lifted: multiset<CpsId>, caps: multiset<CpsId>, params: multiset<CpsId>, locals: multiset<CpsId>,
                 body: multiset<CpsId>, name: multiset<CpsId>, rest: multiset<CpsId>)
    ensures lifted + (caps + params) + (locals + body) + (name + rest) == name + params + (body + rest) + (lifted + caps + locals)
  {
  }

  lemma {:induction false} ConvertFnBinders(snap: Snapshot, e: Expr, stack: CtxStack, next: nat)
    requires e.LetFn? && BagBelow(Binders(e), next) && Forwardable(e, stack != [])
    ensures var r := ConvertExpr(snap, e, stack, next); AtMostFresh(Binders(e), Binders(r.0), next, r.1)
    decreases e, 0
  {
    hide AtMostFresh, BagBelow, LiftFn, LiftedBag, RestBag;
    var LetFn(id, name, params, fnKind, body, cont) := e;
    var b := ConvertExpr(snap, body, Enter(params, stack), next);
    var c := ConvertCont(snap, cont, stack, b.1);
    var frees := Collect(b.0, ParamIds(params), []);
    var r := LiftFn(snap, id, name, params, fnKind, b.0, c.0, stack, frees, c.1);
    var own := multiset{name.id} + ParamBinders(params);
    var inner := Binders(body) + ContBinders(cont);
    assert Binders(e) == own + inner;
    BagParts(own, inner, next);
    BagParts(Binders(body), ContBinders(cont), next);
    ConvertBinders(snap, body, Enter(params, stack), next);
    LaterBag(ContBinders(cont), next, b.1);
    ConvertContBinders(snap, cont, stack, b.1);
    RestFewer(cont, c.0, b.1, c.1);
    AtMostSum(Binders(body), Binders(b.0), ContBinders(cont), RestBag(c.0), next, b.1, c.1);
    AtMostKeep(own, inner, Binders(b.0) + RestBag(c.0), next, c.1);
    LiftedBagFresh(snap, frees, c.1, r.1);
    NothingBelow(next);
    AtMostSum(own + inner, own + (Binders(b.0) + RestBag(c.0)), multiset{}, LiftedBag(snap, frees, c.1), next, c.1, r.1);
    assert own + inner + multiset{} == own + inner;
    LiftFnBag(snap, id, name, params, fnKind, b.0, c.0, stack, frees, c.1);
  }

  lemma NothingBelow(next: nat)
    ensures BagBelow(multiset{}, next)
  {
  }

  /** The dropped argument of a definition's continuation binds nothing any more. */
  lemma RestFewer(cont: Cont, cont': Cont, lo: nat, hi: nat)
    requires AtMostFresh(ContBinders(cont), ContBinders(cont'), lo, hi)
    ensures AtMostFresh(ContBinders(cont), RestBag(cont'), lo, hi)
  {
    assert RestBag(cont') <= ContBinders(cont');
  }

  lemma ConvertKeepsBindersUnique(root: Expr, slots: set<CpsId>, next: nat)
    requires BindersUnique(Binders(root), slots, next) && Forwardable(root, false)
    ensures var r := ConvertProgram(root, next); BindersUnique(Binders(r.0), slots, r.1)
  {
    ConvertBinders(SnapshotOf(root), root, [], next);
  }

  // ---- Hoisting -------------------------------------------------------------------------------------

  function DefBag(d: Definition): multiset<CpsId> {
    multiset{d.name.id} + ParamBinders(d.params) + Binders(d.body)
  }

  function DefsBag(ds: seq<Definition>): multiset<CpsId> {
    if ds == [] then multiset{} else DefBag(ds[0]) + DefsBag(ds[1..])
  }

  lemma {:induction false} DefsBagConcat(a: seq<Definition>, b: seq<Definition>)
    ensures DefsBag(a + b) == DefsBag(a) + DefsBag(b)
    decreases a
  {
    if a == [] {
      assert a + b == b;
    } else {
      assert (a + b)[1..] == a[1..] + b;
      DefsBagConcat(a[1..], b);
    }
  }

  lemma HoistedBagConcat(a: seq<Definition>, b: seq<Definition>)
    ensures DefsBag(Hoisted(a + b)) == DefsBag(Hoisted(a)) + DefsBag(Hoisted(b))
  {
    HoistedConcat(a, b);
    DefsBagConcat(Hoisted(a), Hoisted(b));
  }

  /** The walked tree and the hoisted definitions together bind no more than the tree did. */
  lemma {:induction false} WalkBinders(e: Expr)
    ensures Binders(Walked(e)) + DefsBag(Hoisted(DefsOf(e))) <= Binders(e)
    decreases e, 1
  {
    hide DefsBag, Hoisted, NodeBinders, ParamBinders, ArgsBinders, ContBinders;
    match e
    case LetVal(_, _, _, cont) => WalkContBinders(cont);
    case LetFn(_, _, _, _, _, _) => WalkFnBinders(e);
    case App(_, _, args) => WalkArgsBinders(args);
    case If(_, _, thn, els) =>
      WalkBinders(thn);
      WalkBinders(els);
      HoistedBagConcat(DefsOf(thn), DefsOf(els));
      TwoBags(Binders(thn), Binders(Walked(thn)), DefsBag(Hoisted(DefsOf(thn))),
              Binders(els), Binders(Walked(els)), DefsBag(Hoisted(DefsOf(els))));
    case LetRec(_, _, body) => WalkBinders(body);
    case Set(_, _, _, cont) => WalkContBinders(cont);
    case Closure(_, _, _, cont) => WalkContBinders(cont);
    case LetCaps(_, _, _, cont) => WalkContBinders(cont);
  }

  lemma OneBag(d: Definition)
    ensures DefsBag(Hoisted([d])) == multiset{d.name.id} + ParamBinders(d.params) + Binders(Walked(d.body))
  {
    hide Walked, Binders, ParamBinders;
    var h := d.(body := Walked(d.body));
    assert Hoisted([d]) == [h] && [h][1..] == [];
    assert DefsBag([h]) == DefBag(h) + multiset{};
  }

  lemma DefinitionBag(e: Expr)
    requires e.LetFn?
    ensures DefsBag(Hoisted(DefsOf(e)))
            == DefsBag(Hoisted(DefsOf(e.fnBody))) + (multiset{e.name.id} + ParamBinders(e.params) + Binders(Walked(e.fnBody)))
               + DefsBag(Hoisted(DefsOfCont(e.cont)))
  {
    hide Walked, Binders, ParamBinders, DefsBag, Hoisted;
    var LetFn(id, name, params, fnKind, body, cont) := e;
    var d := Definition(id, name, params, fnKind, body);
    HoistedBagConcat(DefsOf(body) + [d], DefsOfCont(cont));
    HoistedBagConcat(DefsOf(body), [d]);
    OneBag(d);
  }

  lemma {:induction false} WalkFnBinders(e: Expr)
    requires e.LetFn?
    ensures Binders(Walked(e)) + DefsBag(Hoisted(DefsOf(e))) <= Binders(e)
    decreases e, 0
  {
    hide DefsBag, Hoisted, ParamBinders;
    var LetFn(id, name, params, fnKind, body, cont) := e;
    var own := multiset{name.id} + ParamBinders(params);
    WalkBinders(body);
    DefinitionBag(e);
    if cont.Inline? {
      WalkBinders(cont.body);
      FnBag(own, Binders(body), Binders(Walked(body)), DefsBag(Hoisted(DefsOf(body))),
            NodeBinders(cont.args), Binders(cont.body), Binders(Walked(cont.body)), DefsBag(Hoisted(DefsOf(cont.body))));
    } else {
      NoBag();
      assert Binders(Walked(e)) == ArgsBinders(Nil) == multiset{};
      FnBag(own, Binders(body), Binders(Walked(body)), DefsBag(Hoisted(DefsOf(body))),
            multiset{}, multiset{}, multiset{}, multiset{});
    }
  }

  lemma NoBag()
    ensures DefsBag(Hoisted([])) == multiset{}
  {
  }

  lemma FnBag(own: multiset<CpsId>, body: multiset<CpsId>, body': multiset<CpsId>, inBody: multiset<CpsId>,
              args: multiset<CpsId>, rest: multiset<CpsId>, rest': multiset<CpsId>, inRest: multiset<CpsId>)
    requires body' + inBody <= body && rest' + inRest <= rest
    ensures rest' + (inBody + (own + body') + inRest) <= own + body + (args + rest)
  {
  }

  lemma TwoBags(a: multiset<CpsId>, a': multiset<CpsId>, inA: multiset<CpsId>, b: multiset<CpsId>, b': multiset<CpsId>,
                inB: multiset<CpsId>)
    requires a' + inA <= a && b' + inB <= b
    ensures a' + b' + (inA + inB) <= a + b
  {
  }

  lemma {:induction false} WalkContBinders(c: Cont)
    ensures ContBinders(WalkedCont(c)) + DefsBag(Hoisted(DefsOfCont(c))) <= ContBinders(c)
    decreases c
  {
    if c.Inline? {
      WalkBinders(c.body);
    }
  }

  lemma {:induction false} WalkArgsBinders(args: List<Arg>)
    ensures ArgsBinders(WalkedArgs(args)) + DefsBag(Hoisted(DefsOfArgs(args))) <= ArgsBinders(args)
    decreases args
  {
    match args
    case Nil =>
    case Cons(a, rest) =>
      hide DefsBag, Hoisted;
      WalkArgsBinders(rest);
      HoistedBagConcat(DefsOfArg(a), DefsOfArgs(rest));
      WalkArgBinders(a);
      TwoBags(ArgBinders(a), ArgBinders(WalkedArg(a)), DefsBag(Hoisted(DefsOfArg(a))),
              ArgsBinders(rest), ArgsBinders(WalkedArgs(rest)), DefsBag(Hoisted(DefsOfArgs(rest))));
  }

  lemma {:induction false} WalkArgBinders(a: Arg)
    ensures ArgBinders(WalkedArg(a)) + DefsBag(Hoisted(DefsOfArg(a))) <= ArgBinders(a)
    decreases a
  {
    match a
    case ArgCont(c) => WalkContBinders(c);
    case ArgExpr(e) => WalkBinders(e);
    case _ => NoBag();
  }

  lemma {:induction false} ChainBinders(hs: seq<Definition>, root: Expr)
    ensures Binders(Chain(hs, root)) == Binders(root) + DefsBag(hs)
    decreases hs
  {
    if hs != [] {
      ChainBinders(hs[1..], root);
      assert ContBinders(Inline([], Chain(hs[1..], root))) == Binders(Chain(hs[1..], root));
    }
  }

  lemma HoistKeepsBindersUnique(root: Expr, slots: set<CpsId>, next: nat)
    requires BindersUnique(Binders(root), slots, next)
    ensures BindersUnique(Binders(HoistProgram(root)), slots, next)
  {
    WalkBinders(root);
    ChainBinders(Hoisted(DefsOf(root)), Walked(root));
  }
}
