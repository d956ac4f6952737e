/** What closure conversion makes is well typed, and strictly so exactly when every function reaches
    the slots it fills. */
module ConvertTyping {
  import opened Collections
  import opened CpsIr
  import opened FreeVars
  import opened Convert
  import opened Captures
  import opened ConvertInput
  import opened Typing

  /** Every function of `e` reaches the slots it fills. */
  predicate SetsReach(e: Expr, stack: CtxStack, sl: Slots)
    decreases e
  {
    match e
    case LetVal(_, _, _, cont) => SetsReachCont(cont, stack, sl)
    case LetFn(_, _, params, _, body, cont) =>
      ReachesSlots(params, body, stack, sl) && SetsReach(body, Enter(params, stack), sl) && SetsReachCont(cont, stack, sl)
    case App(_, _, args) => SetsReachArgs(args, stack, sl)
    case If(_, _, thn, els) => SetsReach(thn, stack, sl) && SetsReach(els, stack, sl)
    case LetRec(_, _, body) => SetsReach(body, stack, sl)
    case Set(_, _, _, cont) => SetsReachCont(cont, stack, sl)
    case Closure(_, _, _, cont) => SetsReachCont(cont, stack, sl)
    case LetCaps(_, _, _, cont) => SetsReachCont(cont, stack, sl)
  }

  predicate SetsReachCont(c: Cont, stack: CtxStack, sl: Slots)
    decreases c
  {
    c.Inline? ==> SetsReach(c.body, stack, sl)
  }

  predicate SetsReachArgs(args: List<Arg>, stack: CtxStack, sl: Slots)
    decreases args
  {
    match args
    case Nil => true
    case Cons(a, rest) => SetsReachArg(a, stack, sl) && SetsReachArgs(rest, stack, sl)
  }

  predicate SetsReachArg(a: Arg, stack: CtxStack, sl: Slots)
    decreases a
  {
    match a
    case ArgCont(c) => SetsReachCont(c, stack, sl)
    case ArgExpr(e) => SetsReach(e, stack, sl)
    case _ => true
  }

  /** Where we are: enclosing contexts, ids in scope, the id counter, the renaming of the function
      we are in and what its final body has bound. */
  datatype Spot = Spot(stack: CtxStack, scope: set<CpsId>, next: nat, ren: Renaming, codes: Codes, sc: Sorts)

  datatype World = World(snap: Snapshot, pr: Program, rules: Rules)

  ghost predicate ValidWorld(w: World) {
    && w.snap.slots == w.pr.slots == w.rules.sl.all && w.rules.sl.outer <= w.pr.slots
    && forall x :: x in w.snap.kinds ==> w.snap.kinds[x] != Slot
  }

  ghost predicate ValidSpot(w: World, s: Spot) {
    && ValidWorld(w)
    && StackIn(s.stack, s.scope) && Below(s.scope, w.pr.base) && w.pr.base <= s.next
    && forall x :: x in s.ren ==> x in s.scope && s.ren[x] >= w.pr.base && Bound(w, s, x)
  }

  function SourceSort(w: World, x: CpsId): Sort {
    if x in w.pr.slots then OfCell else OfValue
  }

  ghost predicate Bound(w: World, s: Spot, x: CpsId) {
    RenameId(x, s.ren) in s.sc && s.sc[RenameId(x, s.ren)] == SourceSort(w, x)
  }

  /** Where writes must be certain: the slots set are bound or have one cell, those filled by a binding of
      their id are bound under that id or have one cell. */
  ghost predicate AllBound(w: World, s: Spot, occ: seq<CpsId>, targets: set<CpsId>, fills: set<CpsId>) {
    && (forall x :: x in occ ==> Bound(w, s, x))
    && (w.rules.strict ==>
          && (forall x :: x in targets ==> x in w.rules.sl.outer || Bound(w, s, x))
          && (forall x :: x in fills ==> Fillable(x, s.sc, w.rules)))
  }

  function Fills(w: World, e: Expr): set<CpsId> {
    LetNames(e) * w.pr.slots
  }

  function FillsCont(w: World, c: Cont): set<CpsId> {
    LetNamesCont(c) * w.pr.slots
  }

  function FillsArgs(w: World, args: List<Arg>): set<CpsId> {
    LetNamesArgs(args) * w.pr.slots
  }

  function FillsArg(w: World, a: Arg): set<CpsId> {
    LetNamesArg(a) * w.pr.slots
  }

  /** Fewer uses are bound too, also where other ids come next. */
  lemma FewerBound(w: World, s: Spot, s': Spot, occ': seq<CpsId>, targets': set<CpsId>, fills': set<CpsId>,
                   occ: seq<CpsId>, targets: set<CpsId>, fills: set<CpsId>)
    requires AllBound(w, s, occ, targets, fills) && s'.ren == s.ren && s'.sc == s.sc
    requires (forall x :: x in occ' ==> x in occ) && targets' <= targets && fills' <= fills
    ensures AllBound(w, s', occ', targets', fills')
    ensures ValidSpot(w, s) && s'.stack == s.stack && s'.scope == s.scope && s.next <= s'.next ==> ValidSpot(w, s')
  {
    if ValidSpot(w, s) {
      assert forall x :: x in s.ren ==> Bound(w, s, x) && Bound(w, s', x);
    }
  }

  /** The spot after binding source ids of one sort. */
  function More(s: Spot, ids: set<CpsId>, sort: Sort): Spot {
    s.(scope := s.scope + ids, sc := s.sc + map x | x in ids :: sort)
  }

  lemma BoundMore(w: World, s: Spot, ids: set<CpsId>, sort: Sort, occ: seq<CpsId>, targets: set<CpsId>, fills: set<CpsId>)
    requires ValidSpot(w, s) && AllBound(w, s, Minus(occ, ids), targets - ids, fills - ids)
    requires fills <= w.pr.slots && forall x :: x in ids ==> x !in s.scope && x < w.pr.base && SourceSort(w, x) == sort
    ensures ValidSpot(w, More(s, ids, sort)) && AllBound(w, More(s, ids, sort), occ, targets, fills)
  {
    InMinus(occ, ids);
    forall x | x in ids || Bound(w, s, x)
      ensures Bound(w, More(s, ids, sort), x)
    {
      if x in ids {
        assert x !in s.ren;
      } else {
        assert RenameId(x, s.ren) !in ids;
      }
    }
    forall x | x in fills && (x in ids || Fillable(x, s.sc, w.rules))
      ensures Fillable(x, More(s, ids, sort).sc, w.rules)
    {
      assert x in ids ==> sort == OfCell;
    }
  }

  /** The spot after a binding under a slot's id. */
  function Refilled(s: Spot, x: CpsId): Spot {
    s.(sc := s.sc[x := OfCell])
  }

  lemma BoundRefilled(w: World, s: Spot, x: CpsId, occ: seq<CpsId>, targets: set<CpsId>, fills: set<CpsId>)
    requires ValidSpot(w, s) && x in s.scope && x in w.pr.slots && AllBound(w, s, Minus(occ, {x}), targets, fills - {x})
    ensures ValidSpot(w, Refilled(s, x)) && AllBound(w, Refilled(s, x), occ, targets, fills)
  {
    InMinus(occ, {x});
    forall y | y == x || Bound(w, s, y)
      ensures Bound(w, Refilled(s, x), y)
    {
      assert y != x ==> RenameId(y, s.ren) != x || y !in s.ren;
    }
    assert forall y :: y in fills && y != x && Fillable(y, s.sc, w.rules) ==> Fillable(y, Refilled(s, x).sc, w.rules);
  }

  function Final(w: World, s: Spot, e: Expr): Expr {
    Rename(ConvertExpr(w.snap, e, s.stack, s.next).0, s.ren)
  }

  function FinalCont(w: World, s: Spot, c: Cont): Cont {
    RenameCont(ConvertCont(w.snap, c, s.stack, s.next).0, s.ren)
  }

  ghost predicate Here(w: World, s: Spot, e: Expr) {
    && ValidSpot(w, s) && WellScoped(e, s.scope, w.pr) && Forwardable(e, s.stack != [])
    && (w.rules.strict ==> SetsReach(e, s.stack, w.rules.sl))
    && AllBound(w, s, Occ(e, s.stack), SetTargets(e), Fills(w, e))
  }

  ghost predicate HereCont(w: World, s: Spot, c: Cont) {
    && ValidSpot(w, s) && WellScopedCont(c, s.scope, w.pr) && ForwardableCont(c, s.stack != [])
    && (w.rules.strict ==> SetsReachCont(c, s.stack, w.rules.sl))
    && AllBound(w, s, OccCont(c, s.stack), SetTargetsCont(c), FillsCont(w, c))
  }

  lemma ReadRenamed(w: World, s: Spot, v: Val)
    requires AllBound(w, s, ValReads(v), {}, {})
    ensures ReadOk(RenameVal(v, s.ren), s.sc)
  {
    if v.kind.Ref? || v.kind.ContRef? {
      assert v.kind.target in ValReads(v);
    }
  }

  lemma {:induction false} ConvertedTyped(w: World, s: Spot, e: Expr)
    requires Here(w, s, e)
    ensures Typed(Final(w, s, e), s.codes, s.sc, w.rules)
    decreases e, 2
  {
    match e
    case LetVal(_, _, _, _) => ConvertedLetValTyped(w, s, e);
    case LetFn(_, _, _, _, _, _) => ConvertedFnTyped(w, s, e);
    case App(_, func, args) =>
      if func.CallVal? {
        ReadRenamed(w, s, func.val);
      }
      ConvertedArgsTyped(w, s, args, func == CallBuiltIn(Pub), 0);
    case If(_, cond, thn, els) => ConvertedIfTyped(w, s, e);
    case LetRec(_, slots, body) =>
      var s' := More(s, BindIds(slots), OfCell);
      BoundMore(w, s, BindIds(slots), OfCell, Occ(body, s.stack), SetTargets(body), Fills(w, body));
      assert s'.sc == s.sc + Cells(BindIds(slots));
      ConvertedTyped(w, s', body);
    case Set(_, name, val, cont) =>
      ReadRenamed(w, s, val);
      ConvertedContTyped(w, s, cont);
  }

  /** What holds at a binding holds of its value and, but for the name, of its continuation. */
  lemma LetValParts(w: World, s: Spot, e: Expr)
    requires e.LetVal? && Here(w, s, e)
    ensures AllBound(w, s, ValReads(e.val), {}, {})
    ensures AllBound(w, s, Minus(OccCont(e.cont, s.stack), {e.name.id}), SetTargetsCont(e.cont), FillsCont(w, e.cont) - {e.name.id})
    ensures WellScopedCont(e.cont, s.scope + {e.name.id}, w.pr) && ForwardableCont(e.cont, s.stack != [])
    ensures w.rules.strict ==> SetsReachCont(e.cont, s.stack, w.rules.sl)
    ensures if e.name.id in w.pr.slots
            then e.name.id in s.scope && (w.rules.strict ==> Fillable(e.name.id, s.sc, w.rules))
            else NewValue(e.name, s.scope, w.pr)
    ensures Final(w, s, e) == LetVal(e.id, e.name, RenameVal(e.val, s.ren), FinalCont(w, s, e.cont))
  {
    hide Bound, Fillable;
    assert LetNames(e) == {e.name.id} + LetNamesCont(e.cont);
    FewerBound(w, s, s, ValReads(e.val), {}, {}, Occ(e, s.stack), SetTargets(e), Fills(w, e));
  }

  lemma {:induction false} ConvertedLetValTyped(w: World, s: Spot, e: Expr)
    requires e.LetVal? && Here(w, s, e)
    ensures Typed(Final(w, s, e), s.codes, s.sc, w.rules)
    decreases e, 0
  {
    hide Bound, AllBound, Final, RenameCont, ConvertCont, SetsReach, Forwardable, ReadOk, WellScoped, Fillable;
    var LetVal(_, name, val, cont) := e;
    LetValParts(w, s, e);
    ReadRenamed(w, s, val);
    if name.id in w.pr.slots {
      assert s.scope + {name.id} == s.scope;
      BoundRefilled(w, s, name.id, OccCont(cont, s.stack), SetTargetsCont(cont), FillsCont(w, cont));
      ConvertedContTyped(w, Refilled(s, name.id), cont);
    } else {
      var s' := More(s, {name.id}, OfValue);
      FewerBound(w, s, s, Minus(OccCont(cont, s.stack), {name.id}), SetTargetsCont(cont) - {name.id}, FillsCont(w, cont) - {name.id},
                 Minus(OccCont(cont, s.stack), {name.id}), SetTargetsCont(cont), FillsCont(w, cont) - {name.id});
      BoundMore(w, s, {name.id}, OfValue, OccCont(cont, s.stack), SetTargetsCont(cont), FillsCont(w, cont));
      assert s'.sc == s.sc[name.id := OfValue];
      ConvertedContTyped(w, s', cont);
    }
  }

  lemma {:induction false} ConvertedIfTyped(w: World, s: Spot, e: Expr)
    requires e.If? && Here(w, s, e)
    ensures Typed(Final(w, s, e), s.codes, s.sc, w.rules)
    decreases e, 0
  {
    hide AllBound, Bound;
    var If(_, cond, thn, els) := e;
    var s' := s.(next := ConvertExpr(w.snap, thn, s.stack, s.next).1);
    FewerBound(w, s, s, ValReads(cond), {}, {}, Occ(e, s.stack), SetTargets(e), Fills(w, e));
    ReadRenamed(w, s, cond);
    FewerBound(w, s, s, Occ(thn, s.stack), SetTargets(thn), Fills(w, thn), Occ(e, s.stack), SetTargets(e), Fills(w, e));
    FewerBound(w, s, s', Occ(els, s.stack), SetTargets(els), Fills(w, els), Occ(e, s.stack), SetTargets(e), Fills(w, e));
    ConvertedTyped(w, s, thn);
    ConvertedTyped(w, s', els);
  }

  lemma {:induction false} ConvertedContTyped(w: World, s: Spot, c: Cont)
    requires HereCont(w, s, c)
    ensures TypedCont(FinalCont(w, s, c), s.codes, s.sc, w.rules)
    decreases c
  {
    if c.Inline? {
      var s' := More(s, BindIds(c.args), OfValue);
      BoundMore(w, s, BindIds(c.args), OfValue, Occ(c.body, s.stack), SetTargets(c.body), Fills(w, c.body));
      assert s'.sc == s.sc + Values(BindIds(c.args));
      ConvertedTyped(w, s', c.body);
    } else {
      assert Bound(w, s, c.target);
    }
  }

  lemma {:induction false} ConvertedArgsTyped(w: World, s: Spot, args: List<Arg>, isPub: bool, index: nat)
    requires ValidSpot(w, s) && WellScopedArgs(args, s.scope, w.pr) && ForwardableArgs(args, s.stack != [])
    requires w.rules.strict ==> SetsReachArgs(args, s.stack, w.rules.sl)
    requires AllBound(w, s, OccArgs(args, s.stack), SetTargetsArgs(args), FillsArgs(w, args))
    ensures TypedArgs(RenameArgs(ConvertArgs(w.snap, args, s.stack, s.next).0, s.ren, isPub, index),
                      s.codes, s.sc, w.rules, isPub, index)
    decreases args
  {
    match args
    case Nil =>
    case Cons(a, rest) =>
      hide AllBound, Bound;
      var h := ConvertArg(w.snap, a, s.stack, s.next);
      var s' := s.(next := h.1);
      FewerBound(w, s, s, OccArg(a, s.stack), SetTargetsArg(a), FillsArg(w, a),
                 OccArgs(args, s.stack), SetTargetsArgs(args), FillsArgs(w, args));
      FewerBound(w, s, s', OccArgs(rest, s.stack), SetTargetsArgs(rest), FillsArgs(w, rest),
                 OccArgs(args, s.stack), SetTargetsArgs(args), FillsArgs(w, args));
      ConvertedArgTyped(w, s, a);
      ConvertedArgsTyped(w, s', rest, isPub, index + 1);
  }

  lemma {:induction false} ConvertedArgTyped(w: World, s: Spot, a: Arg)
    requires ValidSpot(w, s) && WellScopedArg(a, s.scope, w.pr) && ForwardableArg(a, s.stack != [])
    requires w.rules.strict ==> SetsReachArg(a, s.stack, w.rules.sl)
    requires AllBound(w, s, OccArg(a, s.stack), SetTargetsArg(a), FillsArg(w, a))
    ensures TypedArg(RenameArg(ConvertArg(w.snap, a, s.stack, s.next).0, s.ren), s.codes, s.sc, w.rules)
    decreases a
  {
    match a
    case ArgVal(v) => ReadRenamed(w, s, v);
    case ArgSpread(v) => ReadRenamed(w, s, v);
    case ArgCont(c) => ConvertedContTyped(w, s, c);
    case ArgExpr(e) => ConvertedTyped(w, s, e);
  }

  // ---- Functions --------------------------------------------------------------------------------

  /** The spot at the top of a lifted body. */
  function BodySpot(w: World, s: Spot, params: seq<Param>, frees: seq<CpsId>, first: nat): Spot {
    Spot(Enter(params, s.stack), s.scope + ParamIds(params), s.next, RenamingTo(frees, first), s.codes,
         Values(ParamIds(params)) + LocalSorts(Locals(w.snap, frees, first)))
  }

  lemma LocalSortsAt(locals: Layout, first: nat, x: CpsId)
    requires forall i :: 0 <= i < |locals| ==> locals[i].id == first + i
    ensures x in LocalSorts(locals) <==> first <= x < first + |locals|
    ensures first <= x < first + |locals| ==> LocalSorts(locals)[x] == LocalSort(locals[x - first])
    decreases locals
  {
    if locals != [] {
      LocalSortsAt(locals[1..], first + 1, x);
      assert locals[0].id == first;
    }
  }

  /** At the top of a lifted body everything the body uses is bound: its parameters under their own
      ids, every captured variable under its local. */
  lemma BodyBound(w: World, s: Spot, params: seq<Param>, body: Expr, first: nat)
    requires ValidSpot(w, s) && NewParams(params, s.scope, w.pr) && s.next <= first
    requires WellScoped(body, s.scope + ParamIds(params), w.pr)
    requires w.rules.strict ==> ReachesSlots(params, body, s.stack, w.rules.sl)
    ensures var b := BodySpot(w, s, params, FreeVarsOf(params, body, s.stack), first);
            ValidSpot(w, b) && AllBound(w, b, Occ(body, b.stack), SetTargets(body), Fills(w, body))
  {
    hide Bound, Fillable, LocalSorts, Locals;
    if w.rules.strict {
      BodyFills(w, s, params, body);
      SetTargetsInScope(body, s.scope + ParamIds(params), w.pr);
    }
    var frees := FreeVarsOf(params, body, s.stack);
    var b := BodySpot(w, s, params, frees, first);
    BodySpotValid(w, s, params, body, first);
    var occ := Occ(body, b.stack);
    InMinus(occ, ParamIds(params));
    InInsertAll([], Minus(occ, ParamIds(params)));
    forall x | x in ParamIds(params) || x in frees
      ensures Bound(w, b, x)
    {
      BodyBoundAt(w, s, params, frees, first, x);
    }
    assert forall x :: Fillable(x, map[], w.rules) ==> Fillable(x, b.sc, w.rules) by {
      FillableMore(w.rules, b.sc);
    }
  }

  lemma FillableMore(rules: Rules, sc: Sorts)
    ensures forall x :: Fillable(x, map[], rules) ==> Fillable(x, sc, rules)
  {
  }

  /** What a body that reaches its slots fills is captured or has one cell. */
  lemma BodyFills(w: World, s: Spot, params: seq<Param>, body: Expr)
    requires ReachesSlots(params, body, s.stack, w.rules.sl) && ValidWorld(w)
    ensures forall x :: x in SetTargets(body) && x in w.pr.slots ==>
              x in w.rules.sl.outer || x in ParamIds(params) || x in FreeVarsOf(params, body, s.stack)
    ensures forall x :: x in Fills(w, body) ==> Fillable(x, map[], w.rules)
  {
  }

  /** The top of a lifted body is a spot, and what the body captures is bound there. */
  lemma BodySpotValid(w: World, s: Spot, params: seq<Param>, body: Expr, first: nat)
    requires ValidSpot(w, s) && NewParams(params, s.scope, w.pr) && s.next <= first
    requires WellScoped(body, s.scope + ParamIds(params), w.pr)
    ensures var frees := FreeVarsOf(params, body, s.stack);
            && ValidSpot(w, BodySpot(w, s, params, frees, first))
            && forall x :: x in frees ==> x !in ParamIds(params)
  {
    hide LocalSorts, Locals;
    var frees := FreeVarsOf(params, body, s.stack);
    CtxParamIsParam(params);
    BelowParams(params, s.scope, w.pr.base);
    FreeVarsInScope(params, body, s.stack, s.scope, w.pr);
    forall x | x in frees
      ensures Bound(w, BodySpot(w, s, params, frees, first), x)
    {
      BodyBoundAt(w, s, params, frees, first, x);
    }
  }

  lemma BodyBoundAt(w: World, s: Spot, params: seq<Param>, frees: seq<CpsId>, first: nat, x: CpsId)
    requires ValidSpot(w, s) && NewParams(params, s.scope, w.pr) && s.next <= first
    requires forall y :: y in frees ==> y !in ParamIds(params)
    requires x in ParamIds(params) || x in frees
    ensures Bound(w, BodySpot(w, s, params, frees, first), x)
  {
    var locals := Locals(w.snap, frees, first);
    if x in frees {
      var y := RenamingTo(frees, first)[x];
      LocalSortsAt(locals, first, y);
      assert locals[y - first] == BindNode(y, OuterKind(w.snap, x));
    } else {
      LocalSortsAt(locals, first, x);
      assert x < w.pr.base && x !in w.pr.slots;
    }
  }

  lemma {:induction false} NoCapsAtTop(snap: Snapshot, e: Expr, stack: CtxStack, next: nat, ren: Renaming)
    requires !e.LetCaps?
    ensures !Rename(ConvertExpr(snap, e, stack, next).0, ren).LetCaps?
  {
  }

  /** A lifted definition is well typed when its renamed body is, its locals bound. */
  lemma LiftedDefTyped(w: World, s: Spot, params: seq<Param>, body: Expr, frees: seq<CpsId>, first: nat)
    requires Typed(Rename(body, RenamingTo(frees, first)), s.codes, BodySpot(w, s, params, frees, first).sc, w.rules)
    requires !Rename(body, RenamingTo(frees, first)).LetCaps?
    ensures var def := LiftedDef(w.snap, params, body, frees, first);
            TypedFn(def.params, def.body, s.codes, w.rules) && LayoutOf(def.body) == Locals(w.snap, frees, first)
  {
    hide Typed, Rename;
    var def := LiftedDef(w.snap, params, body, frees, first);
    assert def.params[1..] == params;
    if frees == [] {
      assert Locals(w.snap, frees, first) == [];
      assert BodySpot(w, s, params, frees, first).sc == Values(ParamIds(params));
    }
  }

  lemma {:induction false} LayoutOfCapturesIs(cs: seq<Capture>, locals: Layout)
    requires |cs| == |locals| && forall i :: 0 <= i < |cs| ==> cs[i].local == locals[i]
    ensures LayoutOfCaptures(cs) == locals
  {
    if cs != [] {
      LayoutOfCapturesIs(cs[1..], locals[1..]);
      assert locals == [locals[0]] + locals[1..];
    }
  }

  /** The captures of a closure are bound outside it, and listed as the body unpacks them. */
  lemma CapturesTyped(w: World, s: Spot, frees: seq<CpsId>, first: nat, firstVal: nat)
    requires ValidWorld(w) && AllBound(w, s, frees, {}, {})
    ensures var cs := RenameCaptures(CapturesOf(w.snap, frees, first, firstVal), s.ren);
            && LayoutOfCaptures(cs) == Locals(w.snap, frees, first)
            && forall c :: c in cs ==> CaptureOk(c, s.sc)
  {
    var cs := RenameCaptures(CapturesOf(w.snap, frees, first, firstVal), s.ren);
    LayoutOfCapturesIs(cs, Locals(w.snap, frees, first));
    forall c | c in cs
      ensures CaptureOk(c, s.sc)
    {
      var i :| 0 <= i < |cs| && cs[i] == c;
      assert frees[i] in frees && Bound(w, s, frees[i]);
    }
  }

  /** The call that forwards a new closure is well typed where its name, the continuation and the
      context are bound. */
  lemma ForwardTyped(w: World, s: Spot, k: CpsId, c: CpsId, name: BindNode, next: nat)
    requires AllBound(w, s, [k, c], {}, {}) && RenameId(name.id, s.ren) == name.id
    ensures TypedCont(RenameCont(Inline([name], ForwardCall(k, c, name.id, next)), s.ren), s.codes, s.sc, w.rules)
  {
    var sc := s.sc + Values(BindIds([name]));
    assert Bound(w, s, k) && Bound(w, s, c);
    assert name in [name];
    ForwardRenamed(k, c, name, next, s.ren);
    var call := ForwardCall(RenameId(k, s.ren), RenameId(c, s.ren), name.id, next);
    var first, last := call.args.head, call.args.tail.head;
    assert TypedArg(last, s.codes, sc, w.rules) && TypedArgs(Nil, s.codes, sc, w.rules, false, 2);
    assert TypedArgs(Cons(last, Nil), s.codes, sc, w.rules, false, 1);
    assert TypedArg(first, s.codes, sc, w.rules);
    assert TypedArgs(call.args, s.codes, sc, w.rules, false, 0);
    assert Typed(call, s.codes, sc, w.rules);
  }

  /** What holds at a function holds at its continuation, where its name is bound too. */
  lemma RestHere(w: World, s: Spot, e: Expr, s': Spot)
    requires e.LetFn? && e.cont.Inline? && Here(w, s, e)
    requires s.next <= s'.next && s' == s.(next := s'.next, codes := s'.codes)
    ensures Here(w, More(s', {e.name.id}, OfValue), e.cont.body)
  {
    hide Bound;
    var name, rest := e.name.id, e.cont.body;
    assert LetNames(e) == LetNamesCont(e.cont) == LetNames(rest);
    FewerBound(w, s, s', Minus(Occ(rest, s.stack), {name}), SetTargets(rest) - {name},
               Fills(w, rest) - {name}, Occ(e, s.stack), SetTargets(e), Fills(w, e));
    BoundMore(w, s', {name}, OfValue, Occ(rest, s.stack), SetTargets(rest), Fills(w, rest));
    assert ForwardableCont(e.cont, s.stack != []) && Forwardable(rest, s.stack != []);
    assert w.rules.strict ==> SetsReachCont(e.cont, s.stack, w.rules.sl) && SetsReach(rest, s.stack, w.rules.sl);
    assert WellScoped(rest, s.scope + {name}, w.pr);
  }

  lemma {:induction false} ClosureContTyped(w: World, s: Spot, e: Expr, s': Spot, at: nat)
    requires e.LetFn? && Here(w, s, e) && s.next <= s'.next && s' == s.(next := s'.next, codes := s'.codes)
    ensures var c := ConvertCont(w.snap, e.cont, s.stack, s'.next).0;
            TypedCont(RenameCont(ClosureCont(e.name, c, s.stack, at).0, s.ren), s'.codes, s.sc, w.rules)
    decreases e, 0
  {
    hide Bound, AllBound, Typed;
    var name := e.name.id;
    assert BindIds([e.name]) == {name};
    if e.cont.ContTo? {
      var k, c := e.cont.target, s.stack[|s.stack| - 1];
      assert [k] + Innermost(s.stack) == [k, c];
      InMinus([k, c], {name});
      assert forall x :: x in [k, c] ==> x in Minus([k, c], {name});
      FewerBound(w, s, s', [k, c], {}, {}, Occ(e, s.stack), SetTargets(e), Fills(w, e));
      ForwardTyped(w, s', k, c, e.name, at);
    } else {
      RestHere(w, s, e, s');
      assert More(s', {name}, OfValue).sc == s'.sc + Values({name});
      ConvertedTyped(w, More(s', {name}, OfValue), e.cont.body);
    }
  }

  /** What holds at a function holds at the top of its lifted body. */
  lemma BodyHere(w: World, s: Spot, e: Expr, first: nat)
    requires e.LetFn? && Here(w, s, e) && s.next <= first
    ensures Here(w, BodySpot(w, s, e.params, FreeVarsOf(e.params, e.fnBody, s.stack), first), e.fnBody)
    ensures !e.fnBody.LetCaps?
  {
    hide Bound, AllBound;
    BodyBound(w, s, e.params, e.fnBody, first);
  }

  /** The captured variables are bound where the function is made. */
  lemma CapturesBound(w: World, s: Spot, e: Expr)
    requires e.LetFn? && Here(w, s, e)
    ensures var frees := FreeVarsOf(e.params, e.fnBody, s.stack);
            && Collect(ConvertExpr(w.snap, e.fnBody, Enter(e.params, s.stack), s.next).0, ParamIds(e.params), []) == frees
            && AllBound(w, s, frees, {}, {})
  {
    hide Bound, AllBound;
    BelowParams(e.params, s.scope, w.pr.base);
    CapturesAreFreeVars(w.snap, e.params, e.fnBody, s.stack, s.next, s.scope, w.pr);
    var frees := FreeVarsOf(e.params, e.fnBody, s.stack);
    var occ := Minus(Occ(e.fnBody, Enter(e.params, s.stack)), ParamIds(e.params));
    InInsertAll([], occ);
    FewerBound(w, s, s, frees, {}, {}, Occ(e, s.stack), SetTargets(e), Fills(w, e));
  }

  /** The lifted definition of a function is well typed and unpacks the captured variables. */
  lemma {:induction false} ConvertedBodyTyped(w: World, s: Spot, e: Expr, first: nat)
    requires e.LetFn? && Here(w, s, e) && s.next <= first
    ensures var frees := FreeVarsOf(e.params, e.fnBody, s.stack);
            var body := ConvertExpr(w.snap, e.fnBody, Enter(e.params, s.stack), s.next).0;
            var def := LiftedDef(w.snap, e.params, body, frees, first);
            && TypedFn(def.params, def.body, s.codes, w.rules) && LayoutOf(def.body) == Locals(w.snap, frees, first)
    decreases e, 0
  {
    hide Here, Typed, TypedFn, LayoutOf, LiftedDef, Locals;
    var frees := FreeVarsOf(e.params, e.fnBody, s.stack);
    var b := BodySpot(w, s, e.params, frees, first);
    BodyHere(w, s, e, first);
    ConvertedTyped(w, b, e.fnBody);
    NoCapsAtTop(w.snap, e.fnBody, b.stack, b.next, b.ren);
    LiftedDefTyped(w, s, e.params, ConvertExpr(w.snap, e.fnBody, b.stack, b.next).0, frees, first);
  }

  lemma {:induction false} ConvertedFnTyped(w: World, s: Spot, e: Expr)
    requires e.LetFn? && Here(w, s, e)
    ensures Typed(Final(w, s, e), s.codes, s.sc, w.rules)
    decreases e, 1
  {
    hide Typed, TypedFn, TypedCont, LiftedDef, Locals, CapturesOf, ClosureCont, RenamingTo, CaptureOk, RenameCaptures,
         RenameCont, AllBound, LayoutOf, LayoutOfCaptures, FreeVarsOf;
    var body := ConvertExpr(w.snap, e.fnBody, Enter(e.params, s.stack), s.next);
    var first := ConvertCont(w.snap, e.cont, s.stack, body.1).1;
    var frees := FreeVarsOf(e.params, e.fnBody, s.stack);
    ConvertedBodyTyped(w, s, e, first);
    CapturesBound(w, s, e);
    CapturesTyped(w, s, frees, first, first + |frees| + 3);
    var s' := s.(next := body.1, codes := s.codes[LiftedId(frees, first) := Locals(w.snap, frees, first)]);
    ClosureContTyped(w, s, e, s', LiftedId(frees, first) + 2);
    LiftFnTyped(w, s, e, body.0, ConvertCont(w.snap, e.cont, s.stack, body.1).0, frees, first);
  }

  /** A lifted function and its closure are well typed when their parts are. */
  lemma LiftFnTyped(w: World, s: Spot, e: Expr, body: Expr, cont: Cont, frees: seq<CpsId>, first: nat)
    requires e.LetFn? && ValidSpot(w, s) && w.pr.base <= first
    requires var def := LiftedDef(w.snap, e.params, body, frees, first);
             TypedFn(def.params, def.body, s.codes, w.rules) && LayoutOf(def.body) == Locals(w.snap, frees, first)
    requires var cs := RenameCaptures(CapturesOf(w.snap, frees, first, first + |frees| + 3), s.ren);
             LayoutOfCaptures(cs) == Locals(w.snap, frees, first) && forall c :: c in cs ==> CaptureOk(c, s.sc)
    requires TypedCont(RenameCont(ClosureCont(e.name, cont, s.stack, LiftedId(frees, first) + 2).0, s.ren),
                       s.codes[LiftedId(frees, first) := Locals(w.snap, frees, first)], s.sc, w.rules)
    ensures var r := LiftFn(w.snap, e.id, e.name, e.params, e.fnKind, body, cont, s.stack, frees, first).0;
            Typed(Rename(r, s.ren), s.codes, s.sc, w.rules)
  {
    hide LiftedDef, Locals, CapturesOf, ClosureCont, RenamingTo, Collect, CaptureOk, RenameCaptures, TypedFn;
    var r := LiftFn(w.snap, e.id, e.name, e.params, e.fnKind, body, cont, s.stack, frees, first).0;
    var lifted := LiftedId(frees, first);
    assert lifted !in s.ren;
    var closure := Rename(r.cont.body, s.ren);
    assert closure.funcref.kind == Ref(lifted);
    assert Typed(closure, s.codes[lifted := Locals(w.snap, frees, first)], s.sc, w.rules);
    assert Rename(r, s.ren) == LetFn(r.id, r.name, r.params, r.fnKind, r.fnBody, Inline([], closure));
  }

  // ---- The other direction: strict typing needs every filled slot to be reached -----------------

  ghost predicate Placed(w: World, s: Spot, e: Expr) {
    ValidSpot(w, s) && WellScoped(e, s.scope, w.pr) && Forwardable(e, s.stack != [])
  }

  /** The slots that are filled are bound, as the code finds them, or have one cell. */
  ghost predicate Reached(w: World, s: Spot, targets: set<CpsId>, fills: set<CpsId>) {
    && (forall x :: x in targets ==> x in w.rules.sl.outer || RenameId(x, s.ren) in s.sc)
    && (forall x :: x in fills ==> x in w.rules.sl.outer || x in s.sc)
  }

  /** The slots filled under new source bindings are reached outside them, or are those bindings. */
  lemma ReachedOutside(w: World, s: Spot, ids: set<CpsId>, sort: Sort, targets: set<CpsId>, fills: set<CpsId>)
    requires ValidSpot(w, s) && Reached(w, More(s, ids, sort), targets, fills)
    requires forall x :: x in ids ==> x < w.pr.base
    ensures Reached(w, s, targets - ids, fills - ids)
  {
  }

  lemma ReachedRefilled(w: World, s: Spot, x: CpsId, targets: set<CpsId>, fills: set<CpsId>)
    requires ValidSpot(w, s) && Reached(w, Refilled(s, x), targets, fills) && x in s.scope
    requires x in w.rules.sl.outer || x in s.sc
    ensures Reached(w, s, targets, fills)
  {
  }

  lemma ValidMore(w: World, s: Spot, ids: set<CpsId>, sort: Sort)
    requires ValidSpot(w, s) && forall x :: x in ids ==> x < w.pr.base
    ensures ValidSpot(w, More(s, ids, sort))
  {
    forall x | x in s.ren
      ensures Bound(w, More(s, ids, sort), x)
    {
      assert Bound(w, s, x) && RenameId(x, s.ren) !in ids;
    }
  }

  lemma {:induction false} StrictReaches(w: World, s: Spot, e: Expr)
    requires w.rules.strict && Placed(w, s, e) && Typed(Final(w, s, e), s.codes, s.sc, w.rules)
    ensures SetsReach(e, s.stack, w.rules.sl) && Reached(w, s, SetTargets(e), Fills(w, e))
    decreases e, 2
  {
    match e
    case LetVal(_, _, _, _) => StrictReachesLetVal(w, s, e);
    case LetFn(_, _, _, _, _, _) => StrictReachesFn(w, s, e);
    case App(_, func, args) => StrictReachesArgs(w, s, args, func == CallBuiltIn(Pub), 0);
    case If(_, cond, thn, els) =>
      StrictReaches(w, s, thn);
      StrictReaches(w, s.(next := ConvertExpr(w.snap, thn, s.stack, s.next).1), els);
    case LetRec(_, slots, body) =>
      var s' := More(s, BindIds(slots), OfCell);
      ValidMore(w, s, BindIds(slots), OfCell);
      assert s'.sc == s.sc + Cells(BindIds(slots));
      StrictReaches(w, s', body);
      ReachedOutside(w, s, BindIds(slots), OfCell, SetTargets(body), Fills(w, body));
    case Set(_, name, val, cont) => StrictReachesCont(w, s, cont);
  }

  lemma {:induction false} StrictReachesLetVal(w: World, s: Spot, e: Expr)
    requires w.rules.strict && e.LetVal? && Placed(w, s, e) && Typed(Final(w, s, e), s.codes, s.sc, w.rules)
    ensures SetsReach(e, s.stack, w.rules.sl) && Reached(w, s, SetTargets(e), Fills(w, e))
    decreases e, 0
  {
    var LetVal(_, name, val, cont) := e;
    if name.id in w.pr.slots {
      assert s.scope + {name.id} == s.scope;
      BoundRefilled(w, s, name.id, [], {}, {});
      StrictReachesCont(w, Refilled(s, name.id), cont);
      ReachedRefilled(w, s, name.id, SetTargetsCont(cont), FillsCont(w, cont));
    } else {
      var s' := More(s, {name.id}, OfValue);
      ValidMore(w, s, {name.id}, OfValue);
      assert s'.sc == s.sc[name.id := OfValue];
      StrictReachesCont(w, s', cont);
      SetTargetsContInScope(cont, s'.scope, w.pr);
      ReachedOutside(w, s, {name.id}, OfValue, SetTargetsCont(cont), FillsCont(w, cont));
    }
  }

  lemma {:induction false} StrictReachesCont(w: World, s: Spot, c: Cont)
    requires w.rules.strict && ValidSpot(w, s) && WellScopedCont(c, s.scope, w.pr) && ForwardableCont(c, s.stack != [])
    requires TypedCont(FinalCont(w, s, c), s.codes, s.sc, w.rules)
    ensures SetsReachCont(c, s.stack, w.rules.sl) && Reached(w, s, SetTargetsCont(c), FillsCont(w, c))
    decreases c
  {
    if c.Inline? {
      var s' := More(s, BindIds(c.args), OfValue);
      ValidMore(w, s, BindIds(c.args), OfValue);
      assert s'.sc == s.sc + Values(BindIds(c.args));
      StrictReaches(w, s', c.body);
      ReachedOutside(w, s, BindIds(c.args), OfValue, SetTargets(c.body), Fills(w, c.body));
    }
  }

  lemma {:induction false} StrictReachesArgs(w: World, s: Spot, args: List<Arg>, isPub: bool, index: nat)
    requires w.rules.strict && ValidSpot(w, s) && WellScopedArgs(args, s.scope, w.pr) && ForwardableArgs(args, s.stack != [])
    requires TypedArgs(RenameArgs(ConvertArgs(w.snap, args, s.stack, s.next).0, s.ren, isPub, index),
                       s.codes, s.sc, w.rules, isPub, index)
    ensures SetsReachArgs(args, s.stack, w.rules.sl) && Reached(w, s, SetTargetsArgs(args), FillsArgs(w, args))
    decreases args
  {
    match args
    case Nil =>
    case Cons(a, rest) =>
      var h := ConvertArg(w.snap, a, s.stack, s.next);
      StrictReachesArgs(w, s.(next := h.1), rest, isPub, index + 1);
      assert !a.ArgVal? ==> TypedArg(RenameArg(h.0, s.ren), s.codes, s.sc, w.rules);
      assert FillsArgs(w, args) == FillsArg(w, a) + FillsArgs(w, rest);
      match a
      case ArgCont(c) => StrictReachesCont(w, s, c);
      case ArgExpr(e) => StrictReaches(w, s, e);
      case _ =>
  }

  /** A strictly typed lifted function and its closure have strictly typed parts. */
  lemma LiftFnParts(w: World, s: Spot, e: Expr, body: Expr, cont: Cont, frees: seq<CpsId>, first: nat, out: Expr, k: Cont)
    requires e.LetFn? && ValidSpot(w, s) && w.pr.base <= first && !Rename(body, RenamingTo(frees, first)).LetCaps?
    requires out == Rename(LiftFn(w.snap, e.id, e.name, e.params, e.fnKind, body, cont, s.stack, frees, first).0, s.ren)
    requires k == RenameCont(ClosureCont(e.name, cont, s.stack, LiftedId(frees, first) + 2).0, s.ren)
    requires Typed(out, s.codes, s.sc, w.rules)
    ensures Typed(Rename(body, RenamingTo(frees, first)), s.codes, BodySpot(w, s, e.params, frees, first).sc, w.rules)
    ensures TypedCont(k, s.codes[LiftedId(frees, first) := LayoutOf(LiftedDef(w.snap, e.params, body, frees, first).body)],
                      s.sc, w.rules)
  {
    hide Locals, CapturesOf, ClosureCont, RenamingTo, TypedFn, LiftedDef, Typed, TypedCont;
    var r := LiftFn(w.snap, e.id, e.name, e.params, e.fnKind, body, cont, s.stack, frees, first).0;
    var def := LiftedDef(w.snap, e.params, body, frees, first);
    var closure := Rename(r.cont.body, s.ren);
    assert out == LetFn(r.id, r.name, def.params, r.fnKind, def.body, Inline([], closure));
    assert closure.Closure? && closure.cont == k;
    DefinitionParts(out, s.codes, s.sc, w.rules);
    LiftedDefParts(w, s, e.params, body, frees, first);
  }

  lemma DefinitionParts(def: Expr, codes: Codes, sc: Sorts, rules: Rules)
    requires def.LetFn? && def.cont.Inline? && def.cont.body.Closure? && Typed(def, codes, sc, rules)
    ensures TypedFn(def.params, def.fnBody, codes, rules)
    ensures TypedCont(def.cont.body.cont, codes[def.name.id := LayoutOf(def.fnBody)], sc, rules)
  {
    assert Typed(def.cont.body, codes[def.name.id := LayoutOf(def.fnBody)], sc, rules);
  }

  lemma LiftedDefParts(w: World, s: Spot, params: seq<Param>, body: Expr, frees: seq<CpsId>, first: nat)
    requires var def := LiftedDef(w.snap, params, body, frees, first); TypedFn(def.params, def.body, s.codes, w.rules)
    requires !Rename(body, RenamingTo(frees, first)).LetCaps?
    ensures Typed(Rename(body, RenamingTo(frees, first)), s.codes, BodySpot(w, s, params, frees, first).sc, w.rules)
  {
    hide Typed, Rename, RenamingTo;
    var def := LiftedDef(w.snap, params, body, frees, first);
    assert def.params[1..] == params;
    if frees == [] {
      assert LocalSorts(Locals(w.snap, frees, first)) == map[];
      assert BodySpot(w, s, params, frees, first).sc == Values(ParamIds(params));
    }
  }

  lemma {:induction false} StrictReachesFn(w: World, s: Spot, e: Expr)
    requires w.rules.strict && e.LetFn? && Placed(w, s, e) && Typed(Final(w, s, e), s.codes, s.sc, w.rules)
    ensures SetsReach(e, s.stack, w.rules.sl) && Reached(w, s, SetTargets(e), Fills(w, e))
    decreases e, 1
  {
    hide Typed, TypedCont, Placed, RenameCont, ClosureCont, LayoutOf, LiftedDef, FreeVarsOf, ReachesSlots;
    var body := ConvertExpr(w.snap, e.fnBody, Enter(e.params, s.stack), s.next);
    var c := ConvertCont(w.snap, e.cont, s.stack, body.1);
    var frees := FreeVarsOf(e.params, e.fnBody, s.stack);
    var k := RenameCont(ClosureCont(e.name, c.0, s.stack, LiftedId(frees, c.1) + 2).0, s.ren);
    var s' := s.(next := body.1,
      codes := s.codes[LiftedId(frees, c.1) := LayoutOf(LiftedDef(w.snap, e.params, body.0, frees, c.1).body)]);
    FinalFnParts(w, s, e, body.0, c.0, c.1, k);
    BodyPlaced(w, s, e, c.1);
    StrictReaches(w, BodySpot(w, s, e.params, frees, c.1), e.fnBody);
    BodyTargets(w, s, e, c.1);
    StrictReachesRest(w, s, e, s', LiftedId(frees, c.1) + 2, k);
    assert LetNames(e) == LetNamesCont(e.cont);
  }

  /** The parts of a strictly typed final definition are strictly typed. */
  lemma FinalFnParts(w: World, s: Spot, e: Expr, body: Expr, c: Cont, first: nat, k: Cont)
    requires e.LetFn? && Placed(w, s, e) && Typed(Final(w, s, e), s.codes, s.sc, w.rules)
    requires var b := ConvertExpr(w.snap, e.fnBody, Enter(e.params, s.stack), s.next);
             body == b.0 && ConvertCont(w.snap, e.cont, s.stack, b.1) == (c, first)
    requires k == RenameCont(ClosureCont(e.name, c, s.stack, LiftedId(FreeVarsOf(e.params, e.fnBody, s.stack), first) + 2).0, s.ren)
    ensures var frees := FreeVarsOf(e.params, e.fnBody, s.stack);
            var b := BodySpot(w, s, e.params, frees, first);
            && Typed(Final(w, b, e.fnBody), b.codes, b.sc, w.rules)
            && TypedCont(k, s.codes[LiftedId(frees, first) := LayoutOf(LiftedDef(w.snap, e.params, body, frees, first).body)], s.sc,
                         w.rules)
  {
    hide Typed, TypedCont, RenameCont, ClosureCont, LayoutOf, LiftedDef, FreeVarsOf, Rename, RenamingTo, LiftFn, Locals,
         WellScoped, Forwardable, ConvertExpr, ConvertCont;
    var frees := FreeVarsOf(e.params, e.fnBody, s.stack);
    PlacedCaptures(w, s, e);
    var b := BodySpot(w, s, e.params, frees, first);
    BodyPlaced(w, s, e, first);
    NoCapsAtTop(w.snap, e.fnBody, b.stack, b.next, b.ren);
    FinalFnIs(w, s, e, body, c, first, frees);
    LiftFnParts(w, s, e, body, c, frees, first, Final(w, s, e), k);
  }

  lemma FinalFnIs(w: World, s: Spot, e: Expr, body: Expr, c: Cont, first: nat, frees: seq<CpsId>)
    requires e.LetFn? && ConvertExpr(w.snap, e.fnBody, Enter(e.params, s.stack), s.next).0 == body
    requires ConvertCont(w.snap, e.cont, s.stack, ConvertExpr(w.snap, e.fnBody, Enter(e.params, s.stack), s.next).1) == (c, first)
    requires frees == Collect(body, ParamIds(e.params), [])
    ensures Final(w, s, e) == Rename(LiftFn(w.snap, e.id, e.name, e.params, e.fnKind, body, c, s.stack, frees, first).0, s.ren)
  {
    hide Rename, LiftFn, Collect, Enter;
  }

  lemma PlacedCaptures(w: World, s: Spot, e: Expr)
    requires e.LetFn? && Placed(w, s, e)
    ensures Collect(ConvertExpr(w.snap, e.fnBody, Enter(e.params, s.stack), s.next).0, ParamIds(e.params), [])
            == FreeVarsOf(e.params, e.fnBody, s.stack)
  {
    BelowParams(e.params, s.scope, w.pr.base);
    CapturesAreFreeVars(w.snap, e.params, e.fnBody, s.stack, s.next, s.scope, w.pr);
  }

  lemma BodyPlaced(w: World, s: Spot, e: Expr, first: nat)
    requires e.LetFn? && Placed(w, s, e) && s.next <= first
    ensures Placed(w, BodySpot(w, s, e.params, FreeVarsOf(e.params, e.fnBody, s.stack), first), e.fnBody)
    ensures !e.fnBody.LetCaps?
  {
    CtxParamIsParam(e.params);
    BodySpotValid(w, s, e.params, e.fnBody, first);
  }

  /** A slot that a lifted body sets and has bound is a parameter or a captured variable. */
  lemma BodyTargets(w: World, s: Spot, e: Expr, first: nat)
    requires e.LetFn? && Placed(w, s, e) && s.next <= first
    requires var b := BodySpot(w, s, e.params, FreeVarsOf(e.params, e.fnBody, s.stack), first);
             Reached(w, b, SetTargets(e.fnBody), Fills(w, e.fnBody))
    ensures ReachesSlots(e.params, e.fnBody, s.stack, w.rules.sl)
  {
    var frees := FreeVarsOf(e.params, e.fnBody, s.stack);
    BelowParams(e.params, s.scope, w.pr.base);
    SetTargetsInScope(e.fnBody, s.scope + ParamIds(e.params), w.pr);
    LetNamesInScope(e.fnBody, s.scope + ParamIds(e.params), w.pr);
    forall x | x in SetTargets(e.fnBody) && x !in ParamIds(e.params) && x !in w.rules.sl.outer
      ensures x in frees
    {
      LocalSortsAt(Locals(w.snap, frees, first), first, x);
      assert x < w.pr.base;
    }
    forall x | x in LetNames(e.fnBody) && x in w.pr.slots
      ensures x in w.rules.sl.outer
    {
      LocalSortsAt(Locals(w.snap, frees, first), first, x);
      assert x in Fills(w, e.fnBody) && x < w.pr.base;
    }
  }

  lemma {:induction false} StrictReachesRest(w: World, s: Spot, e: Expr, s': Spot, at: nat, k: Cont)
    requires w.rules.strict && e.LetFn? && Placed(w, s, e) && s.next <= s'.next && s' == s.(next := s'.next, codes := s'.codes)
    requires k == RenameCont(ClosureCont(e.name, ConvertCont(w.snap, e.cont, s.stack, s'.next).0, s.stack, at).0, s.ren)
    requires TypedCont(k, s'.codes, s.sc, w.rules)
    ensures SetsReachCont(e.cont, s.stack, w.rules.sl)
    ensures e.cont.Inline? ==> Reached(w, s, SetTargets(e.cont.body) - {e.name.id}, Fills(w, e.cont.body))
    decreases e, 0
  {
    if e.cont.Inline? {
      var name, rest := e.name.id, e.cont.body;
      assert BindIds([e.name]) == {name};
      var s'' := More(s', {name}, OfValue);
      ValidMore(w, s', {name}, OfValue);
      assert s''.sc == s'.sc + Values({name});
      assert ForwardableCont(e.cont, s.stack != []) && Forwardable(rest, s.stack != []);
      StrictReaches(w, s'', rest);
      ReachedOutside(w, s', {name}, OfValue, SetTargets(rest), Fills(w, rest));
      assert Fills(w, rest) - {name} == Fills(w, rest);
    }
  }

  // ---- Whole programs ---------------------------------------------------------------------------

  /** Closed, well-scoped source that the pass takes without panicking. */
  ghost predicate ConvertAccepts(root: Expr, next: nat) {
    && WellScoped(root, {}, Program(SlotIds(root), next)) && Forwardable(root, false)
    && forall b :: b in BindNodes(root) ==> b.kind != Slot
  }

  /** Every body of the converted program is closed, captures line up with the locals that unpack
      them, slots travel as cells and closures name earlier code. Every write is certain of its cell as
      well if and only if every function reaches the slots it fills. */
  lemma ConvertedProgramTyped(root: Expr, next: nat)
    requires ConvertAccepts(root, next)
    ensures Typed(ConvertProgram(root, next).0, map[], map[], Rules(SlotsOf(root), false))
    ensures Typed(ConvertProgram(root, next).0, map[], map[], Rules(SlotsOf(root), true)) <==> SetsReach(root, [], SlotsOf(root))
  {
    hide Typed, SetsReach, Rename, ConvertExpr, InnerSlots, ReachesSlots;
    var pr := Program(SlotIds(root), next);
    var s := Spot([], {}, next, map[], map[], map[]);
    var w := World(SnapshotOf(root), pr, Rules(SlotsOf(root), false));
    var strict := w.(rules := Rules(SlotsOf(root), true));
    OccInScope(root, [], {}, pr);
    SetTargetsInScope(root, {}, pr);
    LetNamesInScope(root, {}, pr);
    ConvertedTyped(w, s, root);
    RenameNothing(ConvertProgram(root, next).0);
    if SetsReach(root, [], SlotsOf(root)) {
      ConvertedTyped(strict, s, root);
    }
    if Typed(ConvertProgram(root, next).0, map[], map[], strict.rules) {
      StrictReaches(strict, s, root);
    }
  }
}
