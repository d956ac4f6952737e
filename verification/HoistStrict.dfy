/** What hoisting shows about its input: a hoisted program whose writes are all certain of their cells came
    from one whose writes were. */
module HoistStrict {
  import opened Collections
  import opened CpsIr
  import opened Definitions
  import opened Typing
  import opened Hoist

  /** Typed with its writes certain, whatever code is known. */
  ghost predicate StrictDef(h: Definition, sl: Slots) {
    exists codes :: TypedFn(h.params, h.body, codes, Rules(sl, true))
  }

  ghost predicate AllStrict(hs: seq<Definition>, sl: Slots) {
    forall h :: h in hs ==> StrictDef(h, sl)
  }

  lemma StrictParts(a: seq<Definition>, b: seq<Definition>, sl: Slots)
    requires AllStrict(Hoisted(a + b), sl)
    ensures AllStrict(Hoisted(a), sl) && AllStrict(Hoisted(b), sl)
  {
    HoistedConcat(a, b);
    assert forall h :: h in Hoisted(a) || h in Hoisted(b) ==> h in Hoisted(a + b);
  }

  lemma {:induction false} Unwalk(e: Expr, codes: Codes, codes': Codes, sc: Sorts, sl: Slots)
    requires Typed(e, codes, sc, Rules(sl, false)) && Typed(Walked(e), codes', sc, Rules(sl, true))
    requires AllStrict(Hoisted(DefsOf(e)), sl)
    ensures Typed(e, codes, sc, Rules(sl, true))
    decreases e, 1
  {
    hide AllStrict, Hoisted;
    match e
    case LetVal(_, name, _, cont) => UnwalkCont(cont, codes, codes', sc[name.id := LetSort(name.id, Rules(sl, true))], sl);
    case LetFn(_, _, _, _, _, _) => UnwalkDefinition(e, codes, codes', sc, sl);
    case App(_, func, args) => UnwalkArgs(args, codes, codes', sc, sl, func == CallBuiltIn(Pub), 0);
    case If(_, _, thn, els) =>
      StrictParts(DefsOf(thn), DefsOf(els), sl);
      Unwalk(thn, codes, codes', sc, sl);
      Unwalk(els, codes, codes', sc, sl);
    case LetRec(_, slots, body) => Unwalk(body, codes, codes', sc + Cells(BindIds(slots)), sl);
    case Set(_, _, _, cont) => UnwalkCont(cont, codes, codes', sc, sl);
    case Closure(_, _, _, cont) => UnwalkCont(cont, codes, codes', sc, sl);
  }

  lemma {:induction false} UnwalkCont(c: Cont, codes: Codes, codes': Codes, sc: Sorts, sl: Slots)
    requires TypedCont(c, codes, sc, Rules(sl, false)) && TypedCont(WalkedCont(c), codes', sc, Rules(sl, true))
    requires AllStrict(Hoisted(DefsOfCont(c)), sl)
    ensures TypedCont(c, codes, sc, Rules(sl, true))
    decreases c
  {
    if c.Inline? {
      Unwalk(c.body, codes, codes', sc + Values(BindIds(c.args)), sl);
    }
  }

  lemma {:induction false} UnwalkArgs(args: List<Arg>, codes: Codes, codes': Codes, sc: Sorts, sl: Slots, isPub: bool, index: nat)
    requires TypedArgs(args, codes, sc, Rules(sl, false), isPub, index)
    requires TypedArgs(WalkedArgs(args), codes', sc, Rules(sl, true), isPub, index)
    requires AllStrict(Hoisted(DefsOfArgs(args)), sl)
    ensures TypedArgs(args, codes, sc, Rules(sl, true), isPub, index)
    decreases args
  {
    hide AllStrict, Hoisted;
    match args
    case Nil =>
    case Cons(a, rest) =>
      StrictParts(DefsOfArg(a), DefsOfArgs(rest), sl);
      UnwalkArgs(rest, codes, codes', sc, sl, isPub, index + 1);
      match a
      case ArgCont(c) => UnwalkCont(c, codes, codes', sc, sl);
      case ArgExpr(e) => Unwalk(e, codes, codes', sc, sl);
      case _ =>
  }

  lemma {:induction false} UnwalkDefinition(e: Expr, codes: Codes, codes': Codes, sc: Sorts, sl: Slots)
    requires e.LetFn? && Typed(e, codes, sc, Rules(sl, false)) && Typed(Walked(e), codes', sc, Rules(sl, true))
    requires AllStrict(Hoisted(DefsOf(e)), sl)
    ensures Typed(e, codes, sc, Rules(sl, true))
    decreases e, 0
  {
    var LetFn(id, name, params, fnKind, body, cont) := e;
    var self := Definition(id, name, params, fnKind, body);
    var d1, d2 := DefsOf(body), DefsOf(cont.body);
    assert DefsOf(e) == (d1 + [self]) + d2;
    StrictParts(d1 + [self], d2, sl);
    StrictParts(d1, [self], sl);
    var h := self.(body := Walked(body));
    assert Hoisted([self]) == [h] && h in Hoisted([self]);
    var known :| TypedFn(params, Walked(body), known, Rules(sl, true));
    UnwalkFn(params, body, codes, known, sl);
    Unwalk(cont.body, codes[name.id := LayoutOf(body)], codes', sc, sl);
  }

  lemma {:induction false} UnwalkFn(params: seq<Param>, body: Expr, codes: Codes, codes': Codes, sl: Slots)
    requires TypedFn(params, body, codes, Rules(sl, false)) && TypedFn(params, Walked(body), codes', Rules(sl, true))
    requires AllStrict(Hoisted(DefsOf(body)), sl)
    ensures TypedFn(params, body, codes, Rules(sl, true))
    decreases body, 2
  {
    var own := Values(ParamIds(params[1..]));
    if body.LetCaps? {
      assert DefsOf(body) == DefsOfCont(body.cont) == DefsOf(body.cont.body);
      var w := Walked(body);
      assert WalkedCont(body.cont) == Inline([], Walked(body.cont.body));
      assert w == LetCaps(body.id, body.caps, body.binds, WalkedCont(body.cont));
      assert Typed(w.cont.body, codes', own + LocalSorts(w.binds), Rules(sl, true));
      Unwalk(body.cont.body, codes, codes', own + LocalSorts(body.binds), sl);
    } else {
      WalkedNoCaps(body, codes, own, Rules(sl, false));
      Unwalk(body, codes, codes', own, sl);
    }
  }

  lemma {:induction false} StrictChain(hs: seq<Definition>, root: Expr, codes: Codes, sl: Slots)
    requires Typed(Chain(hs, root), codes, map[], Rules(sl, true))
    ensures AllStrict(hs, sl) && exists codes' :: Typed(root, codes', map[], Rules(sl, true))
    decreases hs
  {
    if hs != [] {
      StrictChain(hs[1..], root, codes[hs[0].name.id := LayoutOf(hs[0].body)], sl);
      assert hs == [hs[0]] + hs[1..];
    }
  }

  /** Hoisting neither gains nor loses the cell of a write. */
  lemma HoistKeepsStrictness(root: Expr, sl: Slots)
    requires Typed(root, map[], map[], Rules(sl, false)) && Distinct(DefsOf(root))
    ensures Typed(HoistProgram(root), map[], map[], Rules(sl, true)) <==> Typed(root, map[], map[], Rules(sl, true))
  {
    if Typed(HoistProgram(root), map[], map[], Rules(sl, true)) {
      StrictChain(Hoisted(DefsOf(root)), Walked(root), map[], sl);
      var codes' :| Typed(Walked(root), codes', map[], Rules(sl, true));
      Unwalk(root, map[], codes', map[], sl);
    }
    if Typed(root, map[], map[], Rules(sl, true)) {
      HoistKeepsTyping(root, Rules(sl, true));
    }
  }
}
