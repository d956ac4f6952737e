/** The function definitions of a program, nested ones first, and the table they make. */
module Definitions {
  import opened Collections
  import opened CpsIr
  import opened FreeVars
  import opened Convert
  import opened ConvertInput
  import opened Machine
  import FlatMachine

  datatype Definition = Definition(id: CpsId, name: BindNode, params: seq<Param>, fnKind: FnKind, body: Expr)

  /** Every `LetFn` of the tree once, each after the ones inside its body. */
  function DefsOf(e: Expr): seq<Definition>
    decreases e
  {
    match e
    case LetVal(_, _, _, cont) => DefsOfCont(cont)
    case LetFn(id, name, params, fnKind, body, cont) =>
      DefsOf(body) + [Definition(id, name, params, fnKind, body)] + DefsOfCont(cont)
    case App(_, _, args) => DefsOfArgs(args)
    case If(_, _, thn, els) => DefsOf(thn) + DefsOf(els)
    case LetRec(_, _, body) => DefsOf(body)
    case Set(_, _, _, cont) => DefsOfCont(cont)
    case Closure(_, _, _, cont) => DefsOfCont(cont)
    case LetCaps(_, _, _, cont) => DefsOfCont(cont)
  }

  function DefsOfCont(c: Cont): seq<Definition>
    decreases c
  {
    if c.Inline? then DefsOf(c.body) else []
  }

  function DefsOfArgs(args: List<Arg>): seq<Definition>
    decreases args
  {
    match args
    case Nil => []
    case Cons(a, rest) => DefsOfArg(a) + DefsOfArgs(rest)
  }

  function DefsOfArg(a: Arg): seq<Definition>
    decreases a
  {
    match a
    case ArgCont(c) => DefsOfCont(c)
    case ArgExpr(e) => DefsOf(e)
    case _ => []
  }

  function TableFrom(ds: seq<Definition>): FlatMachine.FnTable {
    if ds == [] then map[]
    else TableFrom(ds[1..])[ds[0].name.id := FnDef(ds[0].params, ds[0].body)]
  }

  /** What a converted program means: it runs with its own definitions as the table. */
  function FlatMeaning(rt: Runtime, fuel: nat, e: Expr, ctx: Value, sh: Shared): Result {
    FlatMachine.Eval(rt, TableFrom(DefsOf(e)), fuel, e, map[], ctx, sh, [])
  }

  ghost predicate Distinct(ds: seq<Definition>) {
    forall i, j :: 0 <= i < j < |ds| ==> ds[i].name.id != ds[j].name.id
  }

  /** Distinct names, all in a range of ids. */
  ghost predicate FreshDefs(ds: seq<Definition>, lo: nat, hi: nat) {
    Distinct(ds) && forall d :: d in ds ==> lo <= d.name.id < hi
  }

  ghost predicate TableHas(table: FlatMachine.FnTable, d: Definition) {
    d.name.id in table && table[d.name.id] == FnDef(d.params, d.body)
  }

  lemma {:induction false} TableHolds(ds: seq<Definition>)
    requires Distinct(ds)
    ensures forall d :: d in ds ==> TableHas(TableFrom(ds), d)
    ensures forall x :: x in TableFrom(ds) ==> exists d :: d in ds && d.name.id == x
  {
    if ds != [] {
      TableHolds(ds[1..]);
      forall d | d in ds
        ensures TableHas(TableFrom(ds), d)
      {
        var i :| 0 <= i < |ds| && ds[i] == d;
        if i > 0 {
          assert d in ds[1..] && TableHas(TableFrom(ds[1..]), d);
          assert d.name.id != ds[0].name.id;
        }
      }
      forall x | x in TableFrom(ds)
        ensures exists d :: d in ds && d.name.id == x
      {
        if x == ds[0].name.id {
          assert ds[0] in ds;
        } else {
          var d :| d in ds[1..] && d.name.id == x;
          assert d in ds;
        }
      }
    }
  }

  lemma {:induction false} CoversAll(table: FlatMachine.FnTable, e: Expr)
    requires forall d :: d in DefsOf(e) ==> TableHas(table, d)
    ensures Covers(table, e)
    decreases e
  {
    match e
    case LetVal(_, _, _, cont) => CoversAllCont(table, cont);
    case LetFn(id, name, params, fnKind, body, cont) =>
      var d := Definition(id, name, params, fnKind, body);
      assert d in DefsOf(e) && TableHas(table, d);
      CoversAll(table, body);
      CoversAllCont(table, cont);
    case App(_, _, args) => CoversAllArgs(table, args);
    case If(_, _, thn, els) =>
      CoversAll(table, thn);
      CoversAll(table, els);
    case LetRec(_, _, body) => CoversAll(table, body);
    case Set(_, _, _, cont) => CoversAllCont(table, cont);
    case Closure(_, _, _, cont) => CoversAllCont(table, cont);
    case LetCaps(_, _, _, cont) => CoversAllCont(table, cont);
  }

  lemma {:induction false} CoversAllCont(table: FlatMachine.FnTable, c: Cont)
    requires forall d :: d in DefsOfCont(c) ==> TableHas(table, d)
    ensures CoversCont(table, c)
    decreases c
  {
    if c.Inline? {
      CoversAll(table, c.body);
    }
  }

  lemma {:induction false} CoversAllArgs(table: FlatMachine.FnTable, args: List<Arg>)
    requires forall d :: d in DefsOfArgs(args) ==> TableHas(table, d)
    ensures CoversArgs(table, args)
    decreases args
  {
    match args
    case Nil =>
    case Cons(a, rest) =>
      CoversAllArgs(table, rest);
      assert forall d :: d in DefsOfArg(a) ==> d in DefsOfArgs(args);
      match a
      case ArgCont(c) => CoversAllCont(table, c);
      case ArgExpr(e) => CoversAll(table, e);
      case _ =>
  }

  // ---- The definitions conversion makes -------------------------------------------------------

  /** Renaming a body leaves its definitions alone. */
  lemma {:induction false} RenameDefinitions(e: Expr, ren: Renaming)
    ensures DefsOf(Rename(e, ren)) == DefsOf(e)
    decreases e
  {
    match e
    case LetVal(_, _, _, cont) => RenameDefinitionsCont(cont, ren);
    case LetFn(_, _, _, _, _, cont) => RenameDefinitionsCont(cont, ren);
    case App(_, func, args) => RenameDefinitionsArgs(args, ren, func == CallBuiltIn(Pub), 0);
    case If(_, _, thn, els) =>
      RenameDefinitions(thn, ren);
      RenameDefinitions(els, ren);
    case LetRec(_, _, body) => RenameDefinitions(body, ren);
    case Set(_, _, _, cont) => RenameDefinitionsCont(cont, ren);
    case Closure(_, _, _, cont) => RenameDefinitionsCont(cont, ren);
    case LetCaps(_, _, _, cont) => RenameDefinitionsCont(cont, ren);
  }

  lemma {:induction false} RenameDefinitionsCont(c: Cont, ren: Renaming)
    ensures DefsOfCont(RenameCont(c, ren)) == DefsOfCont(c)
    decreases c
  {
    if c.Inline? {
      RenameDefinitions(c.body, ren);
    }
  }

  lemma {:induction false} RenameDefinitionsArgs(args: List<Arg>, ren: Renaming, isPub: bool, index: nat)
    ensures DefsOfArgs(RenameArgs(args, ren, isPub, index)) == DefsOfArgs(args)
    decreases args
  {
    match args
    case Nil =>
    case Cons(a, rest) =>
      RenameDefinitionsArgs(rest, ren, isPub, index + 1);
      match a
      case ArgCont(c) => RenameDefinitionsCont(c, ren);
      case ArgExpr(e) => RenameDefinitions(e, ren);
      case _ =>
  }

  lemma FreshConcat(a: seq<Definition>, b: seq<Definition>, lo: nat, mid: nat, hi: nat)
    requires lo <= mid <= hi && FreshDefs(a, lo, mid) && FreshDefs(b, mid, hi)
    ensures FreshDefs(a + b, lo, hi)
  {
  }

  /** Every definition of a converted tree is named by an id of its own, handed out on the way. */
  lemma {:induction false} ConvertedDefs(snap: Snapshot, e: Expr, stack: CtxStack, next: nat)
    ensures var r := ConvertExpr(snap, e, stack, next); FreshDefs(DefsOf(r.0), next, r.1)
    decreases e
  {
    match e
    case LetVal(_, _, _, cont) => ConvertedDefsCont(snap, cont, stack, next);
    case LetFn(id, name, params, fnKind, body, cont) =>
      var b := ConvertExpr(snap, body, Enter(params, stack), next);
      var c := ConvertCont(snap, cont, stack, b.1);
      ConvertedDefs(snap, body, Enter(params, stack), next);
      ConvertedDefsCont(snap, cont, stack, b.1);
      LiftedDefs(snap, id, name, params, fnKind, b.0, c.0, stack, Collect(b.0, ParamIds(params), []), next, b.1, c.1);
    case App(_, _, args) => ConvertedDefsArgs(snap, args, stack, next);
    case If(_, _, thn, els) =>
      var t := ConvertExpr(snap, thn, stack, next);
      var f := ConvertExpr(snap, els, stack, t.1);
      ConvertedDefs(snap, thn, stack, next);
      ConvertedDefs(snap, els, stack, t.1);
      FreshConcat(DefsOf(t.0), DefsOf(f.0), next, t.1, f.1);
    case LetRec(_, _, body) => ConvertedDefs(snap, body, stack, next);
    case Set(_, _, _, cont) => ConvertedDefsCont(snap, cont, stack, next);
    case Closure(_, _, _, cont) => ConvertedDefsCont(snap, cont, stack, next);
    case LetCaps(_, _, _, cont) => ConvertedDefsCont(snap, cont, stack, next);
  }

  lemma LiftedDefs(snap: Snapshot, id: CpsId, name: BindNode, params: seq<Param>, fnKind: FnKind, body: Expr, cont: Cont,
                   stack: CtxStack, frees: seq<CpsId>, lo: nat, mid: nat, next: nat)
    requires lo <= mid <= next && FreshDefs(DefsOf(body), lo, mid) && FreshDefs(DefsOfCont(cont), mid, next)
    ensures var r := LiftFn(snap, id, name, params, fnKind, body, cont, stack, frees, next);
            FreshDefs(DefsOf(r.0), lo, r.1)
  {
    var r := LiftFn(snap, id, name, params, fnKind, body, cont, stack, frees, next);
    var own := LiftedDef(snap, params, body, frees, next).body;
    LiftedBodyDefs(snap, params, body, frees, next);
    var k := ClosureCont(name, cont, stack, LiftedId(frees, next) + 2).0;
    ClosureContDefs(name, cont, stack, LiftedId(frees, next) + 2);
    var lifted := Definition(id, r.0.name, r.0.params, fnKind, r.0.fnBody);
    assert r.0.fnBody == own;
    assert DefsOf(r.0) == DefsOf(own) + [lifted] + DefsOfCont(r.0.cont);
    assert DefsOfCont(r.0.cont) == DefsOf(r.0.cont.body) == DefsOfCont(k);
  }

  lemma LiftedBodyDefs(snap: Snapshot, params: seq<Param>, body: Expr, frees: seq<CpsId>, first: nat)
    ensures DefsOf(LiftedDef(snap, params, body, frees, first).body) == DefsOf(body)
  {
    var ren := RenamingTo(frees, first);
    RenameDefinitions(body, ren);
    if frees != [] {
      assert DefsOfCont(Inline([], Rename(body, ren))) == DefsOf(Rename(body, ren));
    }
  }

  lemma ClosureContDefs(name: BindNode, cont: Cont, stack: CtxStack, next: nat)
    ensures DefsOfCont(ClosureCont(name, cont, stack, next).0) == DefsOfCont(cont)
  {
    if cont.ContTo? && stack != [] {
      var call := ForwardCall(cont.target, stack[|stack| - 1], name.id, next);
      assert DefsOfArgs(call.args) == DefsOfArg(call.args.head) + DefsOfArgs(call.args.tail);
      assert DefsOfArgs(call.args.tail) == [];
      assert DefsOf(call) == [];
    }
  }

  lemma {:induction false} ConvertedDefsCont(snap: Snapshot, c: Cont, stack: CtxStack, next: nat)
    ensures var r := ConvertCont(snap, c, stack, next); FreshDefs(DefsOfCont(r.0), next, r.1)
    decreases c
  {
    if c.Inline? {
      ConvertedDefs(snap, c.body, stack, next);
    }
  }

  lemma {:induction false} ConvertedDefsArgs(snap: Snapshot, args: List<Arg>, stack: CtxStack, next: nat)
    ensures var r := ConvertArgs(snap, args, stack, next); FreshDefs(DefsOfArgs(r.0), next, r.1)
    decreases args
  {
    match args
    case Nil =>
    case Cons(a, rest) =>
      var h := ConvertArg(snap, a, stack, next);
      var t := ConvertArgs(snap, rest, stack, h.1);
      match a {
        case ArgCont(c) => ConvertedDefsCont(snap, c, stack, next);
        case ArgExpr(e) => ConvertedDefs(snap, e, stack, next);
        case _ =>
      }
      ConvertedDefsArgs(snap, rest, stack, h.1);
      FreshConcat(DefsOfArg(h.0), DefsOfArgs(t.0), next, h.1, t.1);
  }

  /** So the table of a converted program holds each of its definitions. */
  lemma ConvertedCovered(root: Expr, next: nat)
    ensures var out := ConvertProgram(root, next).0; Covers(TableFrom(DefsOf(out)), out)
  {
    var out := ConvertProgram(root, next).0;
    ConvertedDefs(SnapshotOf(root), root, [], next);
    TableHolds(DefsOf(out));
    CoversAll(TableFrom(DefsOf(out)), out);
  }
}
