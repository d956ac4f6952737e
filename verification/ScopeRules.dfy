/** The rules of name resolution, stated over the tree: what is visible at each name, and what a name then refers to.
    The analysis follows them. */
module ScopeRules {
  import opened Collections
  import opened ScopeAnalysis

  // ---- What is visible where ------------------------------------------------------------------------

  /** The names a scope shows at some place; of several that are alike the last one counts. */
  datatype Scope = Scope(isModule: bool, names: seq<Ident>)

  /** A name where it stands: the scopes around it, innermost first, and the binding whose value it is in. */
  datatype Place = Place(ident: Ident, scopes: seq<Scope>, defining: Option<AstId>)

  function Parts(p: Pattern): seq<Ident> {
    match p
    case Simple(i) => [i]
    case Destructured(idents) => idents
  }

  function AllParts(ps: seq<Pattern>): seq<Ident> {
    if ps == [] then [] else Parts(ps[0]) + AllParts(ps[1..])
  }

  /** The functions bound by name among the statements of a function or an arm: known to all of them. */
  function Hoisted(stmts: seq<Node>): seq<Ident> {
    if stmts == [] then []
    else (match stmts[0] case Bind(Simple(i), Fn(_, _)) => [i] case _ => []) + Hoisted(stmts[1..])
  }

  /** Everything bound by a statement of a module: known to the whole module. */
  function TopNames(stmts: seq<Node>): seq<Ident> {
    if stmts == [] then []
    else (match stmts[0] case Bind(lhs, _) => Parts(lhs) case _ => []) + TopNames(stmts[1..])
  }

  /** Whether a binding's names are known before it is reached. Only a statement's can be: any in a module, a function
      bound by name elsewhere. */
  predicate KnownBefore(lhs: Pattern, rhs: Node, inModule: bool, isStmt: bool) {
    isStmt && (inModule || (lhs.Simple? && rhs.Fn?))
  }

  /** Outside a module a plain name that is not known yet is there for its own value already. */
  function AddedBefore(lhs: Pattern, rhs: Node, inModule: bool, isStmt: bool): seq<Ident> {
    if !inModule && lhs.Simple? && !KnownBefore(lhs, rhs, inModule, isStmt) then Parts(lhs) else []
  }

  /** After its value come the parts of a pattern outside a module, and in a module a plain name that is not known yet;
      the parts of a pattern deeper in a module's statement are not bound at all. */
  function AddedAfter(lhs: Pattern, rhs: Node, inModule: bool, isStmt: bool): seq<Ident> {
    if lhs.Simple? == inModule && !KnownBefore(lhs, rhs, inModule, isStmt) then Parts(lhs) else []
  }

  /** The names that a node adds to the scope it is in, for what comes after it. */
  function Added(n: Node, inModule: bool, isStmt: bool): seq<Ident>
    decreases n
  {
    match n
    case Bind(lhs, rhs) =>
      AddedBefore(lhs, rhs, inModule, isStmt) + Added(rhs, inModule, false) + AddedAfter(lhs, rhs, inModule, isStmt)
    case Group(items) => AllAdded(items, inModule, false)
    case _ => []
  }

  function AllAdded(items: seq<Node>, inModule: bool, areStmts: bool): seq<Ident>
    decreases items
  {
    if items == [] then [] else Added(items[0], inModule, areStmts) + AllAdded(items[1..], inModule, areStmts)
  }

  function Adding(scopes: seq<Scope>, names: seq<Ident>): (r: seq<Scope>)
    requires scopes != []
    ensures r != [] && r[0].isModule == scopes[0].isModule
  {
    [scopes[0].(names := scopes[0].names + names)] + scopes[1..]
  }

  /** Every name below a node, in source order, with what is visible there. A value sees its own plain name; a function
      or an arm sees its parameters or its pattern and the functions among its statements. */
  function Places(n: Node, scopes: seq<Scope>, isStmt: bool, defining: Option<AstId>): seq<Place>
    requires scopes != []
    decreases n, 0
  {
    match n
    case Name(i) => [Place(i, scopes, defining)]
    case Bind(lhs, rhs) =>
      Places(rhs, Adding(scopes, AddedBefore(lhs, rhs, scopes[0].isModule, isStmt)), false,
             if lhs.Simple? then Some(lhs.ident.id) else defining)
    case Fn(params, body) => AllPlaces(body, [Scope(false, AllParts(params) + Hoisted(body))] + scopes, true, defining)
    case Arm(lhs, body) => AllPlaces(body, [Scope(false, Parts(lhs) + Hoisted(body))] + scopes, true, defining)
    case Group(items) => AllPlaces(items, scopes, false, defining)
  }

  function AllPlaces(items: seq<Node>, scopes: seq<Scope>, areStmts: bool, defining: Option<AstId>): seq<Place>
    requires scopes != []
    decreases items, 0
  {
    if items == [] then []
    else
      Places(items[0], scopes, areStmts, defining)
      + AllPlaces(items[1..], Adding(scopes, Added(items[0], scopes[0].isModule, areStmts)), areStmts, defining)
  }

  function ModulePlaces(stmts: seq<Node>): seq<Place> {
    AllPlaces(stmts, [Scope(true, TopNames(stmts))], true, None)
  }

  // ---- What a name refers to ------------------------------------------------------------------------

  /** The binding of a name that counts: the last of the nearest scope that shows one. */
  ghost predicate Decides(scopes: seq<Scope>, name: string, d: nat, k: nat) {
    && d < |scopes| && k < |scopes[d].names| && scopes[d].names[k].name == name
    && (forall j :: k < j < |scopes[d].names| ==> scopes[d].names[j].name != name)
    && forall e, j :: 0 <= e < d && 0 <= j < |scopes[e].names| ==> scopes[e].names[j].name != name
  }

  /** The module binding that counts stands after the name. */
  ghost predicate Late(p: Place, d: nat, k: nat)
    requires d < |p.scopes| && k < |p.scopes[d].names|
  {
    p.scopes[d].isModule && p.ident.id < p.scopes[d].names[k].id
  }

  /** The binding that counts can be reached: a late one only from a scope inside the module's. */
  ghost predicate Reached(p: Place, d: nat, k: nat) {
    Decides(p.scopes, p.ident.name, d, k) && (Late(p, d, k) ==> d > 0)
  }

  /** The binding at `b` is the identifier's. */
  predicate BoundAt(binds: seq<BindInfo>, b: nat, i: Ident) {
    b < |binds| && binds[b].name == i.name && binds[b].origin == FromAst(i.id)
  }

  ghost predicate RefersTo(binds: seq<BindInfo>, p: Place, r: RefInfo, d: nat, k: nat)
    requires d < |p.scopes| && k < |p.scopes[d].names|
  {
    var target := p.scopes[d].names[k];
    && r.target.Some? && BoundAt(binds, r.target.value, target) && r.depth == d
    && r.kind == if p.defining == Some(target.id) then SelfRef else if Late(p, d, k) then FwdRef else Ref
  }

  /** What no scope shows is a builtin, always by one and the same binding, or nothing. */
  ghost predicate FromOutside(builtins: seq<string>, binds: seq<BindInfo>, r: RefInfo) {
    && r.depth == 0
    && if r.ident.name in builtins then
         && r.kind == Ref && r.target.Some? && r.target.value < |binds|
         && binds[r.target.value].name == r.ident.name && binds[r.target.value].origin == FromBuiltin
         && forall j :: 0 <= j < r.target.value ==> binds[j].name != r.ident.name || binds[j].origin != FromBuiltin
       else r.kind == Unresolved && r.target == None
  }

  ghost predicate Right(builtins: seq<string>, binds: seq<BindInfo>, p: Place, r: RefInfo) {
    && r.ident == p.ident
    && (forall d: nat, k: nat :: Reached(p, d, k) ==> RefersTo(binds, p, r, d, k))
    && ((forall d: nat, k: nat :: !Reached(p, d, k)) ==> FromOutside(builtins, binds, r))
  }

  ghost predicate AllRight(builtins: seq<string>, binds: seq<BindInfo>, places: seq<Place>, refs: seq<RefInfo>) {
    |refs| == |places| && forall k :: 0 <= k < |refs| ==> Right(builtins, binds, places[k], refs[k])
  }

  lemma OneDecides(scopes: seq<Scope>, name: string, d: nat, k: nat, d': nat, k': nat)
    requires Decides(scopes, name, d, k) && Decides(scopes, name, d', k')
    ensures d == d' && k == k'
  {
    assert scopes[d].names[k].name == name && scopes[d'].names[k'].name == name;
  }

  // ---- Each identifier binds once -------------------------------------------------------------------

  function IdsOf(idents: seq<Ident>): (r: seq<AstId>)
    ensures |r| == |idents| && forall k :: 0 <= k < |r| ==> r[k] == idents[k].id
  {
    seq(|idents|, k requires 0 <= k < |idents| => idents[k].id)
  }

  /** The nodes at which a name is bound. */
  function BindingIds(n: Node): seq<AstId>
    decreases n, 0
  {
    match n
    case Name(_) => []
    case Bind(lhs, rhs) => IdsOf(Parts(lhs)) + BindingIds(rhs)
    case Fn(params, body) => IdsOf(AllParts(params)) + AllBindingIds(body)
    case Arm(lhs, body) => IdsOf(Parts(lhs)) + AllBindingIds(body)
    case Group(items) => AllBindingIds(items)
  }

  function AllBindingIds(items: seq<Node>): seq<AstId>
    decreases items, 0
  {
    if items == [] then [] else BindingIds(items[0]) + AllBindingIds(items[1..])
  }

  lemma NoDupParts(a: seq<AstId>, b: seq<AstId>)
    requires NoDup(a + b)
    ensures NoDup(a) && NoDup(b) && forall x :: x in a ==> x !in b
  {
    assert forall k :: 0 <= k < |a| ==> (a + b)[k] == a[k];
    assert forall k :: 0 <= k < |b| ==> (a + b)[|a| + k] == b[k];
  }

  // ---- The analysis follows the rules ---------------------------------------------------------------

  /** The environment of the analysis shows what the rules say. */
  ghost predicate Fits(env: Env, scopes: seq<Scope>, binds: seq<BindInfo>)
    decreases env
  {
    && scopes != [] && scopes[0].isModule == env.Module? && |env.bound| == |scopes[0].names|
    && (forall k :: 0 <= k < |env.bound| ==> FitsAt(env.bound[k], scopes[0].names[k], binds))
    && if env.Module? then |scopes| == 1 else Fits(env.outer, scopes[1..], binds)
  }

  ghost predicate FitsAt(b: Named, i: Ident, binds: seq<BindInfo>) {
    b.name == i.name && BoundAt(binds, b.bind, i)
  }

  lemma {:induction false} FitsOn(env: Env, scopes: seq<Scope>, binds: seq<BindInfo>, more: seq<BindInfo>)
    requires Fits(env, scopes, binds) && binds <= more
    ensures Fits(env, scopes, more)
    decreases env
  {
    forall k | 0 <= k < |env.bound|
      ensures FitsAt(env.bound[k], scopes[0].names[k], more)
    {
      assert FitsAt(env.bound[k], scopes[0].names[k], binds);
    }
    if env.Inner? {
      FitsOn(env.outer, scopes[1..], binds, more);
    }
  }

  /** The last of some names that is alike. */
  ghost predicate LastAlike(names: seq<Ident>, name: string, k: nat) {
    k < |names| && names[k].name == name && forall j :: k < j < |names| ==> names[j].name != name
  }

  lemma FitsHere(b: Named, i: Ident, binds: seq<BindInfo>)
    requires FitsAt(b, i, binds)
    ensures b.name == i.name && BoundAt(binds, b.bind, i)
  {
  }

  lemma {:induction false} LatestDecides(bound: seq<Named>, names: seq<Ident>, binds: seq<BindInfo>, name: string)
    requires |bound| == |names| && forall k :: 0 <= k < |bound| ==> FitsAt(bound[k], names[k], binds)
    ensures match LatestIn(bound, name)
            case None => forall k :: 0 <= k < |names| ==> names[k].name != name
            case Some(b) =>
              exists k: nat :: LastAlike(names, name, k) && BoundAt(binds, b, names[k])
    decreases bound
  {
    hide BoundAt, FitsAt;
    if bound != [] {
      var last := |bound| - 1;
      FitsHere(bound[last], names[last], binds);
      if bound[last].name == name {
        assert LastAlike(names, name, last);
      } else {
        LatestDecides(bound[..last], names[..last], binds, name);
        if LatestIn(bound, name).Some? {
          var b := LatestIn(bound, name).value;
          var k: nat :| LastAlike(names[..last], name, k) && BoundAt(binds, b, names[..last][k]);
          assert LastAlike(names, name, k);
        }
      }
    }
  }

  ghost predicate DecidesAs(scopes: seq<Scope>, name: string, f: Found, k: nat, binds: seq<BindInfo>) {
    && Decides(scopes, name, f.depth, k) && f.inModule == scopes[f.depth].isModule
    && BoundAt(binds, f.bind, scopes[f.depth].names[k])
  }

  lemma {:induction false} LookupDecides(env: Env, scopes: seq<Scope>, binds: seq<BindInfo>, name: string)
    requires Fits(env, scopes, binds)
    ensures match Lookup(env, name)
            case None => forall d: nat, k: nat :: !Decides(scopes, name, d, k)
            case Some(f) => exists k: nat :: DecidesAs(scopes, name, f, k, binds)
    decreases env
  {
    var names := scopes[0].names;
    LatestDecides(env.bound, names, binds, name);
    if LatestIn(env.bound, name).Some? {
      var b := LatestIn(env.bound, name).value;
      var k: nat :| LastAlike(names, name, k) && BoundAt(binds, b, names[k]);
      assert DecidesAs(scopes, name, Lookup(env, name).value, k, binds);
    } else if env.Inner? {
      LookupDecides(env.outer, scopes[1..], binds, name);
      NotHere(scopes, name);
      if Lookup(env.outer, name).Some? {
        var f := Lookup(env.outer, name).value;
        var k: nat :| DecidesAs(scopes[1..], name, f, k, binds);
        assert Decides(scopes, name, f.depth + 1, k);
        assert DecidesAs(scopes, name, Lookup(env, name).value, k, binds);
      }
    }
  }

  /** Past a scope that does not show the name the scopes around it decide. */
  lemma NotHere(scopes: seq<Scope>, name: string)
    requires scopes != [] && forall k :: 0 <= k < |scopes[0].names| ==> scopes[0].names[k].name != name
    ensures forall d: nat, k: nat :: Decides(scopes, name, d, k) <==> d > 0 && Decides(scopes[1..], name, d - 1, k)
  {
    forall d: nat, k: nat
      ensures Decides(scopes, name, d, k) <==> d > 0 && Decides(scopes[1..], name, d - 1, k)
    {
      if d > 0 && d < |scopes| {
        assert scopes[1..][d - 1] == scopes[d];
        if Decides(scopes, name, d, k) {
          forall e, j | 0 <= e < d - 1 && 0 <= j < |scopes[1..][e].names|
            ensures scopes[1..][e].names[j].name != name
          {
            assert scopes[1..][e] == scopes[e + 1];
          }
        }
        if Decides(scopes[1..], name, d - 1, k) {
          forall e, j | 0 <= e < d && 0 <= j < |scopes[e].names|
            ensures scopes[e].names[j].name != name
          {
            assert e > 0 ==> scopes[1..][e - 1] == scopes[e];
          }
        }
      }
    }
  }

  /** What walking part of the tree does: it keeps what it has, adds one reference for each name, and registers no
      identifiers but those bound there. */
  ghost predicate Walked(builtins: seq<string>, places: seq<Place>, ids: seq<AstId>, g: Progress, g': Progress) {
    && g.binds <= g'.binds && g.refs <= g'.refs && g'.current == g.current
    && AllRight(builtins, g'.binds, places, g'.refs[|g.refs|..])
    && forall id :: Registered(g'.binds, id) ==> Registered(g.binds, id) || id in ids
  }

  lemma RightOn(builtins: seq<string>, binds: seq<BindInfo>, more: seq<BindInfo>, p: Place, r: RefInfo)
    requires Right(builtins, binds, p, r) && binds <= more
    ensures Right(builtins, more, p, r)
  {
    forall d: nat, k: nat | Reached(p, d, k)
      ensures RefersTo(more, p, r, d, k)
    {
      assert RefersTo(binds, p, r, d, k);
    }
  }

  lemma RegisteredOn(binds: seq<BindInfo>, more: seq<BindInfo>, id: AstId)
    requires binds <= more
    ensures Registered(binds, id) ==> Registered(more, id)
  {
    if Registered(binds, id) {
      var k :| 0 <= k < |binds| && binds[k].origin == FromAst(id);
      assert more[k].origin == FromAst(id);
    }
  }

  lemma WalkedThen(builtins: seq<string>, p1: seq<Place>, ids1: seq<AstId>, p2: seq<Place>, ids2: seq<AstId>,
                   g: Progress, g1: Progress, g2: Progress)
    requires Walked(builtins, p1, ids1, g, g1) && Walked(builtins, p2, ids2, g1, g2)
    ensures Walked(builtins, p1 + p2, ids1 + ids2, g, g2)
  {
    hide Right, Registered;
    var r1, r2 := g1.refs[|g.refs|..], g2.refs[|g1.refs|..];
    assert g2.refs[|g.refs|..] == r1 + r2;
    forall k | 0 <= k < |r1 + r2|
      ensures Right(builtins, g2.binds, (p1 + p2)[k], (r1 + r2)[k])
    {
      if k < |r1| {
        RightOn(builtins, g1.binds, g2.binds, p1[k], r1[k]);
      }
    }
  }

  lemma NothingWalked(builtins: seq<string>, g: Progress)
    ensures Walked(builtins, [], [], g, g)
  {
  }

  lemma {:induction false} RegisterAllFits(env: Env, g: Progress, scopes: seq<Scope>, idents: seq<Ident>)
    requires Fits(env, scopes, g.binds)
    ensures var r := RegisterAll(env, g, idents);
            && Fits(r.0, Adding(scopes, idents), r.1.binds) && g.binds <= r.1.binds
            && r.1.refs == g.refs && r.1.current == g.current
            && forall id :: Registered(r.1.binds, id) <==> Registered(g.binds, id) || id in IdsOf(idents)
    decreases |idents|
  {
    if idents == [] {
      AddingNothing(scopes);
    } else {
      var r := Register(env, g, idents[0]);
      RegisterFits(env, g, scopes, idents[0]);
      RegisterAllFits(r.0, r.1, Adding(scopes, [idents[0]]), idents[1..]);
      assert Adding(Adding(scopes, [idents[0]]), idents[1..]) == Adding(scopes, idents) by {
        AddingTwice(scopes, [idents[0]], idents[1..]);
        assert [idents[0]] + idents[1..] == idents;
      }
      assert IdsOf(idents) == [idents[0].id] + IdsOf(idents[1..]);
    }
  }

  lemma AddingNothing(scopes: seq<Scope>)
    requires scopes != []
    ensures Adding(scopes, []) == scopes
  {
    assert scopes[0].names + [] == scopes[0].names;
  }

  lemma AddingTwice(scopes: seq<Scope>, a: seq<Ident>, b: seq<Ident>)
    requires scopes != []
    ensures Adding(Adding(scopes, a), b) == Adding(scopes, a + b)
  {
    assert scopes[0].names + a + b == scopes[0].names + (a + b);
  }

  lemma RegisterFits(env: Env, g: Progress, scopes: seq<Scope>, i: Ident)
    requires Fits(env, scopes, g.binds)
    ensures var r := Register(env, g, i);
            && Fits(r.0, Adding(scopes, [i]), r.1.binds) && g.binds <= r.1.binds
            && forall id :: Registered(r.1.binds, id) <==> Registered(g.binds, id) || id == i.id
  {
    var r := Register(env, g, i);
    FitsOn(env, scopes, g.binds, r.1.binds);
    assert r.1.binds[|g.binds|].origin == FromAst(i.id);
    forall id
      ensures Registered(r.1.binds, id) <==> Registered(g.binds, id) || id == i.id
    {
      RegisteredOn(g.binds, r.1.binds, id);
    }
    var scopes' := Adding(scopes, [i]);
    assert scopes'[1..] == scopes[1..];
  }

  lemma {:induction false} HoistedIs(env: Env, g: Progress, stmts: seq<Node>)
    ensures PreRegisterFns(env, g, stmts) == RegisterAll(env, g, Hoisted(stmts))
    decreases |stmts|
  {
    if stmts != [] {
      var own := match stmts[0] case Bind(Simple(i), Fn(_, _)) => [i] case _ => [];
      if own != [] {
        var r := Register(env, g, own[0]);
        HoistedIs(r.0, r.1, stmts[1..]);
        assert (own + Hoisted(stmts[1..]))[1..] == Hoisted(stmts[1..]);
      } else {
        HoistedIs(env, g, stmts[1..]);
        assert own + Hoisted(stmts[1..]) == Hoisted(stmts[1..]);
      }
    }
  }

  lemma {:induction false} PartsAre(params: seq<Pattern>)
    ensures ParamIdents(params) == AllParts(params)
  {
    if params != [] {
      PartsAre(params[1..]);
    }
  }

  lemma {:induction false} TopNamesAre(stmts: seq<Node>)
    ensures ModuleIdents(stmts) == TopNames(stmts)
  {
    if stmts != [] {
      TopNamesAre(stmts[1..]);
    }
  }

  /** A name is resolved as the rules say. */
  lemma ResolveRight(builtins: seq<string>, env: Env, g: Progress, i: Ident, scopes: seq<Scope>)
    requires Fits(env, scopes, g.binds)
    ensures var g' := Resolve(builtins, env, g, i);
            Walked(builtins, [Place(i, scopes, g.current)], [], g, g') && Fits(env, scopes, g'.binds)
  {
    var p, g' := Place(i, scopes, g.current), Resolve(builtins, env, g, i);
    LookupDecides(env, scopes, g.binds, i.name);
    var found := Lookup(env, i.name);
    if found.None? {
      FallbackRight(builtins, env, g, i, p);
    } else {
      var f := found.value;
      var k: nat :| DecidesAs(scopes, i.name, f, k, g.binds);
      FoundRight(builtins, env, g, i, p, f, k);
    }
    FitsOn(env, scopes, g.binds, g'.binds);
  }

  lemma FoundRight(builtins: seq<string>, env: Env, g: Progress, i: Ident, p: Place, f: Found, k: nat)
    requires p.ident == i && p.defining == g.current && Lookup(env, i.name) == Some(f)
    requires DecidesAs(p.scopes, i.name, f, k, g.binds)
    ensures Walked(builtins, [p], [], g, Resolve(builtins, env, g, i))
  {
    hide Lookup, Decides, Fallback;
    forall d: nat, j: nat | Decides(p.scopes, i.name, d, j)
      ensures d == f.depth && j == k
    {
      OneDecides(p.scopes, i.name, d, j, f.depth, k);
    }
    assert f.depth < |p.scopes| && k < |p.scopes[f.depth].names| by {
      DecidesIn(p.scopes, i.name, f.depth, k);
    }
    if Late(p, f.depth, k) && f.depth == 0 {
      FallbackRight(builtins, env, g, i, p);
    } else {
      var r := Resolve(builtins, env, g, i).refs[|g.refs|];
      assert RefersTo(g.binds, p, r, f.depth, k);
      assert Reached(p, f.depth, k);
      assert Right(builtins, g.binds, p, r);
    }
  }

  lemma DecidesIn(scopes: seq<Scope>, name: string, d: nat, k: nat)
    requires Decides(scopes, name, d, k)
    ensures d < |scopes| && k < |scopes[d].names|
  {
  }

  lemma FallbackRight(builtins: seq<string>, env: Env, g: Progress, i: Ident, p: Place)
    requires p.ident == i && forall d: nat, k: nat :: !Reached(p, d, k)
    ensures Walked(builtins, [p], [], g, Fallback(builtins, env, g, i))
  {
    hide Reached;
    var g' := Fallback(builtins, env, g, i);
    assert FromOutside(builtins, g'.binds, g'.refs[|g.refs|]);
    assert Right(builtins, g'.binds, p, g'.refs[|g.refs|]);
    forall id | Registered(g'.binds, id)
      ensures Registered(g.binds, id)
    {
    }
  }

  // What is registered before a node is reached.

  function Ahead(n: Node, inModule: bool, isStmt: bool): seq<Ident> {
    match n
    case Bind(lhs, rhs) => if KnownBefore(lhs, rhs, inModule, isStmt) then Parts(lhs) else []
    case _ => []
  }

  function AllAhead(items: seq<Node>, inModule: bool, areStmts: bool): seq<Ident> {
    if items == [] then [] else Ahead(items[0], inModule, areStmts) + AllAhead(items[1..], inModule, areStmts)
  }

  lemma {:induction false} AheadIs(items: seq<Node>)
    ensures AllAhead(items, true, true) == TopNames(items) && AllAhead(items, false, true) == Hoisted(items)
    decreases items
  {
    if items != [] {
      AheadIs(items[1..]);
    }
  }

  lemma {:induction false} NothingAhead(items: seq<Node>, inModule: bool)
    ensures AllAhead(items, inModule, false) == []
    decreases items
  {
    if items != [] {
      NothingAhead(items[1..], inModule);
    }
  }

  lemma {:induction false} AheadBinds(items: seq<Node>, inModule: bool, areStmts: bool)
    ensures forall i :: i in AllAhead(items, inModule, areStmts) ==> i.id in AllBindingIds(items)
    decreases items
  {
    if items != [] {
      AheadBinds(items[1..], inModule, areStmts);
      AheadBindsOne(items[0], inModule, areStmts);
    }
  }

  lemma AheadBindsOne(n: Node, inModule: bool, isStmt: bool)
    ensures forall i :: i in Ahead(n, inModule, isStmt) ==> i.id in BindingIds(n)
  {
    if n.Bind? {
      forall i | i in Parts(n.lhs)
        ensures i.id in BindingIds(n)
      {
        var k :| 0 <= k < |Parts(n.lhs)| && Parts(n.lhs)[k] == i;
        assert IdsOf(Parts(n.lhs))[k] == i.id;
      }
    }
  }

  /** Of these identifiers exactly those in `ahead` are registered. */
  ghost predicate Ready(binds: seq<BindInfo>, ids: seq<AstId>, ahead: seq<Ident>) {
    forall id :: id in ids ==> (Registered(binds, id) <==> id in IdsOf(ahead))
  }

  lemma {:induction false} NodeRight(builtins: seq<string>, env: Env, g: Progress, n: Node, isStmt: bool, scopes: seq<Scope>)
    requires Fits(env, scopes, g.binds) && NoDup(BindingIds(n))
    requires Ready(g.binds, BindingIds(n), Ahead(n, env.Module?, isStmt))
    ensures var (env', g') := WalkNode(builtins, env, g, n);
            && Walked(builtins, Places(n, scopes, isStmt, g.current), BindingIds(n), g, g')
            && Fits(env', Adding(scopes, Added(n, env.Module?, isStmt)), g'.binds)
    decreases n, 0
  {
    hide Walked, NoDup, Ready, Registered, Fits;
    assert scopes != [] && scopes[0].isModule == env.Module? by { FitsFirst(env, scopes, g.binds); }
    match n
    case Name(i) => ResolveRight(builtins, env, g, i, scopes); AddingNothing(scopes);
    case Bind(lhs, rhs) => ValueRight(builtins, env, g, lhs, rhs, isStmt, scopes);
    case Fn(params, body) => PartsAre(params); BodyRight(builtins, env, g, AllParts(params), body, scopes); AddingNothing(scopes);
    case Arm(lhs, body) => BodyRight(builtins, env, g, Parts(lhs), body, scopes); AddingNothing(scopes);
    case Group(items) => NothingAhead(items, env.Module?); ItemsRight(builtins, env, g, items, false, scopes);
  }

  lemma FitsFirst(env: Env, scopes: seq<Scope>, binds: seq<BindInfo>)
    requires Fits(env, scopes, binds)
    ensures scopes != [] && scopes[0].isModule == env.Module?
  {
  }

  lemma {:induction false} ItemsRight(builtins: seq<string>, env: Env, g: Progress, items: seq<Node>, areStmts: bool,
                                      scopes: seq<Scope>)
    requires Fits(env, scopes, g.binds) && NoDup(AllBindingIds(items))
    requires Ready(g.binds, AllBindingIds(items), AllAhead(items, env.Module?, areStmts))
    ensures var (env', g') := WalkAll(builtins, env, g, items);
            && Walked(builtins, AllPlaces(items, scopes, areStmts, g.current), AllBindingIds(items), g, g')
            && Fits(env', Adding(scopes, AllAdded(items, env.Module?, areStmts)), g'.binds)
    decreases items, 0
  {
    hide NoDup, Ready, Registered, Fits, Places, Added, WalkNode, Walked;
    FitsFirst(env, scopes, g.binds);
    if items == [] {
      AddingNothing(scopes);
      NothingWalked(builtins, g);
    } else {
      var n, rest := items[0], items[1..];
      var added := Added(n, env.Module?, areStmts);
      var ids, ids' := BindingIds(n), AllBindingIds(rest);
      var (env1, g1) := WalkNode(builtins, env, g, n);
      NoDupParts(ids, ids');
      ReadyParts(g.binds, items, env.Module?, areStmts);
      NodeRight(builtins, env, g, n, areStmts, scopes);
      var scopes1 := Adding(scopes, added);
      FitsFirst(env1, scopes1, g1.binds);
      ReadyOn(builtins, Places(n, scopes, areStmts, g.current), ids, g, g1, ids', AllAhead(rest, env.Module?, areStmts));
      ItemsRight(builtins, env1, g1, rest, areStmts, scopes1);
      AddingTwice(scopes, added, AllAdded(rest, env.Module?, areStmts));
      var (_, g2) := WalkAll(builtins, env1, g1, rest);
      WalkedKeeps(builtins, Places(n, scopes, areStmts, g.current), ids, g, g1);
      WalkedThen(builtins, Places(n, scopes, areStmts, g.current), ids, AllPlaces(rest, scopes1, areStmts, g.current), ids', g, g1, g2);
    }
  }

  lemma WalkedKeeps(builtins: seq<string>, places: seq<Place>, ids: seq<AstId>, g: Progress, g': Progress)
    requires Walked(builtins, places, ids, g, g')
    ensures g'.current == g.current && g.binds <= g'.binds
    ensures forall id :: Registered(g'.binds, id) ==> Registered(g.binds, id) || id in ids
  {
  }

  lemma IdsConcat(a: seq<Ident>, b: seq<Ident>)
    ensures IdsOf(a + b) == IdsOf(a) + IdsOf(b)
  {
  }

  /** What is ready for all is ready for the first and, once that is done, for the rest. */
  lemma ReadyParts(binds: seq<BindInfo>, items: seq<Node>, inModule: bool, areStmts: bool)
    requires items != [] && NoDup(AllBindingIds(items)) && Ready(binds, AllBindingIds(items), AllAhead(items, inModule, areStmts))
    ensures Ready(binds, BindingIds(items[0]), Ahead(items[0], inModule, areStmts))
    ensures Ready(binds, AllBindingIds(items[1..]), AllAhead(items[1..], inModule, areStmts))
  {
    hide Registered, Ahead, AllAhead, BindingIds, AllBindingIds;
    assert AllBindingIds(items) == BindingIds(items[0]) + AllBindingIds(items[1..]) by { BindingIdsCons(items); }
    assert AllAhead(items, inModule, areStmts) == Ahead(items[0], inModule, areStmts) + AllAhead(items[1..], inModule, areStmts) by {
      AheadCons(items, inModule, areStmts);
    }
    NoDupParts(BindingIds(items[0]), AllBindingIds(items[1..]));
    IdsConcat(Ahead(items[0], inModule, areStmts), AllAhead(items[1..], inModule, areStmts));
    AheadBindsOne(items[0], inModule, areStmts);
    AheadBinds(items[1..], inModule, areStmts);
  }

  lemma BindingIdsCons(items: seq<Node>)
    requires items != []
    ensures AllBindingIds(items) == BindingIds(items[0]) + AllBindingIds(items[1..])
  {
  }

  lemma AheadCons(items: seq<Node>, inModule: bool, areStmts: bool)
    requires items != []
    ensures AllAhead(items, inModule, areStmts) == Ahead(items[0], inModule, areStmts) + AllAhead(items[1..], inModule, areStmts)
  {
  }

  /** Walking one part registers nothing of another. */
  lemma ReadyOn(builtins: seq<string>, places: seq<Place>, ids: seq<AstId>, g: Progress, g': Progress, others: seq<AstId>,
                ahead: seq<Ident>)
    requires Walked(builtins, places, ids, g, g') && Ready(g.binds, others, ahead) && forall id :: id in ids ==> id !in others
    ensures Ready(g'.binds, others, ahead)
  {
    hide Registered;
    forall id | id in others
      ensures Registered(g'.binds, id) <==> Registered(g.binds, id)
    {
      RegisteredOn(g.binds, g'.binds, id);
    }
  }

  /** A function's or an arm's own scope. */
  lemma {:induction false} BodyRight(builtins: seq<string>, env: Env, g: Progress, idents: seq<Ident>, body: seq<Node>,
                                     scopes: seq<Scope>)
    requires Fits(env, scopes, g.binds) && NoDup(IdsOf(idents) + AllBindingIds(body))
    requires Ready(g.binds, IdsOf(idents) + AllBindingIds(body), [])
    ensures var r := RegisterAll(Inner(g.scopes, [], env), g.(scopes := g.scopes + 1), idents);
            var g' := WalkStmts(builtins, r.0, r.1, body).1;
            && Walked(builtins, AllPlaces(body, [Scope(false, idents + Hoisted(body))] + scopes, true, g.current),
                      IdsOf(idents) + AllBindingIds(body), g, g')
            && Fits(env, scopes, g'.binds)
    decreases body, 1
  {
    hide NoDup, Registered, Places, AllPlaces, WalkAll, Walked, Hoisted, AllBindingIds, Ready;
    var inner, g0 := Inner(g.scopes, [], env), g.(scopes := g.scopes + 1);
    var own := [Scope(false, [])] + scopes;
    var hoisted := Hoisted(body);
    assert own[1..] == scopes;
    RegisterAllFits(inner, g0, own, idents);
    var r := RegisterAll(inner, g0, idents);
    RegisterAllKeeps(inner, g0, idents);
    RegisterAllFits(r.0, r.1, Adding(own, idents), hoisted);
    HoistedIs(r.0, r.1, body);
    var s := RegisterAll(r.0, r.1, hoisted);
    RegisterAllKeeps(r.0, r.1, hoisted);
    AddingTwice(own, idents, hoisted);
    var all := [Scope(false, idents + hoisted)] + scopes;
    assert Adding(own, idents + hoisted) == all by { assert [] + (idents + hoisted) == idents + hoisted; }
    AheadIs(body);
    BodyReady(g.binds, r.1.binds, s.1.binds, idents, body);
    NoDupParts(IdsOf(idents), AllBindingIds(body));
    ItemsRight(builtins, s.0, s.1, body, true, all);
    var g' := WalkAll(builtins, s.0, s.1, body).1;
    AheadBinds(body, false, true);
    WalkedAfter(builtins, AllPlaces(body, all, true, g.current), IdsOf(idents), AllBindingIds(body), g, s.1, g', hoisted);
    WalkedKeeps(builtins, AllPlaces(body, all, true, g.current), AllBindingIds(body), s.1, g');
    FitsOn(env, scopes, g.binds, g'.binds);
  }

  lemma BodyReady(binds: seq<BindInfo>, binds1: seq<BindInfo>, binds2: seq<BindInfo>, idents: seq<Ident>, body: seq<Node>)
    requires NoDup(IdsOf(idents) + AllBindingIds(body)) && Ready(binds, IdsOf(idents) + AllBindingIds(body), [])
    requires forall id :: Registered(binds1, id) <==> Registered(binds, id) || id in IdsOf(idents)
    requires forall id :: Registered(binds2, id) <==> Registered(binds1, id) || id in IdsOf(Hoisted(body))
    ensures Ready(binds2, AllBindingIds(body), Hoisted(body))
  {
    hide Registered, AllBindingIds, Hoisted;
    NoDupParts(IdsOf(idents), AllBindingIds(body));
  }

  /** Walking after some registering. */
  lemma WalkedAfter(builtins: seq<string>, places: seq<Place>, ids: seq<AstId>, ids': seq<AstId>, g: Progress, s: Progress,
                    g': Progress, more: seq<Ident>)
    requires Walked(builtins, places, ids', s, g') && g.binds <= s.binds && s.refs == g.refs && s.current == g.current
    requires forall id :: Registered(s.binds, id) ==> Registered(g.binds, id) || id in ids || id in IdsOf(more)
    requires forall i :: i in more ==> i.id in ids'
    ensures Walked(builtins, places, ids + ids', g, g')
  {
    hide Registered, AllRight;
  }

  /** A binding: what it registers before its value, the value, and what it registers after it. */
  lemma {:induction false} ValueRight(builtins: seq<string>, env: Env, g: Progress, lhs: Pattern, rhs: Node, isStmt: bool,
                                      scopes: seq<Scope>)
    requires Fits(env, scopes, g.binds) && NoDup(BindingIds(Bind(lhs, rhs)))
    requires Ready(g.binds, BindingIds(Bind(lhs, rhs)), Ahead(Bind(lhs, rhs), env.Module?, isStmt))
    ensures var (env', g') := WalkBind(builtins, env, g, lhs, rhs);
            && Walked(builtins, Places(Bind(lhs, rhs), scopes, isStmt, g.current), BindingIds(Bind(lhs, rhs)), g, g')
            && Fits(env', Adding(scopes, Added(Bind(lhs, rhs), env.Module?, isStmt)), g'.binds)
    decreases rhs, 1
  {
    hide NoDup, Registered, WalkNode, Walked, Ready, WalkBind, RegisterAll, AddedBefore, AddedAfter, KnownBefore, Fits, AllRight;
    FitsFirst(env, scopes, g.binds);
    var inModule := env.Module?;
    var pre, post := AddedBefore(lhs, rhs, inModule, isStmt), AddedAfter(lhs, rhs, inModule, isStmt);
    var ids, ids' := IdsOf(Parts(lhs)), BindingIds(rhs);
    var g0 := Defining(g, lhs);
    var scopes0, added := Adding(scopes, pre), Added(rhs, inModule, false);
    RegisterAllFits(env, g0, scopes, pre);
    RegisterAllKeeps(env, g0, pre);
    var (env1, g1) := RegisterAll(env, g0, pre);
    ValueReady(g.binds, g1.binds, lhs, rhs, inModule, isStmt);
    NoDupParts(ids, ids');
    NodeRight(builtins, env1, g1, rhs, false, scopes0);
    var (env2, g2) := WalkNode(builtins, env1, g1, rhs);
    WalkedKeeps(builtins, Places(rhs, scopes0, false, g0.current), ids', g1, g2);
    var g3 := g2.(current := g.current);
    RegisterAllFits(env2, g3, Adding(scopes0, added), post);
    var (env4, g4) := RegisterAll(env2, g3, post);
    WalkBindIs(builtins, env, g, lhs, rhs, isStmt);
    PartsOnly(lhs, rhs, inModule, isStmt);
    WalkedBetween(builtins, Places(rhs, scopes0, false, g0.current), ids, ids', g, g1, g2, g4, pre, post);
    AddingTwice(scopes, pre, added);
    AddingTwice(scopes, pre + added, post);
  }

  /** While its value is walked, a plain binding is the one being defined. */
  function Defining(g: Progress, lhs: Pattern): Progress {
    g.(current := if lhs.Simple? then Some(lhs.ident.id) else g.current)
  }

  lemma PartsOnly(lhs: Pattern, rhs: Node, inModule: bool, isStmt: bool)
    ensures AddedBefore(lhs, rhs, inModule, isStmt) in {[], Parts(lhs)} && AddedAfter(lhs, rhs, inModule, isStmt) in {[], Parts(lhs)}
  {
  }

  lemma ValueReady(binds: seq<BindInfo>, binds1: seq<BindInfo>, lhs: Pattern, rhs: Node, inModule: bool, isStmt: bool)
    requires NoDup(IdsOf(Parts(lhs)) + BindingIds(rhs))
    requires Ready(binds, IdsOf(Parts(lhs)) + BindingIds(rhs), Ahead(Bind(lhs, rhs), inModule, isStmt))
    requires forall id :: Registered(binds1, id) <==> Registered(binds, id) || id in IdsOf(AddedBefore(lhs, rhs, inModule, isStmt))
    ensures Ready(binds1, BindingIds(rhs), Ahead(rhs, inModule, false))
  {
    hide Registered, BindingIds;
    NoDupParts(IdsOf(Parts(lhs)), BindingIds(rhs));
  }

  /** Walking between registering before and after. */
  lemma WalkedBetween(builtins: seq<string>, places: seq<Place>, ids: seq<AstId>, ids': seq<AstId>, g: Progress, g1: Progress,
                      g2: Progress, g4: Progress, pre: seq<Ident>, post: seq<Ident>)
    requires Walked(builtins, places, ids', g1, g2) && g.binds <= g1.binds && g2.binds <= g4.binds
    requires g1.refs == g.refs && g4.refs == g2.refs && g4.current == g.current
    requires forall id :: Registered(g1.binds, id) ==> Registered(g.binds, id) || id in IdsOf(pre)
    requires forall id :: Registered(g4.binds, id) ==> Registered(g2.binds, id) || id in IdsOf(post)
    requires forall id :: id in IdsOf(pre) || id in IdsOf(post) ==> id in ids
    ensures Walked(builtins, places, ids + ids', g, g4)
  {
    hide Registered, Right;
    var refs := g4.refs[|g.refs|..];
    forall k | 0 <= k < |refs|
      ensures Right(builtins, g4.binds, places[k], refs[k])
    {
      RightOn(builtins, g2.binds, g4.binds, places[k], refs[k]);
    }
  }

  /** The analysis of a binding registers what is not known already, before or after the value. */
  lemma WalkBindIs(builtins: seq<string>, env: Env, g: Progress, lhs: Pattern, rhs: Node, isStmt: bool)
    requires NoDup(BindingIds(Bind(lhs, rhs)))
    requires Ready(g.binds, BindingIds(Bind(lhs, rhs)), Ahead(Bind(lhs, rhs), env.Module?, isStmt))
    requires var pre := AddedBefore(lhs, rhs, env.Module?, isStmt);
             var (env1, g1) := RegisterAll(env, Defining(g, lhs), pre);
             var g2 := WalkNode(builtins, env1, g1, rhs).1;
             && g1.binds <= g2.binds
             && (forall id :: Registered(g1.binds, id) <==> Registered(g.binds, id) || id in IdsOf(pre))
             && forall id :: Registered(g2.binds, id) ==> Registered(g1.binds, id) || id in BindingIds(rhs)
    ensures var (env1, g1) := RegisterAll(env, Defining(g, lhs), AddedBefore(lhs, rhs, env.Module?, isStmt));
            var (env2, g2) := WalkNode(builtins, env1, g1, rhs);
            WalkBind(builtins, env, g, lhs, rhs)
            == RegisterAll(env2, g2.(current := g.current), AddedAfter(lhs, rhs, env.Module?, isStmt))
  {
    hide Registered, WalkNode;
    NoDupParts(IdsOf(Parts(lhs)), BindingIds(rhs));
    if lhs.Simple? {
      var id := lhs.ident.id;
      assert IdsOf(Parts(lhs)) == [id];
      assert id in BindingIds(Bind(lhs, rhs));
      var (env1, g1) := RegisterAll(env, Defining(g, lhs), AddedBefore(lhs, rhs, env.Module?, isStmt));
      var (env2, g2) := WalkNode(builtins, env1, g1, rhs);
      RegisteredOn(g1.binds, g2.binds, id);
      OneRegistered(env, Defining(g, lhs), lhs.ident);
      OneRegistered(env2, g2.(current := g.current), lhs.ident);
    }
  }

  lemma OneRegistered(env: Env, g: Progress, i: Ident)
    ensures RegisterAll(env, g, [i]) == Register(env, g, i)
  {
    assert [i][1..] == [];
  }

  /** The analysis resolves every name of a module as the rules say, one reference for each name in source order.
      Identifiers are nodes of the syntax tree, so each binds once. */
  lemma ModuleResolved(builtins: seq<string>, stmts: seq<Node>)
    requires NoDup(AllBindingIds(stmts))
    ensures var a := Analyse(builtins, stmts);
            AllRight(builtins, a.binds, ModulePlaces(stmts), a.refs)
  {
    hide NoDup, Registered, Places, AllPlaces, WalkAll, Fits;
    var env, g := Module([]), Progress([], 1, [], None);
    assert Fits(env, [Scope(true, [])], g.binds) by { NothingFits(); }
    TopNamesAre(stmts);
    var names := TopNames(stmts);
    RegisterAllFits(env, g, [Scope(true, [])], names);
    RegisterAllKeeps(env, g, names);
    var (env1, g1) := RegisterAll(env, g, names);
    assert Adding([Scope(true, [])], names) == [Scope(true, names)] by { assert [] + names == names; }
    AheadIs(stmts);
    NothingRegistered();
    ItemsRight(builtins, env1, g1, stmts, true, [Scope(true, names)]);
    var a := Analyse(builtins, stmts);
    assert a.refs[|g1.refs|..] == a.refs;
  }

  /** The analysis with one name stack computes this: the references and bindings of the lexical analysis, and so the
      references that the rules call for. */
  method AnalyseModule(builtins: seq<string>, stmts: seq<Node>) returns (refs: seq<RefInfo>, binds: seq<BindInfo>)
    ensures refs == Analyse(builtins, stmts).refs && binds == Analyse(builtins, stmts).binds
    ensures NoDup(AllBindingIds(stmts)) ==> AllRight(builtins, binds, ModulePlaces(stmts), refs)
  {
    hide AllRight, NoDup, AllBindingIds, ModulePlaces;
    var a := new Analyser(builtins);
    a.scopes := [ScopeInfo(true, None)];
    ghost var env := Module([]);
    assert a.At(env);
    env := a.PushAll(MODULE, ModuleIdents(stmts), env);
    RegisterAllKeeps(Module([]), Progress([], 1, [], None), ModuleIdents(stmts));
    env := a.WalkBody(stmts, MODULE, env);
    refs, binds := a.refs, a.binds;
    if NoDup(AllBindingIds(stmts)) {
      ModuleResolved(builtins, stmts);
    }
  }

  lemma NothingFits()
    ensures Fits(Module([]), [Scope(true, [])], [])
  {
  }

  lemma NothingRegistered()
    ensures forall id :: !Registered([], id)
  {
  }

  /** When a reference is of which kind. */
  lemma Kinds(builtins: seq<string>, binds: seq<BindInfo>, p: Place, r: RefInfo)
    requires Right(builtins, binds, p, r)
    ensures r.kind == SelfRef <==>
            exists d: nat, k: nat :: Reached(p, d, k) && p.defining == Some(p.scopes[d].names[k].id)
    ensures r.kind == FwdRef <==>
            exists d: nat, k: nat :: Reached(p, d, k) && Late(p, d, k) && p.defining != Some(p.scopes[d].names[k].id)
    ensures r.kind == Unresolved <==> p.ident.name !in builtins && forall d: nat, k: nat :: !Reached(p, d, k)
    ensures r.kind == Ref <==>
            || (exists d: nat, k: nat :: Reached(p, d, k) && !Late(p, d, k) && p.defining != Some(p.scopes[d].names[k].id))
            || (p.ident.name in builtins && forall d: nat, k: nat :: !Reached(p, d, k))
  {
    if d: nat, k: nat :| Reached(p, d, k) {
      assert RefersTo(binds, p, r, d, k);
      forall d': nat, k': nat | Reached(p, d', k')
        ensures d' == d && k' == k
      {
        OneDecides(p.scopes, p.ident.name, d, k, d', k');
      }
    } else {
      assert FromOutside(builtins, binds, r);
    }
  }
}
