/** Name resolution: one stack of names that scopes push to and are swept out of, against lookup in
    lexical environments. Modelled are names, bindings, functions, match arms and whatever only groups
    them; guards inside patterns and type bodies are not. */
module ScopeAnalysis {
  import opened Collections

  type AstId = nat

  datatype Ident = Ident(id: AstId, name: string)

  datatype Pattern = Simple(ident: Ident) | Destructured(idents: seq<Ident>)

  datatype Node =
    | Name(ident: Ident)
    | Bind(lhs: Pattern, rhs: Node)
    | Fn(params: seq<Pattern>, body: seq<Node>)
    | Arm(lhs: Pattern, body: seq<Node>)
    | Group(items: seq<Node>)

  datatype Origin = FromAst(id: AstId) | FromBuiltin

  datatype BindInfo = BindInfo(scope: nat, name: string, origin: Origin)

  datatype RefKind = Ref | FwdRef | SelfRef | Unresolved

  /** A reference, what it resolves to and how many scopes up that is. */
  datatype RefInfo = RefInfo(ident: Ident, kind: RefKind, target: Option<nat>, depth: nat)

  function IdentsOf(p: Pattern): seq<Ident> {
    match p
    case Simple(i) => [i]
    case Destructured(idents) => idents
  }

  // ---- Lexical environments ---------------------------------------------------------------------------

  /** The scopes around a place, innermost outermost-constructor, each with what it has bound so far. */
  datatype Env = Module(bound: seq<Named>) | Inner(scope: nat, bound: seq<Named>, outer: Env)

  datatype Named = Named(name: string, bind: nat)

  const MODULE: nat := 0

  function ScopeOf(env: Env): nat {
    if env.Module? then MODULE else env.scope
  }

  /** The latest binding of a name in one scope. */
  function LatestIn(bound: seq<Named>, name: string): Option<nat> {
    if bound == [] then None
    else if bound[|bound| - 1].name == name then Some(bound[|bound| - 1].bind)
    else LatestIn(bound[..|bound| - 1], name)
  }

  datatype Found = Found(bind: nat, depth: nat, inModule: bool)

  /** The nearest enclosing scope that binds the name decides, by its latest binding of it. */
  function Lookup(env: Env, name: string): Option<Found> {
    match LatestIn(env.bound, name)
    case Some(b) => Some(Found(b, 0, env.Module?))
    case None =>
      if env.Module? then None
      else
        match Lookup(env.outer, name)
        case None => None
        case Some(f) => Some(f.(depth := f.depth + 1))
  }

  function WithName(env: Env, n: Named): Env {
    env.(bound := env.bound + [n])
  }

  // ---- The analysis, lexically --------------------------------------------------------------------------

  /** What grows during the analysis: bindings, the number of scopes made, the references met; and the
      binding being defined. */
  datatype Progress = Progress(binds: seq<BindInfo>, scopes: nat, refs: seq<RefInfo>, current: Option<AstId>)

  function Register(env: Env, g: Progress, i: Ident): (Env, Progress) {
    (WithName(env, Named(i.name, |g.binds|)), g.(binds := g.binds + [BindInfo(ScopeOf(env), i.name, FromAst(i.id))]))
  }

  function RegisterAll(env: Env, g: Progress, idents: seq<Ident>): (Env, Progress)
    decreases |idents|
  {
    if idents == [] then (env, g)
    else
      var r := Register(env, g, idents[0]);
      RegisterAll(r.0, r.1, idents[1..])
  }

  predicate Registered(binds: seq<BindInfo>, id: AstId) {
    exists i :: 0 <= i < |binds| && binds[i].origin == FromAst(id)
  }

  predicate IsBuiltin(b: BindInfo, name: string) {
    b.name == name && b.origin.FromBuiltin?
  }

  /** The first binding made for a builtin, if any. */
  function BuiltinBind(binds: seq<BindInfo>, name: string): (r: Option<nat>)
    ensures r.Some? ==> r.value < |binds| && IsBuiltin(binds[r.value], name)
    ensures r.Some? ==> forall i :: 0 <= i < r.value ==> !IsBuiltin(binds[i], name)
    ensures r.None? ==> forall i :: 0 <= i < |binds| ==> !IsBuiltin(binds[i], name)
  {
    if binds == [] then None
    else
      match BuiltinBind(binds[..|binds| - 1], name)
      case Some(b) => Some(b)
      case None => if IsBuiltin(binds[|binds| - 1], name) then Some(|binds| - 1) else None
  }

  function AddRef(g: Progress, r: RefInfo): Progress {
    g.(refs := g.refs + [r])
  }

  /** A builtin, or nothing. */
  function Fallback(builtins: seq<string>, env: Env, g: Progress, i: Ident): Progress {
    if i.name !in builtins then AddRef(g, RefInfo(i, Unresolved, None, 0))
    else
      match BuiltinBind(g.binds, i.name)
      case Some(b) => AddRef(g, RefInfo(i, Ref, Some(b), 0))
      case None => AddRef(g.(binds := g.binds + [BindInfo(ScopeOf(env), i.name, FromBuiltin)]), RefInfo(i, Ref, Some(|g.binds|), 0))
  }

  function OriginOf(g: Progress, b: nat): Origin {
    if b < |g.binds| then g.binds[b].origin else FromBuiltin
  }

  /** A module binding that stands after its reference can only be reached from an inner scope. */
  function Resolve(builtins: seq<string>, env: Env, g: Progress, i: Ident): Progress {
    match Lookup(env, i.name)
    case None => Fallback(builtins, env, g, i)
    case Some(f) =>
      var origin := OriginOf(g, f.bind);
      var forward := f.inModule && origin.FromAst? && i.id < origin.id;
      if forward && f.depth == 0 then Fallback(builtins, env, g, i)
      else
        var kind := if origin.FromAst? && g.current == Some(origin.id) then SelfRef else if forward then FwdRef else Ref;
        AddRef(g, RefInfo(i, kind, Some(f.bind), f.depth))
  }

  /** Functions bound by name among the statements of an inner scope are known to all of them. */
  function PreRegisterFns(env: Env, g: Progress, stmts: seq<Node>): (Env, Progress)
    decreases |stmts|
  {
    if stmts == [] then (env, g)
    else
      var r := if stmts[0].Bind? && stmts[0].lhs.Simple? && stmts[0].rhs.Fn? then Register(env, g, stmts[0].lhs.ident) else (env, g);
      PreRegisterFns(r.0, r.1, stmts[1..])
  }

  function WalkNode(builtins: seq<string>, env: Env, g: Progress, n: Node): (r: (Env, Progress))
    decreases n, 0
  {
    match n
    case Name(i) => (env, Resolve(builtins, env, g, i))
    case Bind(lhs, rhs) => WalkBind(builtins, env, g, lhs, rhs)
    case Fn(params, body) =>
      var inner := Inner(g.scopes, [], env);
      var p := RegisterAll(inner, g.(scopes := g.scopes + 1), ParamIdents(params));
      (env, WalkStmts(builtins, p.0, p.1, body).1)
    case Arm(lhs, body) =>
      var inner := Inner(g.scopes, [], env);
      var p := RegisterAll(inner, g.(scopes := g.scopes + 1), IdentsOf(lhs));
      (env, WalkStmts(builtins, p.0, p.1, body).1)
    case Group(items) => WalkAll(builtins, env, g, items)
  }

  function ParamIdents(params: seq<Pattern>): seq<Ident> {
    if params == [] then [] else IdentsOf(params[0]) + ParamIdents(params[1..])
  }

  /** A name is known in its own right-hand side, except in a module where it is known already; the parts
      of a destructured value are known afterwards. */
  function WalkBind(builtins: seq<string>, env: Env, g: Progress, lhs: Pattern, rhs: Node): (r: (Env, Progress))
    decreases rhs, 1
  {
    var known := !env.Module? && lhs.Simple?;
    var g0 := if lhs.Simple? then g.(current := Some(lhs.ident.id)) else g;
    var r0 := if known && !Registered(g.binds, lhs.ident.id) then Register(env, g0, lhs.ident) else (env, g0);
    var r1 := WalkNode(builtins, r0.0, r0.1, rhs);
    var r2 := (r1.0, r1.1.(current := g.current));
    if env.Module? || known then
      if lhs.Simple? && !Registered(r2.1.binds, lhs.ident.id) then Register(r2.0, r2.1, lhs.ident) else r2
    else RegisterAll(r2.0, r2.1, IdentsOf(lhs))
  }

  function WalkStmts(builtins: seq<string>, env: Env, g: Progress, stmts: seq<Node>): (r: (Env, Progress))
    decreases stmts, 1
  {
    var r := if env.Module? then (env, g) else PreRegisterFns(env, g, stmts);
    WalkAll(builtins, r.0, r.1, stmts)
  }

  function WalkAll(builtins: seq<string>, env: Env, g: Progress, items: seq<Node>): (r: (Env, Progress))
    decreases items, 0
  {
    if items == [] then (env, g)
    else
      var r := WalkNode(builtins, env, g, items[0]);
      WalkAll(builtins, r.0, r.1, items[1..])
  }

  /** Everything the module binds, known from the start. */
  function ModuleIdents(stmts: seq<Node>): seq<Ident> {
    if stmts == [] then []
    else (if stmts[0].Bind? then IdentsOf(stmts[0].lhs) else []) + ModuleIdents(stmts[1..])
  }

  function Analyse(builtins: seq<string>, stmts: seq<Node>): Progress {
    var r := RegisterAll(Module([]), Progress([], 1, [], None), ModuleIdents(stmts));
    WalkStmts(builtins, r.0, r.1, stmts).1
  }

  // ---- The analysis as it runs --------------------------------------------------------------------------

  datatype ScopeInfo = ScopeInfo(isModule: bool, parent: Option<nat>)

  datatype Entry = Entry(name: string, bind: nat, scope: nat)

  function Entries(bound: seq<Named>, scope: nat): (r: seq<Entry>)
    ensures |r| == |bound|
    ensures forall i :: 0 <= i < |r| ==> r[i] == Entry(bound[i].name, bound[i].bind, scope)
  {
    seq(|bound|, i requires 0 <= i < |bound| => Entry(bound[i].name, bound[i].bind, scope))
  }

  /** The names of an environment as one stack, outer scopes first. */
  function Flatten(env: Env): seq<Entry> {
    if env.Module? then Entries(env.bound, MODULE) else Flatten(env.outer) + Entries(env.bound, env.scope)
  }

  /** The environment's scopes are linked by their parents, later scopes inside earlier ones. */
  ghost predicate Linked(env: Env, scopes: seq<ScopeInfo>) {
    match env
    case Module(_) => |scopes| > 0 && scopes[0] == ScopeInfo(true, None)
    case Inner(s, _, outer) =>
      s < |scopes| && scopes[s] == ScopeInfo(false, Some(ScopeOf(outer))) && ScopeOf(outer) < s && Linked(outer, scopes)
  }

  /** How many scopes up `scope` is. */
  function DepthOf(env: Env, scope: nat): nat {
    if ScopeOf(env) == scope || env.Module? then 0 else 1 + DepthOf(env.outer, scope)
  }

  /** The last entry of a name. */
  function LastEntry(stack: seq<Entry>, name: string): (r: Option<Entry>)
    ensures r.Some? ==> r.value in stack && r.value.name == name
  {
    if stack == [] then None
    else if stack[|stack| - 1].name == name then Some(stack[|stack| - 1])
    else LastEntry(stack[..|stack| - 1], name)
  }

  lemma {:induction false} LastEntryConcat(a: seq<Entry>, b: seq<Entry>, name: string)
    ensures LastEntry(a + b, name) == if LastEntry(b, name).Some? then LastEntry(b, name) else LastEntry(a, name)
    decreases b
  {
    if b == [] {
      assert a + b == a;
    } else {
      assert (a + b)[..|a + b| - 1] == a + b[..|b| - 1];
      LastEntryConcat(a, b[..|b| - 1], name);
    }
  }

  lemma {:induction false} LastEntryIn(bound: seq<Named>, scope: nat, name: string)
    ensures LastEntry(Entries(bound, scope), name)
            == match LatestIn(bound, name) case None => None case Some(b) => Some(Entry(name, b, scope))
    decreases bound
  {
    if bound != [] {
      var es := Entries(bound, scope);
      assert es[..|es| - 1] == Entries(bound[..|bound| - 1], scope);
      LastEntryIn(bound[..|bound| - 1], scope, name);
    }
  }

  lemma {:induction false} ScopesBelow(env: Env, scopes: seq<ScopeInfo>)
    requires Linked(env, scopes)
    ensures forall e :: e in Flatten(env) ==> e.scope <= ScopeOf(env)
  {
    if env.Inner? {
      ScopesBelow(env.outer, scopes);
    }
  }

  /** Scanning the stack backward is looking up the nearest enclosing scope that binds the name; the
      entry's scope tells how far up that is. */
  lemma {:induction false} ScanIsLookup(env: Env, scopes: seq<ScopeInfo>, name: string)
    requires Linked(env, scopes)
    ensures match LastEntry(Flatten(env), name)
            case None => Lookup(env, name) == None
            case Some(e) => Lookup(env, name) == Some(Found(e.bind, DepthOf(env, e.scope), e.scope == MODULE))
  {
    LastEntryIn(env.bound, ScopeOf(env), name);
    if env.Inner? {
      LastEntryConcat(Flatten(env.outer), Entries(env.bound, env.scope), name);
      ScanIsLookup(env.outer, scopes, name);
      ScopesBelow(env.outer, scopes);
    }
  }

  lemma {:induction false} StillLinked(env: Env, scopes: seq<ScopeInfo>, more: seq<ScopeInfo>)
    requires Linked(env, scopes) && scopes <= more
    ensures Linked(env, more)
  {
    if env.Inner? {
      StillLinked(env.outer, scopes, more);
    }
  }

  function Without(stack: seq<Entry>, scope: nat): seq<Entry> {
    if stack == [] then []
    else Without(stack[..|stack| - 1], scope) + (if stack[|stack| - 1].scope != scope then [stack[|stack| - 1]] else [])
  }

  lemma {:induction false} WithoutInner(outer: seq<Entry>, own: seq<Entry>, scope: nat)
    requires (forall e :: e in outer ==> e.scope != scope) && (forall e :: e in own ==> e.scope == scope)
    ensures Without(outer + own, scope) == outer
    decreases |outer| + |own|
  {
    var all := outer + own;
    if own != [] {
      assert all[..|all| - 1] == outer + own[..|own| - 1];
      WithoutInner(outer, own[..|own| - 1], scope);
    } else if outer != [] {
      assert all == outer && outer[..|outer| - 1] + [] == outer[..|outer| - 1];
      WithoutInner(outer[..|outer| - 1], [], scope);
    }
  }

  class Analyser {
    const builtins: seq<string>
    var scopes: seq<ScopeInfo>
    var binds: seq<BindInfo>
    var refs: seq<RefInfo>
    var nameStack: seq<Entry>
    var current: Option<AstId>

    constructor (builtins: seq<string>)
      ensures this.builtins == builtins && scopes == [] && binds == [] && refs == [] && nameStack == [] && current == None
    {
      this.builtins := builtins;
      scopes, binds, refs, nameStack, current := [], [], [], [], None;
    }

    ghost function Now(): Progress
      reads this
    {
      Progress(binds, |scopes|, refs, current)
    }

    /** The stack holds the names of `env` and no others, outer scopes first. */
    ghost predicate At(env: Env)
      reads this
    {
      nameStack == Flatten(env) && Linked(env, scopes)
    }

    method PushScope(parent: nat) returns (id: nat)
      modifies this`scopes
      ensures id == |old(scopes)| && scopes == old(scopes) + [ScopeInfo(false, Some(parent))]
    {
      id := |scopes|;
      scopes := scopes + [ScopeInfo(false, Some(parent))];
    }

    method PushBind(scope: nat, i: Ident, ghost env: Env) returns (ghost env': Env)
      requires At(env) && scope == ScopeOf(env)
      modifies this`binds, this`nameStack
      ensures At(env') && (env', Now()) == Register(env, old(Now()), i)
    {
      env' := WithName(env, Named(i.name, |binds|));
      nameStack := nameStack + [Entry(i.name, |binds|, scope)];
      binds := binds + [BindInfo(scope, i.name, FromAst(i.id))];
      assert Entries(env'.bound, scope) == Entries(env.bound, scope) + [Entry(i.name, |binds| - 1, scope)];
    }

    method PushAll(scope: nat, idents: seq<Ident>, ghost env: Env) returns (ghost env': Env)
      requires At(env) && scope == ScopeOf(env)
      modifies this`binds, this`nameStack
      ensures At(env') && (env', Now()) == RegisterAll(env, old(Now()), idents) && ScopeOf(env') == scope
    {
      env' := env;
      var k := 0;
      while k < |idents|
        invariant 0 <= k <= |idents| && At(env') && ScopeOf(env') == scope
        invariant RegisterAll(env', Now(), idents[k..]) == RegisterAll(env, old(Now()), idents)
      {
        assert idents[k..][0] == idents[k] && idents[k..][1..] == idents[k + 1..];
        env' := PushBind(scope, idents[k], env');
        k := k + 1;
      }
    }

    method IsRegistered(id: AstId) returns (r: bool)
      ensures r <==> Registered(binds, id)
    {
      var k := 0;
      while k < |binds|
        invariant 0 <= k <= |binds|
        invariant forall j :: 0 <= j < k ==> binds[j].origin != FromAst(id)
      {
        if binds[k].origin == FromAst(id) {
          return true;
        }
        k := k + 1;
      }
      return false;
    }

    /** Follows parent links from one scope to another and counts them. */
    method ScopeDepth(from: nat, to: nat, ghost env: Env) returns (depth: nat)
      requires Linked(env, scopes) && from == ScopeOf(env)
      ensures depth == DepthOf(env, to)
    {
      depth := 0;
      var cur := from;
      ghost var here := env;
      while cur != to
        invariant Linked(here, scopes) && cur == ScopeOf(here)
        invariant depth + DepthOf(here, to) == DepthOf(env, to)
        decreases here
      {
        var parent := scopes[cur].parent;
        if parent.None? {
          return;
        }
        cur := parent.value;
        depth := depth + 1;
        here := here.outer;
      }
    }

    /** Searches the stack from the most recent name back. */
    method FindName(name: string) returns (r: Option<Entry>)
      ensures r == LastEntry(nameStack, name)
    {
      var k := |nameStack|;
      assert nameStack[..k] == nameStack;
      while k > 0
        invariant 0 <= k <= |nameStack| && LastEntry(nameStack[..k], name) == LastEntry(nameStack, name)
      {
        k := k - 1;
        assert nameStack[..k + 1][..k] == nameStack[..k];
        if nameStack[k].name == name {
          return Some(nameStack[k]);
        }
      }
      return None;
    }

    method ResolveName(i: Ident, scope: nat, ghost env: Env)
      requires At(env) && scope == ScopeOf(env)
      modifies this`binds, this`refs
      ensures Now() == Resolve(builtins, env, old(Now()), i)
    {
      hide Lookup, Fallback, Flatten, Linked, DepthOf, LastEntry;
      ScanIsLookup(env, scopes, i.name);
      var found := FindName(i.name);
      if found.Some? {
        var e := found.value;
        var depth := ScopeDepth(scope, e.scope, env);
        var origin := if e.bind < |binds| then binds[e.bind].origin else FromBuiltin;
        var forward := e.scope == MODULE && origin.FromAst? && i.id < origin.id;
        if !(forward && depth == 0) {
          var kind := if origin.FromAst? && current == Some(origin.id) then SelfRef else if forward then FwdRef else Ref;
          refs := refs + [RefInfo(i, kind, Some(e.bind), depth)];
          return;
        }
      }
      ResolveFallback(i, scope, env);
    }

    method ResolveFallback(i: Ident, scope: nat, ghost env: Env)
      requires scope == ScopeOf(env)
      modifies this`binds, this`refs
      ensures Now() == Fallback(builtins, env, old(Now()), i)
    {
      if i.name !in builtins {
        refs := refs + [RefInfo(i, Unresolved, None, 0)];
        return;
      }
      var k := 0;
      while k < |binds|
        invariant 0 <= k <= |binds| && forall j :: 0 <= j < k ==> !IsBuiltin(binds[j], i.name)
      {
        if IsBuiltin(binds[k], i.name) {
          refs := refs + [RefInfo(i, Ref, Some(k), 0)];
          return;
        }
        k := k + 1;
      }
      refs := refs + [RefInfo(i, Ref, Some(|binds|), 0)];
      binds := binds + [BindInfo(scope, i.name, FromBuiltin)];
    }

    /** Sweeps a scope's names off the stack; the scope around it has its stack back. */
    method PopScopeBinds(scope: nat, ghost env: Env)
      requires At(env) && env.Inner? && scope == env.scope
      modifies this`nameStack
      ensures At(env.outer)
    {
      var kept: seq<Entry> := [];
      var k := 0;
      while k < |nameStack|
        invariant 0 <= k <= |nameStack| && nameStack == old(nameStack)
        invariant kept == Without(nameStack[..k], scope)
      {
        assert nameStack[..k + 1][..k] == nameStack[..k];
        if nameStack[k].scope != scope {
          kept := kept + [nameStack[k]];
        }
        k := k + 1;
      }
      assert nameStack[..k] == nameStack;
      ScopesBelow(env.outer, scopes);
      WithoutInner(Flatten(env.outer), Entries(env.bound, scope), scope);
      nameStack := kept;
    }

    method Walk(n: Node, scope: nat, ghost env: Env) returns (ghost env': Env)
      requires At(env) && scope == ScopeOf(env)
      modifies this
      ensures (env', Now()) == WalkNode(builtins, env, old(Now()), n)
      ensures At(env') && ScopeOf(env') == scope && env'.Module? == env.Module? && old(scopes) <= scopes
      decreases n, 0
    {
      match n
      case Name(i) =>
        ResolveName(i, scope, env);
        env' := env;
      case Bind(lhs, rhs) =>
        env' := WalkBinding(lhs, rhs, scope, env);
      case Fn(params, body) =>
        WalkScope(ParamIdents(params), body, scope, env);
        env' := env;
      case Arm(lhs, body) =>
        WalkScope(IdentsOf(lhs), body, scope, env);
        env' := env;
      case Group(items) =>
        env' := WalkItems(items, scope, env);
    }

    /** A scope of its own: its parameters, its body, and its names gone afterwards. */
    method WalkScope(idents: seq<Ident>, body: seq<Node>, scope: nat, ghost env: Env)
      requires At(env) && scope == ScopeOf(env)
      modifies this
      ensures At(env) && old(scopes) <= scopes
      ensures var p := RegisterAll(Inner(|old(scopes)|, [], env), old(Now()).(scopes := |old(scopes)| + 1), idents);
              Now() == WalkStmts(builtins, p.0, p.1, body).1
      decreases body, 2
    {
      ScopesBelow(env, scopes);
      LinkedBelow(env, scopes);
      var id := PushScope(scope);
      StillLinked(env, old(scopes), scopes);
      ghost var inner := Inner(id, [], env);
      assert Entries([], id) == [] && Flatten(env) + [] == Flatten(env);
      RegisterAllKeeps(inner, Now(), idents);
      inner := PushAll(id, idents, inner);
      inner := WalkBody(body, id, inner);
      PopScopeBinds(id, inner);
    }

    method WalkBinding(lhs: Pattern, rhs: Node, scope: nat, ghost env: Env) returns (ghost env': Env)
      requires At(env) && scope == ScopeOf(env)
      modifies this
      ensures (env', Now()) == WalkBind(builtins, env, old(Now()), lhs, rhs)
      ensures At(env') && ScopeOf(env') == scope && env'.Module? == env.Module? && old(scopes) <= scopes
      decreases rhs, 1
    {
      env' := env;
      var previous := current;
      if lhs.Simple? {
        current := Some(lhs.ident.id);
      }
      var inModule := scopes[scope].isModule;
      var known := !inModule && lhs.Simple?;
      if known {
        var already := IsRegistered(lhs.ident.id);
        if !already {
          env' := PushBind(scope, lhs.ident, env');
        }
      }
      env' := Walk(rhs, scope, env');
      current := previous;
      if inModule || known {
        if lhs.Simple? {
          var already := IsRegistered(lhs.ident.id);
          if !already {
            env' := PushBind(scope, lhs.ident, env');
          }
        }
      } else {
        env' := PushAll(scope, IdentsOf(lhs), env');
      }
    }

    method WalkBody(stmts: seq<Node>, scope: nat, ghost env: Env) returns (ghost env': Env)
      requires At(env) && scope == ScopeOf(env)
      modifies this
      ensures (env', Now()) == WalkStmts(builtins, env, old(Now()), stmts)
      ensures At(env') && ScopeOf(env') == scope && env'.Module? == env.Module? && old(scopes) <= scopes
      ensures env.Inner? ==> env'.outer == env.outer
      decreases stmts, 1
    {
      env' := env;
      if !scopes[scope].isModule {
        var k := 0;
        while k < |stmts|
          invariant 0 <= k <= |stmts| && At(env') && ScopeOf(env') == scope && env'.Module? == env.Module?
          invariant PreRegisterFns(env', Now(), stmts[k..]) == PreRegisterFns(env, old(Now()), stmts)
          invariant scopes == old(scopes)
        {
          assert stmts[k..][0] == stmts[k] && stmts[k..][1..] == stmts[k + 1..];
          var s := stmts[k];
          if s.Bind? && s.lhs.Simple? && s.rhs.Fn? {
            env' := PushBind(scope, s.lhs.ident, env');
          }
          k := k + 1;
        }
      }
      env' := WalkItems(stmts, scope, env');
      OuterKept(builtins, env, old(Now()), stmts);
    }

    method WalkItems(items: seq<Node>, scope: nat, ghost env: Env) returns (ghost env': Env)
      requires At(env) && scope == ScopeOf(env)
      modifies this
      ensures (env', Now()) == WalkAll(builtins, env, old(Now()), items)
      ensures At(env') && ScopeOf(env') == scope && env'.Module? == env.Module? && old(scopes) <= scopes
      decreases items, 0
    {
      env' := env;
      if items != [] {
        env' := Walk(items[0], scope, env');
        env' := WalkItems(items[1..], scope, env');
      }
    }
  }

  lemma LinkedBelow(env: Env, scopes: seq<ScopeInfo>)
    requires Linked(env, scopes)
    ensures ScopeOf(env) < |scopes| && scopes[ScopeOf(env)].isModule == env.Module?
  {
  }

  // ---- What walking keeps -------------------------------------------------------------------------------

  /** Same scopes around, with perhaps more names in the innermost. */
  predicate SamePlace(env: Env, env': Env) {
    env'.Module? == env.Module? && ScopeOf(env') == ScopeOf(env) && (env.Inner? ==> env'.outer == env.outer)
  }

  lemma {:induction false} RegisterAllKeeps(env: Env, g: Progress, idents: seq<Ident>)
    ensures SamePlace(env, RegisterAll(env, g, idents).0)
    decreases |idents|
  {
    if idents != [] {
      var r := Register(env, g, idents[0]);
      RegisterAllKeeps(r.0, r.1, idents[1..]);
    }
  }

  lemma {:induction false} PreRegisterKeeps(env: Env, g: Progress, stmts: seq<Node>)
    ensures SamePlace(env, PreRegisterFns(env, g, stmts).0)
    decreases |stmts|
  {
    if stmts != [] {
      var r := if stmts[0].Bind? && stmts[0].lhs.Simple? && stmts[0].rhs.Fn? then Register(env, g, stmts[0].lhs.ident) else (env, g);
      PreRegisterKeeps(r.0, r.1, stmts[1..]);
    }
  }

  lemma {:induction false} NodeKeeps(builtins: seq<string>, env: Env, g: Progress, n: Node)
    ensures SamePlace(env, WalkNode(builtins, env, g, n).0)
    decreases n, 0
  {
    match n
    case Bind(lhs, rhs) =>
      var g0 := if lhs.Simple? then g.(current := Some(lhs.ident.id)) else g;
      var r0 := if !env.Module? && lhs.Simple? && !Registered(g.binds, lhs.ident.id) then Register(env, g0, lhs.ident) else (env, g0);
      NodeKeeps(builtins, r0.0, r0.1, rhs);
      var r1 := WalkNode(builtins, r0.0, r0.1, rhs);
      RegisterAllKeeps(r1.0, r1.1.(current := g.current), IdentsOf(lhs));
    case Group(items) => AllKeeps(builtins, env, g, items);
    case _ =>
  }

  lemma {:induction false} AllKeeps(builtins: seq<string>, env: Env, g: Progress, items: seq<Node>)
    ensures SamePlace(env, WalkAll(builtins, env, g, items).0)
    decreases items, 0
  {
    if items != [] {
      NodeKeeps(builtins, env, g, items[0]);
      var r := WalkNode(builtins, env, g, items[0]);
      AllKeeps(builtins, r.0, r.1, items[1..]);
    }
  }

  lemma OuterKept(builtins: seq<string>, env: Env, g: Progress, stmts: seq<Node>)
    ensures SamePlace(env, WalkStmts(builtins, env, g, stmts).0)
  {
    var r := if env.Module? then (env, g) else PreRegisterFns(env, g, stmts);
    PreRegisterKeeps(env, g, stmts);
    AllKeeps(builtins, r.0, r.1, stmts);
  }
}
