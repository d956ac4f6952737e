/** Partial application: rewriting each hole `?` into a use of the parameter of a synthetic function that
    wraps the hole's scope. */
module PartialApplication {
  import opened Collections

  /** A syntax tree. `Op` stands for every node that a hole bubbles through and that does no more than hold
      its children in order: literals with items, templates, operators, spreads and applications. */
  datatype Tree =
    | Leaf(text: string)
    | Hole
    | Synth(n: nat)
    | Op(tag: string, kids: List<Tree>)
    | Member(lhs: Tree, rhs: Tree)
    | Group(inner: Tree)
    | Bind(lhs: Tree, rhs: Tree)
    | BindRight(lhs: Tree, rhs: Tree)
    | Pipe(items: List<Tree>)
    | Fn(params: Tree, body: List<Tree>)
    | Patterns(items: List<Tree>)
    | Module(items: List<Tree>)

  type Trees = List<Tree>

  // ---- What the pass asks of a tree -----------------------------------------------------------------

  /** A hole of this scope: groups, pipe segments and function bodies keep theirs. A computed member key is
      no scope. */
  predicate HasHole(t: Tree) {
    match t
    case Hole => true
    case Leaf(_) => false
    case Synth(_) => false
    case Op(_, kids) => AnyHasHole(kids)
    case Member(l, r) => HasHole(l) || if r.Group? then HasHole(r.inner) else HasHole(r)
    case Group(_) => false
    case Bind(_, r) => HasHole(r)
    case BindRight(l, _) => HasHole(l)
    case Pipe(_) => false
    case Fn(params, _) => HasHole(params)
    case Patterns(items) => AnyHasHole(items)
    case Module(items) => AnyHasHole(items)
  }

  predicate AnyHasHole(ts: Trees) {
    ts.Cons? && (HasHole(ts.head) || AnyHasHole(ts.tail))
  }

  /** The variant that reads freshly built nodes; it looks into function bodies too. */
  predicate HasHoleDeep(t: Tree) {
    match t
    case Hole => true
    case Leaf(_) => false
    case Synth(_) => false
    case Op(_, kids) => AnyHasHoleDeep(kids)
    case Member(l, r) => HasHoleDeep(l) || if r.Group? then HasHoleDeep(r.inner) else HasHoleDeep(r)
    case Group(_) => false
    case Bind(_, r) => HasHoleDeep(r)
    case BindRight(l, _) => HasHoleDeep(l)
    case Pipe(_) => false
    case Fn(params, body) => HasHoleDeep(params) || AnyHasHoleDeep(body)
    case Patterns(items) => AnyHasHoleDeep(items)
    case Module(items) => AnyHasHoleDeep(items)
  }

  predicate AnyHasHoleDeep(ts: Trees) {
    ts.Cons? && (HasHoleDeep(ts.head) || AnyHasHoleDeep(ts.tail))
  }

  /** Some hole at or below has to be visited, whatever scope it is in. */
  predicate NeedsDescent(t: Tree) {
    match t
    case Hole => true
    case Leaf(_) => false
    case Synth(_) => false
    case Op(_, kids) => AnyNeedsDescent(kids)
    case Member(l, r) => NeedsDescent(l) || NeedsDescent(r)
    case Group(inner) => NeedsDescent(inner)
    case Bind(_, r) => NeedsDescent(r)
    case BindRight(l, _) => NeedsDescent(l)
    case Pipe(items) => AnyNeedsDescent(items)
    case Fn(params, body) => NeedsDescent(params) || AnyNeedsDescent(body)
    case Patterns(_) => false
    case Module(_) => false
  }

  predicate AnyNeedsDescent(ts: Trees) {
    ts.Cons? && (NeedsDescent(ts.head) || AnyNeedsDescent(ts.tail))
  }

  // ---- The rewrite ----------------------------------------------------------------------------------

  /** Every hole of the scope becomes a use of parameter `n`. */
  function Replace(t: Tree, n: nat): Tree {
    if !HasHoleDeep(t) then t
    else
      match t
      case Hole => Synth(n)
      case Op(tag, kids) => Op(tag, ReplaceAll(kids, n))
      case Member(l, r) =>
        Member(Replace(l, n), if r.Group? then Group(Replace(r.inner, n)) else Replace(r, n))
      case Bind(l, r) => Bind(l, Replace(r, n))
      case BindRight(l, r) => BindRight(Replace(l, n), r)
      case other => other
  }

  function ReplaceAll(ts: Trees, n: nat): Trees {
    match ts
    case Nil => Nil
    case Cons(t, rest) => Cons(Replace(t, n), ReplaceAll(rest, n))
  }

  /** The parameters of the synthetic function number `n`. */
  function SynthParams(n: nat): Tree {
    Patterns(Cons(Synth(n), Nil))
  }

  /** Wraps a scope that has a hole in a synthetic function. */
  function Wrap(t: Tree, c: nat): (Tree, nat) {
    if HasHoleDeep(t) then (Fn(SynthParams(c), Cons(Replace(t, c), Nil)), c + 1) else (t, c)
  }

  /** Rewrites a scope of its own; `c` is the next number. */
  function Stmt(t: Tree, c: nat): (Tree, nat)
    decreases t, 1
  {
    match t
    case Bind(l, r) => var (r', c') := Stmt(r, c); (Bind(l, r'), c')
    case BindRight(l, r) => var (l', c') := Stmt(l, c); (BindRight(l', r), c')
    case Group(inner) => var (i, c') := Stmt(inner, c); (if HasHole(inner) then i else Group(i), c')
    case Pipe(items) => var (ts, c') := StmtAll(items, c); (Pipe(ts), c')
    case Fn(params, body) => var (ts, c') := StmtAll(body, c); (Fn(params, ts), c')
    case Module(items) => var (ts, c') := StmtAll(items, c); (Module(ts), c')
    case _ =>
      if !NeedsDescent(t) then (t, c)
      else
        var (t', c') := Inner(t, c);
        Wrap(t', c')
  }

  function StmtAll(ts: Trees, c: nat): (Trees, nat) {
    match ts
    case Nil => (Nil, c)
    case Cons(t, rest) =>
      var (t', c1) := Stmt(t, c);
      var (rest', c2) := StmtAll(rest, c1);
      (Cons(t', rest'), c2)
  }

  /** Rewrites inside a scope: only groups and function bodies below are scopes of their own. */
  function Inner(t: Tree, c: nat): (Tree, nat)
    decreases t, 0
  {
    match t
    case Leaf(_) => (t, c)
    case Hole => (t, c)
    case Synth(_) => (t, c)
    case Op(tag, kids) => var (ts, c') := InnerAll(kids, c); (Op(tag, ts), c')
    case Member(l, r) =>
      var (l', c1) := Inner(l, c);
      if r.Group? then
        var (i, c2) := Inner(r.inner, c1); (Member(l', Group(i)), c2)
      else
        var (r', c2) := Inner(r, c1); (Member(l', r'), c2)
    case Group(inner) => Stmt(inner, c)
    case Bind(l, r) => var (l', c1) := Inner(l, c); var (r', c2) := Inner(r, c1); (Bind(l', r'), c2)
    case BindRight(l, r) => var (l', c1) := Inner(l, c); var (r', c2) := Inner(r, c1); (BindRight(l', r'), c2)
    case Pipe(items) => var (ts, c') := InnerAll(items, c); (Pipe(ts), c')
    case Fn(params, body) => var (p, c1) := Inner(params, c); var (ts, c2) := StmtAll(body, c1); (Fn(p, ts), c2)
    case Patterns(items) => var (ts, c') := InnerAll(items, c); (Patterns(ts), c')
    case Module(items) => var (ts, c') := InnerAll(items, c); (Module(ts), c')
  }

  function InnerAll(ts: Trees, c: nat): (Trees, nat) {
    match ts
    case Nil => (Nil, c)
    case Cons(t, rest) =>
      var (t', c1) := Inner(t, c);
      var (rest', c2) := InnerAll(rest, c1);
      (Cons(t', rest'), c2)
  }

  // ---- What the parser hands over -------------------------------------------------------------------

  /** Neither a hole nor a synthetic name anywhere. */
  predicate Free(t: Tree) {
    match t
    case Hole => false
    case Synth(_) => false
    case Leaf(_) => true
    case Op(_, kids) => AllFree(kids)
    case Member(l, r) => Free(l) && Free(r)
    case Group(inner) => Free(inner)
    case Bind(l, r) => Free(l) && Free(r)
    case BindRight(l, r) => Free(l) && Free(r)
    case Pipe(items) => AllFree(items)
    case Fn(params, body) => Free(params) && AllFree(body)
    case Patterns(items) => AllFree(items)
    case Module(items) => AllFree(items)
  }

  predicate AllFree(ts: Trees) {
    ts.Cons? ==> Free(ts.head) && AllFree(ts.tail)
  }

  /** An expression as it is parsed: no synthetic name, and no hole in a pattern. */
  predicate Source(t: Tree) {
    match t
    case Leaf(_) => true
    case Hole => true
    case Synth(_) => false
    case Op(_, kids) => AllSource(kids)
    case Member(l, r) => Source(l) && Source(r)
    case Group(inner) => Source(inner)
    case Bind(l, r) => Free(l) && Source(r)
    case BindRight(l, r) => Source(l) && Free(r)
    case Pipe(items) => AllSource(items)
    case Fn(params, body) => Free(params) && AllSource(body)
    case Patterns(_) => false
    case Module(_) => false
  }

  predicate AllSource(ts: Trees) {
    ts.Cons? ==> Source(ts.head) && AllSource(ts.tail)
  }

  // ---- Patterns -------------------------------------------------------------------------------------

  lemma {:induction false} FreeHasNoHole(t: Tree)
    requires Free(t)
    ensures !HasHole(t) && !HasHoleDeep(t) && !NeedsDescent(t)
    decreases t
  {
    match t
    case Op(_, kids) => AllFreeHaveNoHole(kids);
    case Member(l, r) => FreeHasNoHole(l); FreeHasNoHole(r); if r.Group? { FreeHasNoHole(r.inner); }
    case Group(inner) => FreeHasNoHole(inner);
    case Bind(l, r) => FreeHasNoHole(r);
    case BindRight(l, r) => FreeHasNoHole(l);
    case Pipe(items) => AllFreeHaveNoHole(items);
    case Fn(params, body) => FreeHasNoHole(params); AllFreeHaveNoHole(body);
    case Patterns(items) => AllFreeHaveNoHole(items);
    case Module(items) => AllFreeHaveNoHole(items);
    case _ =>
  }

  lemma {:induction false} AllFreeHaveNoHole(ts: Trees)
    requires AllFree(ts)
    ensures !AnyHasHole(ts) && !AnyHasHoleDeep(ts) && !AnyNeedsDescent(ts)
    decreases ts
  {
    if ts.Cons? {
      FreeHasNoHole(ts.head);
      AllFreeHaveNoHole(ts.tail);
    }
  }

  /** A pattern keeps being one and uses no number. */
  lemma {:induction false} InnerFree(t: Tree, c: nat)
    requires Free(t)
    ensures Free(Inner(t, c).0) && Inner(t, c).1 == c
    decreases t, 0
  {
    match t
    case Op(_, kids) => InnerAllFree(kids, c);
    case Member(l, r) => InnerFree(l, c); if r.Group? { InnerFree(r.inner, c); } else { InnerFree(r, c); }
    case Group(inner) => StmtFree(inner, c);
    case Bind(l, r) => InnerFree(l, c); InnerFree(r, c);
    case BindRight(l, r) => InnerFree(l, c); InnerFree(r, c);
    case Pipe(items) => InnerAllFree(items, c);
    case Fn(params, body) => InnerFree(params, c); StmtAllFree(body, c);
    case Patterns(items) => InnerAllFree(items, c);
    case Module(items) => InnerAllFree(items, c);
    case _ =>
  }

  lemma {:induction false} InnerAllFree(ts: Trees, c: nat)
    requires AllFree(ts)
    ensures AllFree(InnerAll(ts, c).0) && InnerAll(ts, c).1 == c
    decreases ts
  {
    if ts.Cons? {
      InnerFree(ts.head, c);
      InnerAllFree(ts.tail, c);
    }
  }

  lemma {:induction false} StmtFree(t: Tree, c: nat)
    requires Free(t)
    ensures Free(Stmt(t, c).0) && Stmt(t, c).1 == c
    decreases t, 1
  {
    FreeHasNoHole(t);
    match t
    case Bind(l, r) => StmtFree(r, c);
    case BindRight(l, r) => StmtFree(l, c);
    case Group(inner) => StmtFree(inner, c);
    case Pipe(items) => StmtAllFree(items, c);
    case Fn(params, body) => StmtAllFree(body, c);
    case Module(items) => StmtAllFree(items, c);
    case _ =>
  }

  lemma {:induction false} StmtAllFree(ts: Trees, c: nat)
    requires AllFree(ts)
    ensures AllFree(StmtAll(ts, c).0) && StmtAll(ts, c).1 == c
    decreases ts
  {
    if ts.Cons? {
      StmtFree(ts.head, c);
      StmtAllFree(ts.tail, c);
    }
  }

  // ---- Which holes are left after a step ------------------------------------------------------------

  /** The functions of this scope keep no hole in their bodies. */
  predicate Settled(t: Tree) {
    match t
    case Op(_, kids) => AllSettled(kids)
    case Member(l, r) => Settled(l) && if r.Group? then Settled(r.inner) else Settled(r)
    case Bind(_, r) => Settled(r)
    case BindRight(l, _) => Settled(l)
    case Fn(_, _) => !HasHoleDeep(t)
    case Patterns(_) => !HasHoleDeep(t)
    case Module(_) => !HasHoleDeep(t)
    case _ => true
  }

  predicate AllSettled(ts: Trees) {
    ts.Cons? ==> Settled(ts.head) && AllSettled(ts.tail)
  }

  lemma {:induction false} ReplaceLeavesNone(t: Tree, n: nat)
    requires Settled(t)
    ensures !HasHoleDeep(Replace(t, n))
    decreases t
  {
    match t
    case Op(_, kids) => ReplaceAllLeavesNone(kids, n);
    case Member(l, r) =>
      ReplaceLeavesNone(l, n);
      if r.Group? {
        ReplaceLeavesNone(r.inner, n);
      } else {
        ReplaceLeavesNone(r, n);
        ReplaceKeepsShape(r, n);
      }
    case Bind(_, r) => ReplaceLeavesNone(r, n);
    case BindRight(l, _) => ReplaceLeavesNone(l, n);
    case _ =>
  }

  lemma ReplaceKeepsShape(t: Tree, n: nat)
    ensures Replace(t, n).Group? == t.Group?
  {
  }

  lemma {:induction false} ReplaceAllLeavesNone(ts: Trees, n: nat)
    requires AllSettled(ts)
    ensures !AnyHasHoleDeep(ReplaceAll(ts, n))
    decreases ts
  {
    if ts.Cons? {
      ReplaceLeavesNone(ts.head, n);
      ReplaceAllLeavesNone(ts.tail, n);
    }
  }

  /** Where there is nothing to visit there is no hole. */
  lemma {:induction false} NoDescentNoHole(t: Tree)
    requires Source(t) && !NeedsDescent(t)
    ensures !HasHoleDeep(t) && !HasHole(t)
    decreases t
  {
    match t
    case Op(_, kids) => NoDescentNoHoles(kids);
    case Member(l, r) => NoDescentNoHole(l); NoDescentNoHole(r); if r.Group? { NoDescentNoHole(r.inner); }
    case Bind(_, r) => NoDescentNoHole(r);
    case BindRight(l, _) => NoDescentNoHole(l);
    case Fn(params, body) => FreeHasNoHole(params); NoDescentNoHoles(body);
    case _ =>
  }

  lemma {:induction false} NoDescentNoHoles(ts: Trees)
    requires AllSource(ts) && !AnyNeedsDescent(ts)
    ensures !AnyHasHoleDeep(ts) && !AnyHasHole(ts)
    decreases ts
  {
    if ts.Cons? {
      NoDescentNoHole(ts.head);
      NoDescentNoHoles(ts.tail);
    }
  }

  /** Rewriting inside a scope settles it and neither adds nor drops holes of the scope itself: the check on
      the fresh nodes, which looks into function bodies, answers as the one on the source does. */
  lemma {:induction false} InnerHoles(t: Tree, c: nat)
    requires Source(t)
    ensures Settled(Inner(t, c).0) && (HasHoleDeep(Inner(t, c).0) <==> HasHole(t))
    decreases t, 0
  {
    match t
    case Op(_, kids) => InnerAllHoles(kids, c);
    case Member(l, r) =>
      InnerHoles(l, c);
      var c1 := Inner(l, c).1;
      if r.Group? {
        InnerHoles(r.inner, c1);
      } else {
        InnerHoles(r, c1);
      }
    case Group(inner) => StmtHoles(inner, c);
    case Bind(l, r) => InnerHoles(r, Inner(l, c).1);
    case BindRight(l, r) => InnerHoles(l, c);
    case Pipe(items) =>
    case Fn(params, body) =>
      InnerFree(params, c);
      FreeHasNoHole(params);
      FreeHasNoHole(Inner(params, c).0);
      StmtAllHoles(body, c);
    case _ =>
  }

  lemma {:induction false} InnerAllHoles(ts: Trees, c: nat)
    requires AllSource(ts)
    ensures AllSettled(InnerAll(ts, c).0) && (AnyHasHoleDeep(InnerAll(ts, c).0) <==> AnyHasHole(ts))
    decreases ts
  {
    if ts.Cons? {
      InnerHoles(ts.head, c);
      InnerAllHoles(ts.tail, Inner(ts.head, c).1);
    }
  }

  /** A finished scope shows no hole to the scope around it. */
  lemma {:induction false} StmtHoles(t: Tree, c: nat)
    requires Source(t)
    ensures !HasHoleDeep(Stmt(t, c).0) && Settled(Stmt(t, c).0)
    decreases t, 1
  {
    NoHoleIsSettled(Stmt(t, c).0);
    if t.Bind? {
      StmtHoles(t.rhs, c);
    } else if t.BindRight? {
      StmtHoles(t.lhs, c);
    } else if t.Group? {
      StmtHoles(t.inner, c);
    } else if t.Fn? {
      FreeHasNoHole(t.params);
      StmtAllHoles(t.body, c);
    } else if !t.Pipe? {
      if NeedsDescent(t) {
        InnerHoles(t, c);
        WrapHoles(Inner(t, c).0, Inner(t, c).1);
      } else {
        NoDescentNoHole(t);
      }
    }
  }

  lemma WrapHoles(t: Tree, c: nat)
    requires Settled(t)
    ensures !HasHoleDeep(Wrap(t, c).0)
  {
    ReplaceLeavesNone(t, c);
    assert !AnyHasHoleDeep(SynthParams(c).items);
  }

  lemma {:induction false} NoHoleIsSettled(t: Tree)
    ensures !HasHoleDeep(t) ==> Settled(t)
    decreases t
  {
    match t
    case Op(_, kids) => NoHolesAreSettled(kids);
    case Member(l, r) =>
      NoHoleIsSettled(l);
      NoHoleIsSettled(r);
      if r.Group? {
        NoHoleIsSettled(r.inner);
      }
    case Bind(_, r) => NoHoleIsSettled(r);
    case BindRight(l, _) => NoHoleIsSettled(l);
    case _ =>
  }

  lemma {:induction false} NoHolesAreSettled(ts: Trees)
    ensures !AnyHasHoleDeep(ts) ==> AllSettled(ts)
    decreases ts
  {
    if ts.Cons? {
      NoHoleIsSettled(ts.head);
      NoHolesAreSettled(ts.tail);
    }
  }

  lemma {:induction false} StmtAllHoles(ts: Trees, c: nat)
    requires AllSource(ts)
    ensures !AnyHasHoleDeep(StmtAll(ts, c).0)
    decreases ts
  {
    if ts.Cons? {
      StmtHoles(ts.head, c);
      StmtAllHoles(ts.tail, Stmt(ts.head, c).1);
    }
  }

  // ---- No hole survives -----------------------------------------------------------------------------

  /** No hole anywhere outside the patterns. */
  predicate Clean(t: Tree) {
    match t
    case Hole => false
    case Op(_, kids) => AllClean(kids)
    case Member(l, r) => Clean(l) && Clean(r)
    case Group(inner) => Clean(inner)
    case Bind(_, r) => Clean(r)
    case BindRight(l, _) => Clean(l)
    case Pipe(items) => AllClean(items)
    case Fn(_, body) => AllClean(body)
    case Module(items) => AllClean(items)
    case _ => true
  }

  predicate AllClean(ts: Trees) {
    ts.Cons? ==> Clean(ts.head) && AllClean(ts.tail)
  }

  /** No hole anywhere outside the patterns but those of this scope. */
  predicate CleanBelow(t: Tree) {
    match t
    case Hole => true
    case Op(_, kids) => AllCleanBelow(kids)
    case Member(l, r) => CleanBelow(l) && if r.Group? then CleanBelow(r.inner) else CleanBelow(r)
    case Group(inner) => Clean(inner)
    case Bind(_, r) => CleanBelow(r)
    case BindRight(l, _) => CleanBelow(l)
    case Pipe(items) => AllClean(items)
    case Fn(_, body) => AllClean(body)
    case Module(items) => AllClean(items)
    case _ => true
  }

  predicate AllCleanBelow(ts: Trees) {
    ts.Cons? ==> CleanBelow(ts.head) && AllCleanBelow(ts.tail)
  }

  lemma {:induction false} CleanSplits(t: Tree)
    requires Settled(t)
    ensures Clean(t) <==> CleanBelow(t) && !HasHoleDeep(t)
    decreases t
  {
    match t
    case Op(_, kids) => AllCleanSplit(kids);
    case Member(l, r) => CleanSplits(l); if r.Group? { CleanSplits(r.inner); } else { CleanSplits(r); }
    case Bind(_, r) => CleanSplits(r);
    case BindRight(l, _) => CleanSplits(l);
    case _ =>
  }

  lemma {:induction false} AllCleanSplit(ts: Trees)
    requires AllSettled(ts)
    ensures AllClean(ts) <==> AllCleanBelow(ts) && !AnyHasHoleDeep(ts)
    decreases ts
  {
    if ts.Cons? {
      CleanSplits(ts.head);
      AllCleanSplit(ts.tail);
    }
  }

  /** Replacing the holes of a scope leaves exactly those that were not its own. */
  lemma {:induction false} ReplaceCleans(t: Tree, n: nat)
    requires Settled(t)
    ensures Clean(Replace(t, n)) <==> CleanBelow(t)
    decreases t
  {
    if HasHoleDeep(t) {
      match t
      case Op(_, kids) => ReplaceAllCleans(kids, n);
      case Member(l, r) =>
        ReplaceCleans(l, n);
        if r.Group? { ReplaceCleans(r.inner, n); } else { ReplaceCleans(r, n); }
      case Bind(_, r) => ReplaceCleans(r, n);
      case BindRight(l, _) => ReplaceCleans(l, n);
      case _ =>
    } else {
      CleanSplits(t);
    }
  }

  lemma {:induction false} ReplaceAllCleans(ts: Trees, n: nat)
    requires AllSettled(ts)
    ensures AllClean(ReplaceAll(ts, n)) <==> AllCleanBelow(ts)
    decreases ts
  {
    if ts.Cons? {
      ReplaceCleans(ts.head, n);
      ReplaceAllCleans(ts.tail, n);
    }
  }

  // ---- Stray pipes ----------------------------------------------------------------------------------

  /** Somewhere below a node that is no scope boundary sits a pipe that has a segment with a hole of its own:
      the rewrite visits such a pipe as part of the scope around it. */
  predicate Stray(t: Tree) {
    match t
    case Bind(_, r) => Stray(r)
    case BindRight(l, _) => Stray(l)
    case Group(inner) => Stray(inner)
    case Pipe(items) => AnyStray(items)
    case Fn(_, body) => AnyStray(body)
    case Op(_, kids) => AnyStrayWithin(kids)
    case Member(l, r) => StrayWithin(l) || if r.Group? then StrayWithin(r.inner) else StrayWithin(r)
    case _ => false
  }

  predicate AnyStray(ts: Trees) {
    ts.Cons? && (Stray(ts.head) || AnyStray(ts.tail))
  }

  predicate StrayWithin(t: Tree) {
    match t
    case Op(_, kids) => AnyStrayWithin(kids)
    case Member(l, r) => StrayWithin(l) || if r.Group? then StrayWithin(r.inner) else StrayWithin(r)
    case Group(inner) => Stray(inner)
    case Bind(_, r) => StrayWithin(r)
    case BindRight(l, _) => StrayWithin(l)
    case Pipe(items) => AnyHasHole(items) || AnyStrayWithin(items)
    case Fn(_, body) => AnyStray(body)
    case _ => false
  }

  predicate AnyStrayWithin(ts: Trees) {
    ts.Cons? && (StrayWithin(ts.head) || AnyStrayWithin(ts.tail))
  }

  lemma {:induction false} NoDescentClean(t: Tree)
    requires Source(t) && !NeedsDescent(t)
    ensures Clean(t) && !Stray(t) && !StrayWithin(t)
    decreases t
  {
    match t
    case Op(_, kids) => NoDescentAllClean(kids);
    case Member(l, r) => NoDescentClean(l); NoDescentClean(r); if r.Group? { NoDescentClean(r.inner); }
    case Group(inner) => NoDescentClean(inner);
    case Bind(_, r) => NoDescentClean(r);
    case BindRight(l, _) => NoDescentClean(l);
    case Pipe(items) => NoDescentAllClean(items); NoDescentNoHoles(items);
    case Fn(params, body) => NoDescentAllClean(body);
    case _ =>
  }

  lemma {:induction false} NoDescentAllClean(ts: Trees)
    requires AllSource(ts) && !AnyNeedsDescent(ts)
    ensures AllClean(ts) && !AnyStray(ts) && !AnyStrayWithin(ts)
    decreases ts
  {
    if ts.Cons? {
      NoDescentClean(ts.head);
      NoDescentAllClean(ts.tail);
    }
  }

  lemma {:induction false} InnerClean(t: Tree, c: nat)
    requires Source(t)
    ensures CleanBelow(Inner(t, c).0) <==> !StrayWithin(t)
    decreases t, 0
  {
    match t
    case Op(_, kids) => InnerAllClean(kids, c);
    case Member(l, r) =>
      InnerClean(l, c);
      var c1 := Inner(l, c).1;
      if r.Group? {
        InnerClean(r.inner, c1);
      } else {
        InnerClean(r, c1);
      }
    case Group(inner) =>
      StmtClean(inner, c);
      StmtHoles(inner, c);
      CleanSplits(Stmt(inner, c).0);
    case Bind(l, r) => InnerClean(r, Inner(l, c).1);
    case BindRight(l, r) => InnerClean(l, c);
    case Pipe(items) =>
      InnerAllClean(items, c);
      InnerAllHoles(items, c);
      AllCleanSplit(InnerAll(items, c).0);
    case Fn(params, body) => StmtAllClean(body, Inner(params, c).1);
    case _ =>
  }

  lemma {:induction false} InnerAllClean(ts: Trees, c: nat)
    requires AllSource(ts)
    ensures AllCleanBelow(InnerAll(ts, c).0) <==> !AnyStrayWithin(ts)
    decreases ts
  {
    if ts.Cons? {
      InnerClean(ts.head, c);
      InnerAllClean(ts.tail, Inner(ts.head, c).1);
    }
  }

  lemma {:induction false} StmtClean(t: Tree, c: nat)
    requires Source(t)
    ensures Clean(Stmt(t, c).0) <==> !Stray(t)
    decreases t, 1
  {
    if t.Bind? {
      StmtClean(t.rhs, c);
    } else if t.BindRight? {
      StmtClean(t.lhs, c);
    } else if t.Group? {
      StmtClean(t.inner, c);
    } else if t.Fn? {
      StmtAllClean(t.body, c);
    } else if t.Pipe? {
      StmtAllClean(t.items, c);
    } else if NeedsDescent(t) {
      InnerClean(t, c);
      InnerHoles(t, c);
      WrapClean(Inner(t, c).0, Inner(t, c).1);
    } else {
      NoDescentClean(t);
    }
  }

  lemma WrapClean(t: Tree, c: nat)
    requires Settled(t)
    ensures Clean(Wrap(t, c).0) <==> CleanBelow(t)
  {
    ReplaceCleans(t, c);
    CleanSplits(t);
    var body := Cons(Replace(t, c), Nil);
    assert AllClean(body) <==> Clean(Replace(t, c));
  }

  lemma {:induction false} StmtAllClean(ts: Trees, c: nat)
    requires AllSource(ts)
    ensures AllClean(StmtAll(ts, c).0) <==> !AnyStray(ts)
    decreases ts
  {
    if ts.Cons? {
      StmtClean(ts.head, c);
      StmtAllClean(ts.tail, Stmt(ts.head, c).1);
    }
  }

  // ---- Which function a use belongs to --------------------------------------------------------------

  predicate IsSynthetic(params: Tree) {
    params.Patterns? && params.items.Cons? && params.items.head.Synth? && params.items.tail.Nil?
  }

  /** Every use outside patterns is of the parameter of the synthetic function whose scope it is in: `env` is
      that parameter, and groups, pipe segments and function bodies start afresh. */
  predicate Scoped(t: Tree, env: Option<nat>) {
    match t
    case Leaf(_) => true
    case Hole => true
    case Synth(n) => env == Some(n)
    case Op(_, kids) => AllScoped(kids, env)
    case Member(l, r) => Scoped(l, env) && if r.Group? then Scoped(r.inner, env) else Scoped(r, env)
    case Group(inner) => Scoped(inner, None)
    case Bind(_, r) => Scoped(r, env)
    case BindRight(l, _) => Scoped(l, env)
    case Pipe(items) => AllScoped(items, None)
    case Fn(params, body) => AllScoped(body, if IsSynthetic(params) then Some(params.items.head.n) else None)
    case Patterns(_) => true
    case Module(items) => AllScoped(items, None)
  }

  predicate AllScoped(ts: Trees, env: Option<nat>) {
    ts.Cons? ==> Scoped(ts.head, env) && AllScoped(ts.tail, env)
  }

  /** A tree in which no scope uses anything fits any scope, with its holes replaced by the parameter. */
  lemma {:induction false} ReplaceScoped(t: Tree, n: nat)
    requires Scoped(t, None)
    ensures Scoped(Replace(t, n), Some(n)) && Scoped(t, Some(n))
    decreases t
  {
    match t
    case Op(_, kids) => ReplaceAllScoped(kids, n);
    case Member(l, r) =>
      ReplaceScoped(l, n);
      if r.Group? {
        ReplaceScoped(r.inner, n);
      } else {
        ReplaceScoped(r, n);
        ReplaceKeepsShape(r, n);
      }
    case Bind(_, r) => ReplaceScoped(r, n);
    case BindRight(l, _) => ReplaceScoped(l, n);
    case _ =>
  }

  lemma {:induction false} ReplaceAllScoped(ts: Trees, n: nat)
    requires AllScoped(ts, None)
    ensures AllScoped(ReplaceAll(ts, n), Some(n)) && AllScoped(ts, Some(n))
    decreases ts
  {
    if ts.Cons? {
      ReplaceScoped(ts.head, n);
      ReplaceAllScoped(ts.tail, n);
    }
  }

  lemma FreeNotSynthetic(params: Tree)
    requires Free(params)
    ensures !IsSynthetic(params)
  {
    assert params.Patterns? && params.items.Cons? ==> Free(params.items.head);
  }

  lemma {:induction false} SourceScoped(t: Tree)
    requires Source(t)
    ensures Scoped(t, None)
    decreases t
  {
    match t
    case Op(_, kids) => AllSourceScoped(kids);
    case Member(l, r) => SourceScoped(l); SourceScoped(r); if r.Group? { SourceScoped(r.inner); }
    case Group(inner) => SourceScoped(inner);
    case Bind(_, r) => SourceScoped(r);
    case BindRight(l, _) => SourceScoped(l);
    case Pipe(items) => AllSourceScoped(items);
    case Fn(params, body) => FreeNotSynthetic(params); AllSourceScoped(body);
    case _ =>
  }

  lemma {:induction false} AllSourceScoped(ts: Trees)
    requires AllSource(ts)
    ensures AllScoped(ts, None)
    decreases ts
  {
    if ts.Cons? {
      SourceScoped(ts.head);
      AllSourceScoped(ts.tail);
    }
  }

  lemma {:induction false} InnerScoped(t: Tree, c: nat)
    requires Source(t)
    ensures Scoped(Inner(t, c).0, None)
    decreases t, 0
  {
    match t
    case Op(_, kids) => InnerAllScoped(kids, c);
    case Member(l, r) =>
      InnerScoped(l, c);
      var c1 := Inner(l, c).1;
      if r.Group? {
        InnerScoped(r.inner, c1);
      } else {
        InnerScoped(r, c1);
        assert !Inner(r, c1).0.Group?;
      }
    case Group(inner) => StmtScoped(inner, c);
    case Bind(l, r) => InnerScoped(r, Inner(l, c).1);
    case BindRight(l, r) => InnerScoped(l, c);
    case Pipe(items) => InnerAllScoped(items, c);
    case Fn(params, body) =>
      InnerFree(params, c);
      FreeNotSynthetic(Inner(params, c).0);
      StmtAllScoped(body, c);
    case _ =>
  }

  lemma {:induction false} InnerAllScoped(ts: Trees, c: nat)
    requires AllSource(ts)
    ensures AllScoped(InnerAll(ts, c).0, None)
    decreases ts
  {
    if ts.Cons? {
      InnerScoped(ts.head, c);
      InnerAllScoped(ts.tail, Inner(ts.head, c).1);
    }
  }

  lemma {:induction false} StmtScoped(t: Tree, c: nat)
    requires Source(t)
    ensures Scoped(Stmt(t, c).0, None)
    decreases t, 1
  {
    if t.Bind? {
      StmtScoped(t.rhs, c);
    } else if t.BindRight? {
      StmtScoped(t.lhs, c);
    } else if t.Group? {
      StmtScoped(t.inner, c);
    } else if t.Fn? {
      FreeNotSynthetic(t.params);
      StmtAllScoped(t.body, c);
    } else if t.Pipe? {
      StmtAllScoped(t.items, c);
    } else if NeedsDescent(t) {
      InnerScoped(t, c);
      WrapScoped(Inner(t, c).0, Inner(t, c).1);
    } else {
      SourceScoped(t);
    }
  }

  lemma WrapScoped(t: Tree, c: nat)
    requires Scoped(t, None)
    ensures Scoped(Wrap(t, c).0, None)
  {
    ReplaceScoped(t, c);
    var body := Cons(Replace(t, c), Nil);
    assert IsSynthetic(SynthParams(c)) && AllScoped(body, Some(c));
  }

  lemma {:induction false} StmtAllScoped(ts: Trees, c: nat)
    requires AllSource(ts)
    ensures AllScoped(StmtAll(ts, c).0, None)
    decreases ts
  {
    if ts.Cons? {
      StmtScoped(ts.head, c);
      StmtAllScoped(ts.tail, Stmt(ts.head, c).1);
    }
  }

  // ---- The numbers ----------------------------------------------------------------------------------

  /** The numbers of the synthetic functions outside patterns, inner ones before the one around them. */
  function Numbers(t: Tree): seq<nat> {
    match t
    case Op(_, kids) => AllNumbers(kids)
    case Member(l, r) => Numbers(l) + Numbers(r)
    case Group(inner) => Numbers(inner)
    case Bind(_, r) => Numbers(r)
    case BindRight(l, _) => Numbers(l)
    case Pipe(items) => AllNumbers(items)
    case Fn(params, body) => AllNumbers(body) + if IsSynthetic(params) then [params.items.head.n] else []
    case Module(items) => AllNumbers(items)
    case _ => []
  }

  function AllNumbers(ts: Trees): seq<nat> {
    if ts.Nil? then [] else Numbers(ts.head) + AllNumbers(ts.tail)
  }

  function Range(a: nat, b: nat): (r: seq<nat>)
    requires a <= b
  {
    seq(b - a, i requires 0 <= i => a + i)
  }

  lemma {:induction false} ReplaceKeepsNumbers(t: Tree, n: nat)
    ensures Numbers(Replace(t, n)) == Numbers(t)
    decreases t
  {
    match t
    case Op(_, kids) => ReplaceAllKeepsNumbers(kids, n);
    case Member(l, r) => ReplaceKeepsNumbers(l, n); ReplaceKeepsNumbers(r, n); if r.Group? { ReplaceKeepsNumbers(r.inner, n); }
    case Bind(_, r) => ReplaceKeepsNumbers(r, n);
    case BindRight(l, _) => ReplaceKeepsNumbers(l, n);
    case _ =>
  }

  lemma {:induction false} ReplaceAllKeepsNumbers(ts: Trees, n: nat)
    ensures AllNumbers(ReplaceAll(ts, n)) == AllNumbers(ts)
    decreases ts
  {
    if ts.Cons? {
      ReplaceKeepsNumbers(ts.head, n);
      ReplaceAllKeepsNumbers(ts.tail, n);
    }
  }

  lemma {:induction false} SourceHasNoNumbers(t: Tree)
    requires Source(t)
    ensures Numbers(t) == []
    decreases t
  {
    match t
    case Op(_, kids) => AllSourceHaveNoNumbers(kids);
    case Member(l, r) => SourceHasNoNumbers(l); SourceHasNoNumbers(r);
    case Group(inner) => SourceHasNoNumbers(inner);
    case Bind(_, r) => SourceHasNoNumbers(r);
    case BindRight(l, _) => SourceHasNoNumbers(l);
    case Pipe(items) => AllSourceHaveNoNumbers(items);
    case Fn(params, body) => FreeNotSynthetic(params); AllSourceHaveNoNumbers(body);
    case _ =>
  }

  lemma {:induction false} AllSourceHaveNoNumbers(ts: Trees)
    requires AllSource(ts)
    ensures AllNumbers(ts) == []
    decreases ts
  {
    if ts.Cons? {
      SourceHasNoNumbers(ts.head);
      AllSourceHaveNoNumbers(ts.tail);
    }
  }

  /** `ns` are the numbers from `a` up to `b`. */
  predicate Fills(ns: seq<nat>, a: nat, b: nat) {
    a <= b && ns == Range(a, b)
  }

  lemma FillsConcat(ms: seq<nat>, ns: seq<nat>, a: nat, b: nat, c: nat)
    requires Fills(ms, a, b) && Fills(ns, b, c)
    ensures Fills(ms + ns, a, c)
  {
  }

  lemma FillsNothing(a: nat)
    ensures Fills([], a, a)
  {
  }

  lemma {:induction false} InnerNumbers(t: Tree, c: nat)
    requires Source(t)
    ensures Fills(Numbers(Inner(t, c).0), c, Inner(t, c).1)
    decreases t, 0
  {
    hide Fills;
    FillsNothing(c);
    match t
    case Op(_, kids) => InnerAllNumbers(kids, c);
    case Member(l, r) =>
      InnerNumbers(l, c);
      var (l', c1) := Inner(l, c);
      if r.Group? {
        InnerNumbers(r.inner, c1);
        FillsConcat(Numbers(l'), Numbers(Inner(r.inner, c1).0), c, c1, Inner(r.inner, c1).1);
      } else {
        InnerNumbers(r, c1);
        FillsConcat(Numbers(l'), Numbers(Inner(r, c1).0), c, c1, Inner(r, c1).1);
      }
    case Group(inner) => StmtNumbers(inner, c);
    case Bind(l, r) => InnerFree(l, c); InnerNumbers(r, c);
    case BindRight(l, r) => InnerNumbers(l, c); InnerFree(r, Inner(l, c).1);
    case Pipe(items) => InnerAllNumbers(items, c);
    case Fn(params, body) =>
      InnerFree(params, c);
      FreeNotSynthetic(Inner(params, c).0);
      StmtAllNumbers(body, c);
      assert Numbers(Inner(t, c).0) == AllNumbers(StmtAll(body, c).0);
    case _ =>
  }

  lemma {:induction false} InnerAllNumbers(ts: Trees, c: nat)
    requires AllSource(ts)
    ensures Fills(AllNumbers(InnerAll(ts, c).0), c, InnerAll(ts, c).1)
    decreases ts
  {
    hide Fills;
    if ts.Cons? {
      InnerNumbers(ts.head, c);
      var (t, c1) := Inner(ts.head, c);
      InnerAllNumbers(ts.tail, c1);
      FillsConcat(Numbers(t), AllNumbers(InnerAll(ts.tail, c1).0), c, c1, InnerAll(ts.tail, c1).1);
    } else {
      FillsNothing(c);
    }
  }

  lemma {:induction false} StmtNumbers(t: Tree, c: nat)
    requires Source(t)
    ensures Fills(Numbers(Stmt(t, c).0), c, Stmt(t, c).1)
    decreases t, 1
  {
    hide Fills;
    if t.Bind? {
      StmtNumbers(t.rhs, c);
    } else if t.BindRight? {
      StmtNumbers(t.lhs, c);
    } else if t.Group? {
      StmtNumbers(t.inner, c);
    } else if t.Fn? {
      FreeNotSynthetic(t.params);
      StmtAllNumbers(t.body, c);
      assert Numbers(Stmt(t, c).0) == AllNumbers(StmtAll(t.body, c).0);
    } else if t.Pipe? {
      StmtAllNumbers(t.items, c);
    } else if NeedsDescent(t) {
      InnerNumbers(t, c);
      WrapNumbers(Inner(t, c).0, c, Inner(t, c).1);
    } else {
      SourceHasNoNumbers(t);
      FillsNothing(c);
    }
  }

  lemma WrapNumbers(t: Tree, a: nat, c: nat)
    requires Fills(Numbers(t), a, c)
    ensures Fills(Numbers(Wrap(t, c).0), a, Wrap(t, c).1)
  {
    ReplaceKeepsNumbers(t, c);
    var body := Cons(Replace(t, c), Nil);
    assert AllNumbers(body) == Numbers(t) + [];
    assert Fills([c], c, c + 1);
    FillsConcat(Numbers(t), [c], a, c, c + 1);
    assert IsSynthetic(SynthParams(c));
  }

  lemma {:induction false} StmtAllNumbers(ts: Trees, c: nat)
    requires AllSource(ts)
    ensures Fills(AllNumbers(StmtAll(ts, c).0), c, StmtAll(ts, c).1)
    decreases ts
  {
    hide Fills;
    if ts.Cons? {
      StmtNumbers(ts.head, c);
      var (t, c1) := Stmt(ts.head, c);
      StmtAllNumbers(ts.tail, c1);
      FillsConcat(Numbers(t), AllNumbers(StmtAll(ts.tail, c1).0), c, c1, StmtAll(ts.tail, c1).1);
    } else {
      FillsNothing(c);
    }
  }

  // ---- Undoing the rewrite --------------------------------------------------------------------------

  /** The tree without synthetic functions and without groups, computed keys aside, every use a hole again. */
  function Erase(t: Tree): Tree {
    match t
    case Leaf(_) => t
    case Hole => Hole
    case Synth(_) => Hole
    case Op(tag, kids) => Op(tag, EraseAll(kids))
    case Member(l, r) => Member(Erase(l), if r.Group? then Group(Erase(r.inner)) else Erase(r))
    case Group(inner) => Erase(inner)
    case Bind(l, r) => Bind(Erase(l), Erase(r))
    case BindRight(l, r) => BindRight(Erase(l), Erase(r))
    case Pipe(items) => Pipe(EraseAll(items))
    case Fn(params, body) =>
      if IsSynthetic(params) && body.Cons? && body.tail.Nil? then Erase(body.head)
      else Fn(Erase(params), EraseAll(body))
    case Patterns(items) => Patterns(EraseAll(items))
    case Module(items) => Module(EraseAll(items))
  }

  function EraseAll(ts: Trees): Trees {
    match ts
    case Nil => Nil
    case Cons(t, rest) => Cons(Erase(t), EraseAll(rest))
  }

  lemma {:induction false} ReplaceErased(t: Tree, n: nat)
    ensures Erase(Replace(t, n)) == Erase(t)
    decreases t
  {
    match t
    case Op(_, kids) => ReplaceAllErased(kids, n);
    case Member(l, r) =>
      ReplaceErased(l, n);
      ReplaceErased(r, n);
      if r.Group? {
        ReplaceErased(r.inner, n);
      } else {
        ReplaceKeepsShape(r, n);
      }
    case Bind(_, r) => ReplaceErased(r, n);
    case BindRight(l, _) => ReplaceErased(l, n);
    case _ =>
  }

  lemma {:induction false} ReplaceAllErased(ts: Trees, n: nat)
    ensures EraseAll(ReplaceAll(ts, n)) == EraseAll(ts)
    decreases ts
  {
    if ts.Cons? {
      ReplaceErased(ts.head, n);
      ReplaceAllErased(ts.tail, n);
    }
  }

  /** What a pattern or an expression is: either kind of tree that a rewrite is started on. */
  predicate Given(t: Tree) {
    Free(t) || Source(t)
  }

  predicate AllGiven(ts: Trees) {
    AllFree(ts) || AllSource(ts)
  }

  lemma {:induction false} InnerErased(t: Tree, c: nat)
    requires Given(t)
    ensures Erase(Inner(t, c).0) == Erase(t)
    decreases t, 0
  {
    match t
    case Op(_, kids) => InnerAllErased(kids, c);
    case Member(l, r) =>
      InnerErased(l, c);
      var c1 := Inner(l, c).1;
      if r.Group? {
        assert (Free(r) ==> Free(r.inner)) && (Source(r) ==> Source(r.inner));
        InnerErased(r.inner, c1);
      } else {
        InnerErased(r, c1);
        assert !Inner(r, c1).0.Group?;
      }
    case Group(inner) => StmtErased(inner, c);
    case Bind(l, r) => InnerErased(l, c); InnerErased(r, Inner(l, c).1);
    case BindRight(l, r) => InnerErased(l, c); InnerErased(r, Inner(l, c).1);
    case Pipe(items) => InnerAllErased(items, c);
    case Fn(params, body) =>
      InnerFree(params, c);
      FreeNotSynthetic(params);
      FreeNotSynthetic(Inner(params, c).0);
      InnerErased(params, c);
      StmtAllErased(body, c);
    case Patterns(items) => InnerAllErased(items, c);
    case Module(items) => InnerAllErased(items, c);
    case _ =>
  }

  lemma {:induction false} InnerAllErased(ts: Trees, c: nat)
    requires AllGiven(ts)
    ensures EraseAll(InnerAll(ts, c).0) == EraseAll(ts)
    decreases ts
  {
    if ts.Cons? {
      InnerErased(ts.head, c);
      InnerAllErased(ts.tail, Inner(ts.head, c).1);
    }
  }

  lemma {:induction false} StmtErased(t: Tree, c: nat)
    requires Given(t)
    ensures Erase(Stmt(t, c).0) == Erase(t)
    decreases t, 1
  {
    if t.Bind? {
      StmtErased(t.rhs, c);
    } else if t.BindRight? {
      StmtErased(t.lhs, c);
    } else if t.Group? {
      StmtErased(t.inner, c);
    } else if t.Fn? {
      FreeNotSynthetic(t.params);
      StmtAllErased(t.body, c);
    } else if t.Pipe? || t.Module? {
      StmtAllErased(t.items, c);
    } else if NeedsDescent(t) {
      InnerErased(t, c);
      ReplaceErased(Inner(t, c).0, Inner(t, c).1);
    }
  }

  lemma {:induction false} StmtAllErased(ts: Trees, c: nat)
    requires AllGiven(ts)
    ensures EraseAll(StmtAll(ts, c).0) == EraseAll(ts)
    decreases ts
  {
    if ts.Cons? {
      StmtErased(ts.head, c);
      StmtAllErased(ts.tail, Stmt(ts.head, c).1);
    }
  }

  // ---- Where synthetic functions stand --------------------------------------------------------------

  /** How many holes there are in all. */
  function Holes(t: Tree): nat {
    match t
    case Leaf(_) => 0
    case Hole => 1
    case Synth(_) => 0
    case Op(_, kids) => AllHoles(kids)
    case Member(l, r) => Holes(l) + Holes(r)
    case Group(inner) => Holes(inner)
    case Bind(l, r) => Holes(l) + Holes(r)
    case BindRight(l, r) => Holes(l) + Holes(r)
    case Pipe(items) => AllHoles(items)
    case Fn(params, body) => Holes(params) + AllHoles(body)
    case Patterns(items) => AllHoles(items)
    case Module(items) => AllHoles(items)
  }

  function AllHoles(ts: Trees): nat {
    if ts.Nil? then 0 else Holes(ts.head) + AllHoles(ts.tail)
  }

  /** How many of them are of this scope: not in a group that is no computed key, a pipe, a function or a pattern. */
  function OwnHoles(t: Tree): nat {
    match t
    case Hole => 1
    case Op(_, kids) => AllOwnHoles(kids)
    case Member(l, r) => OwnHoles(l) + if r.Group? then OwnHoles(r.inner) else OwnHoles(r)
    case Bind(_, r) => OwnHoles(r)
    case BindRight(l, _) => OwnHoles(l)
    case _ => 0
  }

  function AllOwnHoles(ts: Trees): nat {
    if ts.Nil? then 0 else OwnHoles(ts.head) + AllOwnHoles(ts.tail)
  }

  /** What becomes of a scope: a binding stays one with its pattern, a pipe one with as many segments, a function one
      with its parameters, and each value, segment and statement is a scope again; a group gives way to what is in it if
      that has a hole of its own. Any other expression is wrapped in a synthetic function exactly when it has a hole
      of its own, and is left alone when there is no hole in it at all. */
  predicate Placed(t: Tree, t': Tree)
    decreases t, 2
  {
    match t
    case Bind(l, r) => t'.Bind? && t'.lhs == l && Placed(r, t'.rhs)
    case BindRight(l, r) => t'.BindRight? && Placed(l, t'.lhs) && t'.rhs == r
    case Group(inner) => if OwnHoles(inner) > 0 then Placed(inner, t') else t'.Group? && Placed(inner, t'.inner)
    case Pipe(items) => t'.Pipe? && AllPlaced(items, t'.items)
    case Fn(params, body) => t'.Fn? && t'.params == params && AllPlaced(body, t'.body)
    case Module(items) => t'.Module? && AllPlaced(items, t'.items)
    case _ => PlacedAround(t, t')
  }

  predicate PlacedAround(t: Tree, t': Tree)
    decreases t, 1
  {
    if Holes(t) == 0 then t' == t
    else if OwnHoles(t) == 0 then Within(t, t', None)
    else
      match t'
      case Fn(Patterns(Cons(Synth(n), Nil)), Cons(body, Nil)) => Within(t, body, Some(n))
      case _ => false
  }

  predicate AllPlaced(ts: Trees, ts': Trees)
    decreases ts
  {
    if ts.Nil? then ts'.Nil? else ts'.Cons? && Placed(ts.head, ts'.head) && AllPlaced(ts.tail, ts'.tail)
  }

  /** What becomes of what is in a scope: its holes become uses of the parameter `n`, and stay holes when it has none.
      What is in a group or a function is a scope again; a pipe is not, and its holes stay. */
  predicate Within(t: Tree, t': Tree, n: Option<nat>)
    decreases t, 0
  {
    match t
    case Leaf(_) => t' == t
    case Hole => t' == if n.Some? then Synth(n.value) else Hole
    case Synth(_) => t' == t
    case Op(tag, kids) => t'.Op? && t'.tag == tag && AllWithin(kids, t'.kids, n)
    case Member(l, r) =>
      && t'.Member? && Within(l, t'.lhs, n)
      && if r.Group? then t'.rhs.Group? && Within(r.inner, t'.rhs.inner, n) else Within(r, t'.rhs, n)
    case Group(inner) => Placed(inner, t')
    case Bind(l, r) => t'.Bind? && Within(l, t'.lhs, None) && Within(r, t'.rhs, n)
    case BindRight(l, r) => t'.BindRight? && Within(l, t'.lhs, n) && Within(r, t'.rhs, None)
    case Pipe(items) => t'.Pipe? && AllWithin(items, t'.items, None)
    case Fn(params, body) => t'.Fn? && Within(params, t'.params, None) && AllPlaced(body, t'.body)
    case Patterns(items) => t'.Patterns? && AllWithin(items, t'.items, n)
    case Module(items) => t'.Module? && AllWithin(items, t'.items, n)
  }

  predicate AllWithin(ts: Trees, ts': Trees, n: Option<nat>)
    decreases ts
  {
    if ts.Nil? then ts'.Nil? else ts'.Cons? && Within(ts.head, ts'.head, n) && AllWithin(ts.tail, ts'.tail, n)
  }

  lemma {:induction false} FreeIsWhole(t: Tree)
    requires Free(t)
    ensures Holes(t) == 0 == OwnHoles(t)
    decreases t
  {
    match t
    case Op(_, kids) => AllFreeAreWhole(kids);
    case Member(l, r) => FreeIsWhole(l); FreeIsWhole(r); if r.Group? { FreeIsWhole(r.inner); }
    case Group(inner) => FreeIsWhole(inner);
    case Bind(l, r) => FreeIsWhole(l); FreeIsWhole(r);
    case BindRight(l, r) => FreeIsWhole(l); FreeIsWhole(r);
    case Pipe(items) => AllFreeAreWhole(items);
    case Fn(params, body) => FreeIsWhole(params); AllFreeAreWhole(body);
    case Patterns(items) => AllFreeAreWhole(items);
    case Module(items) => AllFreeAreWhole(items);
    case _ =>
  }

  lemma {:induction false} AllFreeAreWhole(ts: Trees)
    requires AllFree(ts)
    ensures AllHoles(ts) == 0 == AllOwnHoles(ts)
    decreases ts
  {
    if ts.Cons? {
      FreeIsWhole(ts.head);
      AllFreeAreWhole(ts.tail);
    }
  }

  /** What the pass asks of a tree is whether it has a hole at all, and whether it has one of its own. */
  lemma {:induction false} AsksForHoles(t: Tree)
    requires Source(t)
    ensures (NeedsDescent(t) <==> Holes(t) > 0) && (HasHole(t) <==> OwnHoles(t) > 0) && OwnHoles(t) <= Holes(t)
    decreases t
  {
    match t
    case Op(_, kids) => AllAskForHoles(kids);
    case Member(l, r) => AsksForHoles(l); AsksForHoles(r); if r.Group? { AsksForHoles(r.inner); }
    case Group(inner) => AsksForHoles(inner);
    case Bind(l, r) => FreeIsWhole(l); AsksForHoles(r);
    case BindRight(l, r) => AsksForHoles(l); FreeIsWhole(r);
    case Pipe(items) => AllAskForHoles(items);
    case Fn(params, body) => FreeIsWhole(params); FreeHasNoHole(params); AllAskForHoles(body);
    case _ =>
  }

  lemma {:induction false} AllAskForHoles(ts: Trees)
    requires AllSource(ts)
    ensures (AnyNeedsDescent(ts) <==> AllHoles(ts) > 0) && (AnyHasHole(ts) <==> AllOwnHoles(ts) > 0)
    ensures AllOwnHoles(ts) <= AllHoles(ts)
    decreases ts
  {
    if ts.Cons? {
      AsksForHoles(ts.head);
      AllAskForHoles(ts.tail);
    }
  }

  lemma {:induction false} InnerWithin(t: Tree, c: nat)
    requires Given(t)
    ensures Within(t, Inner(t, c).0, None)
    decreases t, 0
  {
    match t
    case Op(_, kids) => InnerAllWithin(kids, c);
    case Member(l, r) =>
      InnerWithin(l, c);
      var c1 := Inner(l, c).1;
      if r.Group? {
        assert (Free(r) ==> Free(r.inner)) && (Source(r) ==> Source(r.inner));
        InnerWithin(r.inner, c1);
      } else {
        InnerWithin(r, c1);
      }
    case Group(inner) => StmtPlaced(inner, c);
    case Bind(l, r) => InnerWithin(l, c); InnerWithin(r, Inner(l, c).1);
    case BindRight(l, r) => InnerWithin(l, c); InnerWithin(r, Inner(l, c).1);
    case Pipe(items) => InnerAllWithin(items, c);
    case Fn(params, body) => InnerWithin(params, c); StmtAllPlaced(body, Inner(params, c).1);
    case Patterns(items) => InnerAllWithin(items, c);
    case Module(items) => InnerAllWithin(items, c);
    case _ =>
  }

  lemma {:induction false} InnerAllWithin(ts: Trees, c: nat)
    requires AllGiven(ts)
    ensures AllWithin(ts, InnerAll(ts, c).0, None)
    decreases ts
  {
    if ts.Cons? {
      InnerWithin(ts.head, c);
      InnerAllWithin(ts.tail, Inner(ts.head, c).1);
    }
  }

  lemma {:induction false} NothingToReplace(ts: Trees, n: nat)
    requires !AnyHasHoleDeep(ts)
    ensures ReplaceAll(ts, n) == ts
    decreases ts
  {
    if ts.Cons? {
      NothingToReplace(ts.tail, n);
    }
  }

  /** Rewriting inside and then replacing does in two passes what belongs to one. */
  lemma {:induction false} ReplacedWithin(t: Tree, c: nat, n: nat)
    requires Source(t)
    ensures Within(t, Replace(Inner(t, c).0, n), Some(n))
    decreases t, 0
  {
    match t
    case Op(_, kids) =>
      AllReplacedWithin(kids, c, n);
      if !AnyHasHoleDeep(InnerAll(kids, c).0) {
        NothingToReplace(InnerAll(kids, c).0, n);
      }
    case Member(l, r) =>
      ReplacedWithin(l, c, n);
      if r.Group? {
        ReplacedWithin(r.inner, Inner(l, c).1, n);
      } else {
        ReplacedWithin(r, Inner(l, c).1, n);
        assert !Inner(r, Inner(l, c).1).0.Group?;
      }
    case Group(inner) => StmtHoles(inner, c); StmtPlaced(inner, c);
    case Bind(l, r) => InnerWithin(l, c); ReplacedWithin(r, Inner(l, c).1, n);
    case BindRight(l, r) => ReplacedWithin(l, c, n); InnerWithin(r, Inner(l, c).1);
    case Pipe(items) => InnerAllWithin(items, c);
    case Fn(params, body) =>
      InnerHoles(t, c);
      InnerWithin(params, c);
      StmtAllPlaced(body, Inner(params, c).1);
    case _ =>
  }

  lemma {:induction false} AllReplacedWithin(ts: Trees, c: nat, n: nat)
    requires AllSource(ts)
    ensures AllWithin(ts, ReplaceAll(InnerAll(ts, c).0, n), Some(n))
    decreases ts
  {
    if ts.Cons? {
      ReplacedWithin(ts.head, c, n);
      AllReplacedWithin(ts.tail, Inner(ts.head, c).1, n);
    }
  }

  /** The rewrite of any scope puts synthetic functions exactly where they belong. */
  lemma {:induction false} StmtPlaced(t: Tree, c: nat)
    requires Given(t)
    ensures Placed(t, Stmt(t, c).0)
    decreases t, 1
  {
    if t.Bind? {
      StmtPlaced(t.rhs, c);
    } else if t.BindRight? {
      StmtPlaced(t.lhs, c);
    } else if t.Group? {
      StmtPlaced(t.inner, c);
      HoleOrNone(t.inner);
    } else if t.Fn? {
      StmtAllPlaced(t.body, c);
    } else if t.Pipe? || t.Module? {
      StmtAllPlaced(t.items, c);
    } else {
      HoleOrNone(t);
      if NeedsDescent(t) {
        FreeOrSource(t);
        InnerHoles(t, c);
        InnerWithin(t, c);
        ReplacedWithin(t, c, Inner(t, c).1);
      }
    }
  }

  lemma HoleOrNone(t: Tree)
    requires Given(t)
    ensures (NeedsDescent(t) <==> Holes(t) > 0) && (HasHole(t) <==> OwnHoles(t) > 0) && OwnHoles(t) <= Holes(t)
  {
    if Free(t) {
      FreeIsWhole(t);
      FreeHasNoHole(t);
    } else {
      AsksForHoles(t);
    }
  }

  lemma FreeOrSource(t: Tree)
    requires Given(t) && NeedsDescent(t)
    ensures Source(t)
  {
    if Free(t) {
      FreeHasNoHole(t);
    }
  }

  lemma {:induction false} StmtAllPlaced(ts: Trees, c: nat)
    requires AllGiven(ts)
    ensures AllPlaced(ts, StmtAll(ts, c).0)
    decreases ts
  {
    if ts.Cons? {
      StmtPlaced(ts.head, c);
      StmtAllPlaced(ts.tail, Stmt(ts.head, c).1);
    }
  }

  // ---- A whole module -------------------------------------------------------------------------------

  /** Desugaring a module: every statement keeps its outer node, and a synthetic function stands around exactly the
      scopes that have a hole of their own; undoing it gives the module back; the synthetic functions are numbered in order
      from zero, each once; every use belongs to the function that wraps its scope; and no hole is left
      outside the patterns exactly when no pipe is astray. */
  lemma ModuleIsDesugared(items: Trees)
    requires AllSource(items)
    ensures var (t, c) := Stmt(Module(items), 0);
            && Placed(Module(items), t)
            && Erase(t) == Erase(Module(items)) && Numbers(t) == Range(0, c) && Scoped(t, None)
            && (Clean(t) <==> !AnyStray(items))
  {
    StmtAllPlaced(items, 0);
    StmtAllErased(items, 0);
    StmtAllNumbers(items, 0);
    StmtAllScoped(items, 0);
    StmtAllClean(items, 0);
  }

  /** A call with a piped argument keeps the hole of the pipe's segment. */
  lemma StrayPipeKeepsHole()
    ensures var call := Op("apply", Cons(Pipe(Cons(Hole, Nil)), Nil));
            Stray(call) && Stmt(call, 0).0 == call
  {
    var pipe := Pipe(Cons(Hole, Nil));
    assert AnyHasHole(pipe.items) && AnyNeedsDescent(pipe.items);
    assert InnerAll(pipe.items, 0) == (pipe.items, 0);
    var kids := Cons(pipe, Nil);
    assert AnyNeedsDescent(kids) && InnerAll(kids, 0) == (kids, 0) && !AnyHasHoleDeep(kids) && AnyStrayWithin(kids);
  }
}
