/** The partial-application pass as it runs: an append-only arena of nodes, a counter, and rewrites that return
    node ids. */
module DesugarArena {
  import opened Collections
  import opened PartialApplication

  /** A node; its children are ids of earlier nodes. */
  datatype Node =
    | LeafNode(text: string)
    | HoleNode
    | SynthNode(n: nat)
    | OpNode(tag: string, kids: seq<nat>)
    | MemberNode(lhs: nat, rhs: nat)
    | GroupNode(inner: nat)
    | BindNode(lhs: nat, rhs: nat)
    | BindRightNode(lhs: nat, rhs: nat)
    | PipeNode(items: seq<nat>)
    | FnNode(params: nat, body: seq<nat>)
    | PatternsNode(items: seq<nat>)
    | ModuleNode(items: seq<nat>)

  type Arena = seq<Node>

  predicate AllBelow(ids: seq<nat>, b: nat) {
    forall k :: 0 <= k < |ids| ==> ids[k] < b
  }

  predicate Below(node: Node, b: nat) {
    match node
    case LeafNode(_) => true
    case HoleNode => true
    case SynthNode(_) => true
    case OpNode(_, kids) => AllBelow(kids, b)
    case MemberNode(l, r) => l < b && r < b
    case GroupNode(inner) => inner < b
    case BindNode(l, r) => l < b && r < b
    case BindRightNode(l, r) => l < b && r < b
    case PipeNode(items) => AllBelow(items, b)
    case FnNode(params, body) => params < b && AllBelow(body, b)
    case PatternsNode(items) => AllBelow(items, b)
    case ModuleNode(items) => AllBelow(items, b)
  }

  predicate Ordered(a: Arena) {
    forall i :: 0 <= i < |a| ==> Below(a[i], i)
  }

  /** The tree at an id. */
  function View(a: Arena, id: nat): Tree
    requires Ordered(a) && id < |a|
    decreases id, 2, 0
  {
    assert Below(a[id], id);
    ViewNode(a, a[id], id)
  }

  /** The tree of a node whose children are below `b`. */
  function ViewNode(a: Arena, node: Node, b: nat): Tree
    requires Ordered(a) && b <= |a| && Below(node, b)
    decreases b, 1, 0
  {
    match node
    case LeafNode(text) => Leaf(text)
    case HoleNode => Hole
    case SynthNode(n) => Synth(n)
    case OpNode(tag, kids) => Op(tag, Views(a, kids, b))
    case MemberNode(l, r) => Member(View(a, l), View(a, r))
    case GroupNode(inner) => Group(View(a, inner))
    case BindNode(l, r) => Bind(View(a, l), View(a, r))
    case BindRightNode(l, r) => BindRight(View(a, l), View(a, r))
    case PipeNode(items) => Pipe(Views(a, items, b))
    case FnNode(params, body) => Fn(View(a, params), Views(a, body, b))
    case PatternsNode(items) => Patterns(Views(a, items, b))
    case ModuleNode(items) => Module(Views(a, items, b))
  }

  /** The trees at ids below `b`. */
  function Views(a: Arena, ids: seq<nat>, b: nat): Trees
    requires Ordered(a) && b <= |a| && AllBelow(ids, b)
    decreases b, 0, |ids|
  {
    if ids == [] then Nil else Cons(View(a, ids[0]), Views(a, ids[1..], b))
  }

  /** Appending changes no tree that is already there. */
  lemma {:induction false} ViewKept(a: Arena, a': Arena, id: nat)
    requires Ordered(a) && Ordered(a') && a <= a' && id < |a|
    ensures View(a', id) == View(a, id)
    decreases id, 2, 0
  {
    assert Below(a[id], id) && a'[id] == a[id];
    NodeKept(a, a', a[id], id, id);
  }

  lemma {:induction false} NodeKept(a: Arena, a': Arena, node: Node, b: nat, b': nat)
    requires Ordered(a) && Ordered(a') && a <= a' && b <= |a| && b' <= |a'| && Below(node, b) && Below(node, b')
    ensures ViewNode(a', node, b') == ViewNode(a, node, b)
    decreases b, 1, 0
  {
    match node
    case OpNode(_, kids) => ViewsKept(a, a', kids, b, b');
    case MemberNode(l, r) => ViewKept(a, a', l); ViewKept(a, a', r);
    case GroupNode(inner) => ViewKept(a, a', inner);
    case BindNode(l, r) => ViewKept(a, a', l); ViewKept(a, a', r);
    case BindRightNode(l, r) => ViewKept(a, a', l); ViewKept(a, a', r);
    case PipeNode(items) => ViewsKept(a, a', items, b, b');
    case FnNode(params, body) => ViewKept(a, a', params); ViewsKept(a, a', body, b, b');
    case PatternsNode(items) => ViewsKept(a, a', items, b, b');
    case ModuleNode(items) => ViewsKept(a, a', items, b, b');
    case _ =>
  }

  lemma {:induction false} ViewsKept(a: Arena, a': Arena, ids: seq<nat>, b: nat, b': nat)
    requires Ordered(a) && Ordered(a') && a <= a' && b <= |a| && b' <= |a'| && AllBelow(ids, b) && AllBelow(ids, b')
    ensures Views(a', ids, b') == Views(a, ids, b)
    decreases b, 0, |ids|
  {
    if ids != [] {
      ViewKept(a, a', ids[0]);
      ViewsKept(a, a', ids[1..], b, b');
    }
  }

  /** The tree of a node just appended. */
  lemma NewView(a: Arena, node: Node)
    requires Ordered(a) && Below(node, |a|)
    ensures Ordered(a + [node]) && View(a + [node], |a|) == ViewNode(a, node, |a|)
  {
    var a' := a + [node];
    forall i | 0 <= i < |a'|
      ensures Below(a'[i], i)
    {
      assert i < |a| ==> a'[i] == a[i];
    }
    NodeKept(a, a', node, |a|, |a|);
  }

  function Append(xs: Trees, ys: Trees): Trees {
    match xs
    case Nil => ys
    case Cons(x, rest) => Cons(x, Append(rest, ys))
  }

  lemma {:induction false} AppendOne(xs: Trees, y: Tree, ys: Trees)
    ensures Append(Append(xs, Cons(y, Nil)), ys) == Append(xs, Cons(y, ys))
  {
    if xs.Cons? {
      AppendOne(xs.tail, y, ys);
    }
  }

  lemma {:induction false} AppendNil(xs: Trees)
    ensures Append(xs, Nil) == xs
  {
    if xs.Cons? {
      AppendNil(xs.tail);
    }
  }

  /** One more id at the end. */
  lemma {:induction false} ViewsSnoc(a: Arena, ids: seq<nat>, id: nat)
    requires Ordered(a) && AllBelow(ids, |a|) && id < |a|
    ensures AllBelow(ids + [id], |a|)
    ensures Views(a, ids + [id], |a|) == Append(Views(a, ids, |a|), Cons(View(a, id), Nil))
    decreases ids
  {
    var more := ids + [id];
    if ids == [] {
      assert more[1..] == [];
    } else {
      assert more[0] == ids[0] && more[1..] == ids[1..] + [id];
      ViewsSnoc(a, ids[1..], id);
    }
  }

  lemma ViewsOne(a: Arena, id: nat, b: nat)
    requires Ordered(a) && id < b <= |a|
    ensures Views(a, [id], b) == Cons(View(a, id), Nil)
  {
    assert [id][1..] == [];
  }

  /** The three nodes of a synthetic function around a body. */
  lemma SyntheticView(a: Arena, body: nat, n: nat)
    requires Ordered(a) && body < |a|
    ensures var a1 := a + [SynthNode(n)];
            var a2 := a1 + [PatternsNode([|a|])];
            && Ordered(a1) && Ordered(a2)
            && ViewNode(a2, FnNode(|a1|, [body]), |a2|) == Fn(SynthParams(n), Cons(View(a, body), Nil))
  {
    var a1 := a + [SynthNode(n)];
    var a2 := a1 + [PatternsNode([|a|])];
    NewView(a, SynthNode(n));
    ViewsOne(a1, |a|, |a1|);
    NewView(a1, PatternsNode([|a|]));
    ViewKept(a, a2, body);
    ViewsOne(a2, body, |a2|);
  }

  predicate IsAtom(node: Node) {
    node.LeafNode? || node.HoleNode? || node.SynthNode?
  }

  /** No hole anywhere. */
  predicate HoleFree(t: Tree) {
    match t
    case Hole => false
    case Leaf(_) => true
    case Synth(_) => true
    case Op(_, kids) => AllHoleFree(kids)
    case Member(l, r) => HoleFree(l) && HoleFree(r)
    case Group(inner) => HoleFree(inner)
    case Bind(l, r) => HoleFree(l) && HoleFree(r)
    case BindRight(l, r) => HoleFree(l) && HoleFree(r)
    case Pipe(items) => AllHoleFree(items)
    case Fn(params, body) => HoleFree(params) && AllHoleFree(body)
    case Patterns(items) => AllHoleFree(items)
    case Module(items) => AllHoleFree(items)
  }

  predicate AllHoleFree(ts: Trees) {
    ts.Cons? ==> HoleFree(ts.head) && AllHoleFree(ts.tail)
  }

  /** Without a hole there is nothing to descend to and no scope to close. */
  lemma {:induction false} HoleFreeRests(t: Tree)
    requires HoleFree(t)
    ensures !NeedsDescent(t) && !HasHole(t)
    decreases t
  {
    match t
    case Op(_, kids) => AllHoleFreeRest(kids);
    case Member(l, r) =>
      HoleFreeRests(l);
      HoleFreeRests(r);
      if r.Group? {
        HoleFreeRests(r.inner);
      }
    case Group(inner) => HoleFreeRests(inner);
    case Patterns(items) => AllHoleFreeRest(items);
    case Module(items) => AllHoleFreeRest(items);
    case Bind(_, r) => HoleFreeRests(r);
    case BindRight(l, _) => HoleFreeRests(l);
    case Pipe(items) => AllHoleFreeRest(items);
    case Fn(params, body) =>
      HoleFreeRests(params);
      AllHoleFreeRest(body);
    case _ =>
  }

  lemma {:induction false} AllHoleFreeRest(ts: Trees)
    requires AllHoleFree(ts)
    ensures !AnyNeedsDescent(ts) && !AnyHasHole(ts)
    decreases ts
  {
    if ts.Cons? {
      HoleFreeRests(ts.head);
      AllHoleFreeRest(ts.tail);
    }
  }

  class Desugarer {
    const src: Arena
    var nodes: Arena
    var synthCounter: nat

    ghost predicate Valid()
      reads this
    {
      Ordered(src) && Ordered(nodes) && src <= nodes
    }

    constructor (src: Arena)
      requires Ordered(src)
      ensures Valid() && this.src == src && nodes == src && synthCounter == 0
    {
      this.src, nodes, synthCounter := src, src, 0;
    }

    /** The one way the arena changes. */
    method AppendNode(node: Node) returns (id: nat)
      requires Valid() && Below(node, |nodes|)
      modifies `nodes
      ensures Valid() && id == |old(nodes)| && nodes == old(nodes) + [node]
      ensures View(nodes, id) == ViewNode(old(nodes), node, id)
    {
      NewView(nodes, node);
      id := |nodes|;
      nodes := nodes + [node];
    }

    // ---- Replacing the holes of a scope -------------------------------------------------------------

    method ReplacePartial(id: nat, n: nat) returns (r: nat)
      requires Valid() && id < |nodes|
      modifies `nodes
      ensures Valid() && old(nodes) <= nodes && r < |nodes|
      ensures View(nodes, r) == Replace(View(old(nodes), id), n)
      ensures !HasHoleDeep(View(old(nodes), id)) ==> r == id && nodes == old(nodes)
      decreases id, 1
    {
      hide HasHoleDeep, AnyHasHoleDeep, ReplaceAll;
      if !HasHoleDeep(View(nodes, id)) {
        return id;
      }
      ghost var was, t := nodes, View(nodes, id);
      var node := nodes[id];
      assert Below(node, id) && t == ViewNode(was, node, id);
      NodeKept(was, was, node, id, |was|);
      if node.HoleNode? {
        node := SynthNode(n);
      } else if node.OpNode? {
        var kids := ReplaceIds(node.kids, n, id);
        node := OpNode(node.tag, kids);
      } else if node.MemberNode? || node.BindNode? || node.BindRightNode? {
        node := ReplacePair(id, n);
      }
      r := AppendNode(node);
    }

    /** Both sides of a member; of a binding only the value, not the pattern. */
    method ReplacePair(id: nat, n: nat) returns (node: Node)
      requires Valid() && id < |nodes| && HasHoleDeep(View(nodes, id))
      requires nodes[id].MemberNode? || nodes[id].BindNode? || nodes[id].BindRightNode?
      modifies `nodes
      ensures Valid() && old(nodes) <= nodes && Below(node, |nodes|)
      ensures ViewNode(nodes, node, |nodes|) == Replace(View(old(nodes), id), n)
      decreases id, 0
    {
      hide HasHoleDeep, AnyHasHoleDeep, ReplaceAll;
      ghost var was := nodes;
      node := nodes[id];
      assert Below(node, id);
      if node.MemberNode? {
        var l := ReplacePartial(node.lhs, n);
        ghost var mid := nodes;
        ViewKept(was, mid, node.rhs);
        var r := ReplaceKey(node.rhs, n);
        ViewKept(mid, nodes, l);
        node := MemberNode(l, r);
      } else if node.BindNode? {
        var r := ReplacePartial(node.rhs, n);
        ViewKept(was, nodes, node.lhs);
        node := BindNode(node.lhs, r);
      } else {
        var l := ReplacePartial(node.lhs, n);
        ViewKept(was, nodes, node.rhs);
        node := BindRightNode(l, node.rhs);
      }
    }

    /** The right of a member: a group there is looked through. */
    method ReplaceKey(id: nat, n: nat) returns (r: nat)
      requires Valid() && id < |nodes|
      modifies `nodes
      ensures Valid() && old(nodes) <= nodes && r < |nodes|
      ensures var t := View(old(nodes), id);
              View(nodes, r) == if t.Group? then Group(Replace(t.inner, n)) else Replace(t, n)
      decreases id, 2
    {
      assert Below(nodes[id], id);
      match nodes[id]
      case GroupNode(inner) =>
        ghost var was := nodes;
        var inner' := ReplacePartial(inner, n);
        if inner' == inner {
          ViewKept(was, nodes, id);
          ViewKept(was, nodes, inner);
          r := id;
        } else {
          r := AppendNode(GroupNode(inner'));
        }
      case _ =>
        r := ReplacePartial(id, n);
    }

    method ReplaceIds(ids: seq<nat>, n: nat, ghost b: nat) returns (out: seq<nat>)
      requires Valid() && b <= |nodes| && AllBelow(ids, b)
      modifies `nodes
      ensures Valid() && old(nodes) <= nodes && AllBelow(out, |nodes|)
      ensures Views(nodes, out, |nodes|) == ReplaceAll(Views(old(nodes), ids, b), n)
      decreases b, 0
    {
      out := [];
      ghost var was := nodes;
      var k := 0;
      while k < |ids|
        invariant 0 <= k <= |ids| && Valid() && was <= nodes && AllBelow(out, |nodes|)
        invariant Append(Views(nodes, out, |nodes|), ReplaceAll(Views(was, ids[k..], b), n))
                  == ReplaceAll(Views(was, ids, b), n)
      {
        ghost var before := nodes;
        assert ids[k..][0] == ids[k] && ids[k..][1..] == ids[k + 1..];
        ViewKept(was, before, ids[k]);
        var r := ReplacePartial(ids[k], n);
        ViewsKept(before, nodes, out, |before|, |nodes|);
        ViewsSnoc(nodes, out, r);
        AppendOne(Views(nodes, out, |nodes|), View(nodes, r), ReplaceAll(Views(was, ids[k + 1..], b), n));
        out := out + [r];
        k := k + 1;
      }
      AppendNil(Views(nodes, out, |nodes|));
    }

    // ---- Rewriting ----------------------------------------------------------------------------------

    /** Wraps a rewritten scope that still has a hole. An id of the source is here only for a lone leaf, on
        which the two variants of the check agree. */
    method WrapIfPartial(id: nat) returns (r: nat)
      requires Valid() && id < |nodes| && (id < |src| ==> IsAtom(src[id]))
      modifies `nodes, `synthCounter
      ensures Valid() && old(nodes) <= nodes && r < |nodes|
      ensures (View(nodes, r), synthCounter) == Wrap(View(old(nodes), id), old(synthCounter))
    {
      var hole := if id < |src| then HasHole(View(src, id)) else HasHoleDeep(View(nodes, id));
      if id < |src| {
        ViewKept(src, nodes, id);
      }
      hide HasHole, HasHoleDeep, Replace;
      if !hole {
        return id;
      }
      var synthId := synthCounter;
      synthCounter := synthCounter + 1;
      var bodyId := ReplacePartial(id, synthId);
      SyntheticView(nodes, bodyId, synthId);
      var param := AppendNode(SynthNode(synthId));
      var patterns := AppendNode(PatternsNode([param]));
      r := AppendNode(FnNode(patterns, [bodyId]));
    }

    /** Rewrites inside a scope; every node but a leaf is rebuilt. */
    method Transform(id: nat) returns (r: nat)
      requires Valid() && id < |src|
      modifies `nodes, `synthCounter
      ensures Valid() && old(nodes) <= nodes && r < |nodes|
      ensures (View(nodes, r), synthCounter) == Inner(View(src, id), old(synthCounter))
      ensures r < |src| && !src[id].GroupNode? ==> IsAtom(src[r])
      decreases id, 2
    {
      ghost var was := nodes;
      var node := src[id];
      assert Below(node, id);
      hide Stmt, StmtAll;
      if IsAtom(node) {
        ViewKept(src, nodes, id);
        return id;
      } else if node.GroupNode? {
        r := TransformStmt(node.inner);
        return;
      }
      r := Rebuild(id);
    }

    /** The node with its children rewritten, appended. */
    method Rebuild(id: nat) returns (r: nat)
      requires Valid() && id < |src| && !IsAtom(src[id]) && !src[id].GroupNode?
      modifies `nodes, `synthCounter
      ensures Valid() && old(nodes) <= nodes && |src| <= r < |nodes|
      ensures (View(nodes, r), synthCounter) == Inner(View(src, id), old(synthCounter))
      decreases id, 1
    {
      var node := src[id];
      assert Below(node, id);
      hide Stmt, StmtAll, InnerAll;
      if node.MemberNode? || node.BindNode? || node.BindRightNode? {
        node := RebuildPair(id);
      } else if node.FnNode? {
        var params := Transform(node.params);
        ghost var mid := nodes;
        var body := TransformBody(node.body, id);
        ViewKept(mid, nodes, params);
        node := FnNode(params, body);
      } else if node.OpNode? {
        var kids := TransformIds(node.kids, id);
        node := OpNode(node.tag, kids);
      } else {
        var items := TransformIds(node.items, id);
        node := if node.PipeNode? then PipeNode(items)
                else if node.PatternsNode? then PatternsNode(items)
                else ModuleNode(items);
      }
      r := AppendNode(node);
    }

    /** The left rewritten before the right. */
    method RebuildPair(id: nat) returns (node: Node)
      requires Valid() && id < |src| && (src[id].MemberNode? || src[id].BindNode? || src[id].BindRightNode?)
      modifies `nodes, `synthCounter
      ensures Valid() && old(nodes) <= nodes && Below(node, |nodes|)
      ensures (ViewNode(nodes, node, |nodes|), synthCounter) == Inner(View(src, id), old(synthCounter))
      decreases id, 0
    {
      node := src[id];
      assert Below(node, id);
      hide Stmt, StmtAll, InnerAll;
      var l := Transform(node.lhs);
      ghost var mid := nodes;
      var r: nat;
      if node.MemberNode? {
        r := TransformKey(node.rhs);
        node := MemberNode(l, r);
      } else {
        r := Transform(node.rhs);
        node := if node.BindNode? then BindNode(l, r) else BindRightNode(l, r);
      }
      ViewKept(mid, nodes, l);
    }

    /** The right of a member: a group there is rebuilt around its inside, not a scope. */
    method TransformKey(id: nat) returns (r: nat)
      requires Valid() && id < |src|
      modifies `nodes, `synthCounter
      ensures Valid() && old(nodes) <= nodes && r < |nodes|
      ensures var t := View(src, id);
              if t.Group? then
                (View(nodes, r), synthCounter)
                == (Group(Inner(t.inner, old(synthCounter)).0), Inner(t.inner, old(synthCounter)).1)
              else (View(nodes, r), synthCounter) == Inner(t, old(synthCounter))
      decreases id, 3
    {
      hide Inner;
      assert Below(src[id], id);
      if src[id].GroupNode? {
        var inner := Transform(src[id].inner);
        r := AppendNode(GroupNode(inner));
      } else {
        r := Transform(id);
      }
    }

    method TransformIds(ids: seq<nat>, ghost b: nat) returns (out: seq<nat>)
      requires Valid() && b <= |src| && AllBelow(ids, b)
      modifies `nodes, `synthCounter
      ensures Valid() && old(nodes) <= nodes && AllBelow(out, |nodes|)
      ensures (Views(nodes, out, |nodes|), synthCounter) == InnerAll(Views(src, ids, b), old(synthCounter))
      decreases b, 0
    {
      out := [];
      ghost var was, c := nodes, synthCounter;
      var k := 0;
      hide Inner;
      while k < |ids|
        invariant 0 <= k <= |ids| && Valid() && was <= nodes && AllBelow(out, |nodes|)
        invariant var rest := InnerAll(Views(src, ids[k..], b), synthCounter);
                  InnerAll(Views(src, ids, b), c) == (Append(Views(nodes, out, |nodes|), rest.0), rest.1)
      {
        ghost var before := nodes;
        assert ids[k..][0] == ids[k] && ids[k..][1..] == ids[k + 1..];
        var r := Transform(ids[k]);
        ViewsKept(before, nodes, out, |before|, |nodes|);
        ViewsSnoc(nodes, out, r);
        AppendOne(Views(nodes, out, |nodes|), View(nodes, r), InnerAll(Views(src, ids[k + 1..], b), synthCounter).0);
        out := out + [r];
        k := k + 1;
      }
      AppendNil(Views(nodes, out, |nodes|));
    }

    method TransformBody(ids: seq<nat>, ghost b: nat) returns (out: seq<nat>)
      requires Valid() && b <= |src| && AllBelow(ids, b)
      modifies `nodes, `synthCounter
      ensures Valid() && old(nodes) <= nodes && AllBelow(out, |nodes|)
      ensures (Views(nodes, out, |nodes|), synthCounter) == StmtAll(Views(src, ids, b), old(synthCounter))
      ensures AllHoleFree(Views(src, ids, b)) ==> out == ids && nodes == old(nodes) && synthCounter == old(synthCounter)
      decreases b, 0
    {
      out := [];
      ghost var was, c := nodes, synthCounter;
      var k := 0;
      hide Stmt;
      while k < |ids|
        invariant 0 <= k <= |ids| && Valid() && was <= nodes && AllBelow(out, |nodes|)
        invariant var rest := StmtAll(Views(src, ids[k..], b), synthCounter);
                  StmtAll(Views(src, ids, b), c) == (Append(Views(nodes, out, |nodes|), rest.0), rest.1)
        invariant AllHoleFree(Views(src, ids, b)) ==>
                    AllHoleFree(Views(src, ids[k..], b)) && out == ids[..k] && nodes == was && synthCounter == c
      {
        ghost var before := nodes;
        assert ids[k..][0] == ids[k] && ids[k..][1..] == ids[k + 1..];
        var r := TransformStmt(ids[k]);
        ViewsKept(before, nodes, out, |before|, |nodes|);
        ViewsSnoc(nodes, out, r);
        AppendOne(Views(nodes, out, |nodes|), View(nodes, r), StmtAll(Views(src, ids[k + 1..], b), synthCounter).0);
        out := out + [r];
        k := k + 1;
      }
      AppendNil(Views(nodes, out, |nodes|));
    }

    /** Rewrites a scope of its own; ids that come back unchanged keep the parent from being rebuilt. */
    /** What a tree without holes says of the node's children. */
    lemma HoleFreeNode(id: nat)
      requires Ordered(src) && id < |src| && Below(src[id], id)
      ensures HoleFree(View(src, id)) ==>
                && !NeedsDescent(View(src, id))
                && (src[id].BindNode? ==> HoleFree(View(src, src[id].rhs)))
                && (src[id].BindRightNode? ==> HoleFree(View(src, src[id].lhs)))
                && (src[id].GroupNode? ==> HoleFree(View(src, src[id].inner)) && !HasHole(View(src, src[id].inner)))
    {
      assert View(src, id) == ViewNode(src, src[id], id);
      if HoleFree(View(src, id)) {
        HoleFreeRests(View(src, id));
        if src[id].GroupNode? {
          HoleFreeRests(View(src, src[id].inner));
        }
      }
    }

    method TransformStmt(id: nat) returns (r: nat)
      requires Valid() && id < |src|
      modifies `nodes, `synthCounter
      ensures Valid() && old(nodes) <= nodes && r < |nodes|
      ensures (View(nodes, r), synthCounter) == Stmt(View(src, id), old(synthCounter))
      ensures HoleFree(View(src, id)) ==> r == id && nodes == old(nodes) && synthCounter == old(synthCounter)
      decreases id, 4
    {
      var node := src[id];
      assert Below(node, id);
      ViewKept(src, nodes, id);
      HoleFreeNode(id);
      hide Inner, InnerAll, Wrap, HasHole, NeedsDescent, HoleFree;
      if node.BindNode? {
        var rhs := TransformStmt(node.rhs);
        ViewKept(src, nodes, node.lhs);
        ViewKept(src, nodes, node.rhs);
        ViewKept(src, nodes, id);
        if rhs == node.rhs {
          return id;
        }
        r := AppendNode(BindNode(node.lhs, rhs));
      } else if node.BindRightNode? {
        var lhs := TransformStmt(node.lhs);
        ViewKept(src, nodes, node.lhs);
        ViewKept(src, nodes, node.rhs);
        ViewKept(src, nodes, id);
        if lhs == node.lhs {
          return id;
        }
        r := AppendNode(BindRightNode(lhs, node.rhs));
      } else if node.GroupNode? {
        r := TransformStmt(node.inner);
        if !HasHole(View(src, node.inner)) {
          ViewKept(src, nodes, node.inner);
          ViewKept(src, nodes, id);
          if r == node.inner {
            return id;
          }
          r := AppendNode(GroupNode(r));
        }
      } else if node.PipeNode? || node.FnNode? || node.ModuleNode? {
        r := TransformBodyOf(id);
      } else if NeedsDescent(View(src, id)) {
        var rewritten := Transform(id);
        r := WrapIfPartial(rewritten);
      } else {
        r := id;
      }
    }

    /** Pipes, functions and modules: every item is a scope of its own. */
    method TransformBodyOf(id: nat) returns (r: nat)
      requires Valid() && id < |src| && (src[id].PipeNode? || src[id].FnNode? || src[id].ModuleNode?)
      modifies `nodes, `synthCounter
      ensures Valid() && old(nodes) <= nodes && r < |nodes|
      ensures (View(nodes, r), synthCounter) == Stmt(View(src, id), old(synthCounter))
      ensures HoleFree(View(src, id)) ==> r == id && nodes == old(nodes) && synthCounter == old(synthCounter)
      decreases id, 1
    {
      var node := src[id];
      assert Below(node, id);
      hide StmtAll;
      var ids := if node.FnNode? then node.body else node.items;
      var out := TransformBody(ids, id);
      ViewsKept(src, nodes, ids, id, |nodes|);
      ViewKept(src, nodes, id);
      if out == ids {
        return id;
      }
      if node.PipeNode? {
        r := AppendNode(PipeNode(out));
      } else if node.FnNode? {
        ViewKept(src, nodes, node.params);
        r := AppendNode(FnNode(node.params, out));
      } else {
        r := AppendNode(ModuleNode(out));
      }
    }
  }

  /** Desugars the tree at `root`: the arena only grows, the old nodes stay what they were, and the tree at the
      returned id is the one the rewrite on trees gives. */
  method Apply(src: Arena, root: nat) returns (nodes: Arena, r: nat)
    requires Ordered(src) && root < |src|
    ensures Ordered(nodes) && src <= nodes && r < |nodes|
    ensures View(nodes, r) == Stmt(View(src, root), 0).0
    ensures forall id :: 0 <= id < |src| ==> View(nodes, id) == View(src, id)
  {
    var pass := new Desugarer(src);
    r := pass.TransformStmt(root);
    nodes := pass.nodes;
    forall id | 0 <= id < |src|
      ensures View(nodes, id) == View(src, id)
    {
      ViewKept(src, nodes, id);
    }
  }
}
