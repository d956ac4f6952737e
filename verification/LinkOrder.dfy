/** The order in which the WAT linker concatenates modules: a depth-first walk of the import graph from
    the entry and from every start module, import cycles included. */
module LinkOrder {
  import opened Collections

  /** A module of the merge set: its url, the urls it imports, in order, and whether it runs at start. */
  datatype Module = Module(url: string, imports: seq<string>, start: bool)

  type Modules = seq<Module>

  /** The index a url stands for; of several modules with one url, the last. */
  function IndexOfUrl(ms: Modules, url: string): (r: Option<nat>)
    ensures r.Some? ==> r.value < |ms| && ms[r.value].url == url
    ensures forall i :: (if r.None? then 0 else r.value + 1) <= i < |ms| ==> ms[i].url != url
    decreases |ms|
  {
    if ms == [] then None
    else if ms[|ms| - 1].url == url then Some(|ms| - 1)
    else IndexOfUrl(ms[..|ms| - 1], url)
  }

  // ---- The walk as a function -----------------------------------------------------------------------

  predicate IsIndex(ms: Modules, i: nat) {
    i < |ms|
  }

  function Indices(ms: Modules): set<nat> {
    set i: nat | i < |ms| && IsIndex(ms, i)
  }

  /** The modules the walk has neither finished nor begun. */
  function Untouched(ms: Modules, stack: set<nat>, order: seq<nat>): set<nat> {
    Indices(ms) - stack - Elements(order)
  }

  lemma FewerUntouched(ms: Modules, stack: set<nat>, order: seq<nat>, stack': set<nat>, order': seq<nat>)
    requires stack <= stack' && order <= order'
    ensures |Untouched(ms, stack', order')| <= |Untouched(ms, stack, order)|
  {
    assert forall x :: x in order ==> x in order';
    SubsetSize(Untouched(ms, stack', order'), Untouched(ms, stack, order));
  }

  lemma {:induction false} SubsetSize(a: set<nat>, b: set<nat>)
    requires a <= b
    ensures |a| <= |b|
  {
    if a != {} {
      var x :| x in a;
      SubsetSize(a - {x}, b - {x});
    }
  }

  lemma OneLess(ms: Modules, i: nat, stack: set<nat>, order: seq<nat>)
    requires i < |ms| && i !in stack && i !in order
    ensures |Untouched(ms, stack + {i}, order)| < |Untouched(ms, stack, order)|
  {
    assert IsIndex(ms, i) && i in Untouched(ms, stack, order);
    assert Untouched(ms, stack + {i}, order) == Untouched(ms, stack, order) - {i};
  }

  /** Visits module `i` while `stack` are being visited and `order` are done. A module that is done or
      being visited is left alone; an import outside the merge set ends the walk. */
  function Visit(ms: Modules, i: nat, stack: set<nat>, order: seq<nat>): (r: Option<seq<nat>>)
    requires i < |ms|
    ensures r.Some? ==> order <= r.value
    decreases |Untouched(ms, stack, order)|, 0
  {
    if i in order || i in stack then Some(order)
    else
      OneLess(ms, i, stack, order);
      match VisitAll(ms, ms[i].imports, stack + {i}, order)
      case None => None
      case Some(o) => Some(o + [i])
  }

  function VisitAll(ms: Modules, urls: seq<string>, stack: set<nat>, order: seq<nat>): (r: Option<seq<nat>>)
    ensures r.Some? ==> order <= r.value
    decreases |Untouched(ms, stack, order)|, 1 + |urls|
  {
    if urls == [] then Some(order)
    else
      match IndexOfUrl(ms, urls[0])
      case None => None
      case Some(j) =>
        match Visit(ms, j, stack, order)
        case None => None
        case Some(o) =>
          FewerUntouched(ms, stack, order, stack, o);
          VisitAll(ms, urls[1..], stack, o)
  }

  /** The entry first, then the start modules by index. */
  function VisitStarts(ms: Modules, i: nat, order: seq<nat>): Option<seq<nat>>
    requires i <= |ms|
    decreases |ms| - i
  {
    if i == |ms| then Some(order)
    else
      match if ms[i].start then Visit(ms, i, {}, order) else Some(order)
      case None => None
      case Some(o) => VisitStarts(ms, i + 1, o)
  }

  function Order(ms: Modules): Option<seq<nat>>
    requires ms != []
  {
    match Visit(ms, 0, {}, [])
    case None => None
    case Some(o) => VisitStarts(ms, 0, o)
  }

  // ---- The walk as it runs --------------------------------------------------------------------------

  class Walk {
    const ms: Modules
    const onStack: array<bool>
    const visited: array<bool>
    var order: seq<nat>

    ghost predicate Valid()
      reads this, onStack, visited
    {
      && onStack.Length == visited.Length == |ms| && onStack != visited
      && forall i :: 0 <= i < |ms| ==> (visited[i] <==> i in order)
    }

    ghost function Stack(): set<nat>
      reads this, onStack
    {
      set i: nat | i < onStack.Length && onStack[i]
    }

    constructor (ms: Modules)
      ensures Valid() && this.ms == ms && order == [] && Stack() == {} && fresh(onStack) && fresh(visited)
    {
      this.ms := ms;
      onStack := new bool[|ms|](_ => false);
      visited := new bool[|ms|](_ => false);
      order := [];
    }

    /** `ok` is false when a module imports a url outside the merge set; the linker panics then. */
    method Dfs(i: nat) returns (ok: bool)
      requires Valid() && i < |ms|
      modifies this, onStack, visited
      ensures Valid()
      ensures match Visit(ms, i, old(Stack()), old(order))
              case None => !ok
              case Some(o) => ok && order == o && Stack() == old(Stack())
      decreases |Untouched(ms, Stack(), order)|, 0
    {
      if visited[i] || onStack[i] {
        return true;
      }
      ghost var stack, done := Stack(), order;
      OneLess(ms, i, stack, done);
      onStack[i] := true;
      assert Stack() == stack + {i};
      ok := DfsImports(ms[i].imports);
      if ok {
        onStack[i] := false;
        visited[i] := true;
        order := order + [i];
        assert Stack() == stack;
      }
    }

    /** Visits what the urls stand for, in order. */
    method DfsImports(urls: seq<string>) returns (ok: bool)
      requires Valid()
      modifies this, onStack, visited
      ensures Valid()
      ensures match VisitAll(ms, urls, old(Stack()), old(order))
              case None => !ok
              case Some(o) => ok && order == o && Stack() == old(Stack())
      decreases |Untouched(ms, Stack(), order)|, 1
    {
      ghost var stack, done := Stack(), order;
      var k := 0;
      while k < |urls|
        invariant 0 <= k <= |urls| && Valid() && Stack() == stack && done <= order
        invariant VisitAll(ms, urls[k..], stack, order) == VisitAll(ms, urls, stack, done)
      {
        assert urls[k..][0] == urls[k] && urls[k..][1..] == urls[k + 1..];
        var j := IndexOfUrl(ms, urls[k]);
        if j.None? {
          return false;
        }
        FewerUntouched(ms, stack, done, stack, order);
        ok := Dfs(j.value);
        if !ok {
          return false;
        }
        k := k + 1;
      }
      return true;
    }
  }

  /** `None` when an import is missing. */
  method LinkOrder(ms: Modules) returns (r: Option<seq<nat>>)
    requires ms != []
    ensures r == Order(ms)
  {
    var walk := new Walk(ms);
    var ok := walk.Dfs(0);
    if !ok {
      return None;
    }
    var i := 0;
    while i < |ms|
      invariant 0 <= i <= |ms| && walk.Valid() && walk.Stack() == {} && walk.ms == ms
      invariant fresh(walk) && fresh(walk.onStack) && fresh(walk.visited)
      invariant Order(ms) == VisitStarts(ms, i, walk.order)
    {
      if ms[i].start {
        ok := walk.Dfs(i);
        if !ok {
          return None;
        }
      }
      i := i + 1;
    }
    return Some(walk.order);
  }

  // ---- What the order means -------------------------------------------------------------------------

  predicate Edge(ms: Modules, u: nat, v: nat) {
    u < |ms| && exists url :: url in ms[u].imports && IndexOfUrl(ms, url) == Some(v)
  }

  /** Some import of `u` is outside the merge set. */
  predicate Missing(ms: Modules, u: nat) {
    u < |ms| && exists url :: url in ms[u].imports && IndexOfUrl(ms, url) == None
  }

  predicate Path(ms: Modules, p: seq<nat>) {
    p != [] && forall k :: 0 <= k < |p| - 1 ==> Edge(ms, p[k], p[k + 1])
  }

  ghost predicate Reaches(ms: Modules, u: nat, v: nat) {
    exists p :: Path(ms, p) && p[0] == u && p[|p| - 1] == v
  }

  lemma ReachesItself(ms: Modules, u: nat)
    ensures Reaches(ms, u, u)
  {
    assert Path(ms, [u]) && [u][0] == u;
  }

  lemma ReachesOn(ms: Modules, u: nat, v: nat, w: nat)
    requires Reaches(ms, u, v) && Edge(ms, v, w)
    ensures Reaches(ms, u, w)
  {
    var p :| Path(ms, p) && p[0] == u && p[|p| - 1] == v;
    var q := p + [w];
    forall k | 0 <= k < |q| - 1
      ensures Edge(ms, q[k], q[k + 1])
    {
      if k < |p| - 1 {
        assert q[k] == p[k] && q[k + 1] == p[k + 1];
      }
    }
    assert Path(ms, q) && q[0] == u && q[|q| - 1] == w;
  }

  lemma ReachesThrough(ms: Modules, u: nat, v: nat, w: nat)
    requires Reaches(ms, u, v) && Reaches(ms, v, w)
    ensures Reaches(ms, u, w)
  {
    var p :| Path(ms, p) && p[0] == v && p[|p| - 1] == w;
    ReachesAlong(ms, u, p);
  }

  lemma PathTail(ms: Modules, p: seq<nat>)
    requires Path(ms, p) && |p| > 1
    ensures Path(ms, p[1..])
  {
    forall k | 0 <= k < |p[1..]| - 1
      ensures Edge(ms, p[1..][k], p[1..][k + 1])
    {
      assert Edge(ms, p[k + 1], p[k + 2]);
    }
  }

  lemma {:induction false} ReachesAlong(ms: Modules, u: nat, p: seq<nat>)
    requires Path(ms, p) && Reaches(ms, u, p[0])
    ensures Reaches(ms, u, p[|p| - 1])
    decreases p
  {
    if |p| > 1 {
      var q := p[1..];
      assert Edge(ms, p[0], p[1]);
      PathTail(ms, p);
      ReachesOn(ms, u, p[0], p[1]);
      ReachesAlong(ms, u, q);
    }
  }

  /** `u` stands before everything that imports it, unless `u` leads back to the importer. */
  ghost predicate InOrder(ms: Modules, order: seq<nat>, k: nat)
    requires k < |order|
  {
    forall v :: Edge(ms, order[k], v) ==> v in order[..k] || Reaches(ms, v, order[k])
  }

  /** Everything a finished module imports is finished or being visited. */
  ghost predicate Closed(ms: Modules, u: nat, stack: set<nat>, order: seq<nat>) {
    !Missing(ms, u) && forall v :: Edge(ms, u, v) ==> v in order || v in stack
  }

  ghost predicate Good(ms: Modules, stack: set<nat>, order: seq<nat>) {
    && NoDup(order) && (forall u :: u in order ==> u < |ms| && u !in stack && Closed(ms, u, stack, order))
    && forall k :: 0 <= k < |order| ==> InOrder(ms, order, k)
  }

  ghost predicate LeadTo(ms: Modules, stack: set<nat>, i: nat) {
    forall s :: s in stack ==> Reaches(ms, s, i)
  }

  ghost predicate NewFrom(ms: Modules, order: seq<nat>, order': seq<nat>, i: nat) {
    forall x :: x in order' ==> x in order || Reaches(ms, i, x)
  }

  /** Finishing a module whose imports are all finished or being visited. */
  lemma Finish(ms: Modules, i: nat, stack: set<nat>, o: seq<nat>)
    requires i < |ms| && i !in stack && i !in o && Good(ms, stack + {i}, o) && LeadTo(ms, stack, i)
    requires Closed(ms, i, stack + {i}, o)
    ensures Good(ms, stack, o + [i])
  {
    var order := o + [i];
    ReachesItself(ms, i);
    forall k | 0 <= k < |order|
      ensures InOrder(ms, order, k)
    {
      if k < |o| {
        assert InOrder(ms, o, k) && order[..k] == o[..k];
      } else {
        assert order[..k] == o;
      }
    }
    forall u | u in order
      ensures u < |ms| && u !in stack && Closed(ms, u, stack, order)
    {
      assert u in o ==> Closed(ms, u, stack + {i}, o);
    }
  }

  /** Beginning a module disturbs nothing. */
  lemma Begin(ms: Modules, i: nat, stack: set<nat>, order: seq<nat>)
    requires Good(ms, stack, order) && LeadTo(ms, stack, i) && i !in order
    ensures Good(ms, stack + {i}, order) && LeadTo(ms, stack + {i}, i)
  {
    ReachesItself(ms, i);
    forall u | u in order
      ensures Closed(ms, u, stack + {i}, order)
    {
      assert Closed(ms, u, stack, order);
    }
  }

  ghost predicate AllTaken(ms: Modules, urls: seq<string>, stack: set<nat>, order: seq<nat>) {
    forall url :: url in urls ==>
      match IndexOfUrl(ms, url) case None => false case Some(v) => v in order || v in stack
  }

  lemma TakenClosed(ms: Modules, i: nat, stack: set<nat>, order: seq<nat>)
    requires i < |ms| && AllTaken(ms, ms[i].imports, stack, order)
    ensures Closed(ms, i, stack, order)
  {
  }

  lemma {:induction false} VisitGood(ms: Modules, i: nat, stack: set<nat>, order: seq<nat>)
    requires i < |ms| && Good(ms, stack, order) && LeadTo(ms, stack, i)
    ensures match Visit(ms, i, stack, order)
            case None => exists u :: Reaches(ms, i, u) && Missing(ms, u)
            case Some(o) => Good(ms, stack, o) && (i in o || i in stack) && NewFrom(ms, order, o, i)
    decreases |Untouched(ms, stack, order)|, 0
  {
    hide InOrder, Edge, Closed, LeadTo, AllTaken, Missing, Reaches;
    if i !in order && i !in stack {
      OneLess(ms, i, stack, order);
      Begin(ms, i, stack, order);
      VisitAllGood(ms, ms[i].imports, stack + {i}, order, i);
      var r := VisitAll(ms, ms[i].imports, stack + {i}, order);
      if r.Some? {
        TakenClosed(ms, i, stack + {i}, r.value);
        Finish(ms, i, stack, r.value);
        ReachesItself(ms, i);
      }
    }
  }

  lemma {:induction false} VisitAllGood(ms: Modules, urls: seq<string>, stack: set<nat>, order: seq<nat>, u: nat)
    requires u < |ms| && u in stack && Good(ms, stack, order) && LeadTo(ms, stack, u)
    requires forall url :: url in urls ==> url in ms[u].imports
    ensures match VisitAll(ms, urls, stack, order)
            case None => exists w :: Reaches(ms, u, w) && Missing(ms, w)
            case Some(o) =>
              Good(ms, stack, o) && NewFrom(ms, order, o, u) && AllTaken(ms, urls, stack, o)
    decreases |Untouched(ms, stack, order)|, 1 + |urls|
  {
    if urls != [] {
      assert urls[0] in urls;
      match IndexOfUrl(ms, urls[0])
      case None =>
        ReachesItself(ms, u);
        assert Missing(ms, u);
      case Some(j) =>
        assert Edge(ms, u, j);
        ReachesItself(ms, u);
        ReachesOn(ms, u, u, j);
        forall s | s in stack
          ensures Reaches(ms, s, j)
        {
          ReachesOn(ms, s, u, j);
        }
        VisitGood(ms, j, stack, order);
        var r := Visit(ms, j, stack, order);
        if r.None? {
          var w :| Reaches(ms, j, w) && Missing(ms, w);
          ReachesThrough(ms, u, j, w);
        } else {
          forall x | x in r.value
            ensures x in order || Reaches(ms, u, x)
          {
            if x !in order {
              ReachesThrough(ms, u, j, x);
            }
          }
          FewerUntouched(ms, stack, order, stack, r.value);
          VisitAllGood(ms, urls[1..], stack, r.value, u);
          assert forall url :: url in urls ==> url == urls[0] || url in urls[1..];
        }
    }
  }

  /** The modules the walk starts from. */
  predicate Root(ms: Modules, r: nat) {
    r < |ms| && (r == 0 || ms[r].start)
  }

  ghost predicate Needed(ms: Modules, x: nat) {
    exists r :: Root(ms, r) && Reaches(ms, r, x)
  }

  lemma {:induction false} VisitStartsGood(ms: Modules, i: nat, order: seq<nat>)
    requires i <= |ms| && Good(ms, {}, order) && forall x :: x in order ==> Needed(ms, x)
    ensures match VisitStarts(ms, i, order)
            case None => exists u :: Needed(ms, u) && Missing(ms, u)
            case Some(o) =>
              && Good(ms, {}, o) && order <= o && (forall x :: x in o ==> Needed(ms, x))
              && forall r :: i <= r < |ms| && ms[r].start ==> r in o
    decreases |ms| - i
  {
    if i < |ms| {
      if ms[i].start {
        VisitGood(ms, i, {}, order);
        assert Root(ms, i);
        var r := Visit(ms, i, {}, order);
        if r.Some? {
          VisitStartsGood(ms, i + 1, r.value);
        } else {
          var u :| Reaches(ms, i, u) && Missing(ms, u);
          assert Needed(ms, u);
        }
      } else {
        VisitStartsGood(ms, i + 1, order);
      }
    }
  }

  /** With nothing being visited, what is finished is closed under imports. */
  lemma {:induction false} ClosedAlong(ms: Modules, order: seq<nat>, p: seq<nat>)
    requires Good(ms, {}, order) && Path(ms, p) && p[0] in order
    ensures p[|p| - 1] in order
    decreases p
  {
    if |p| > 1 {
      var q := p[1..];
      assert Edge(ms, p[0], p[1]) && Closed(ms, p[0], {}, order);
      PathTail(ms, p);
      ClosedAlong(ms, order, q);
    }
  }

  /** The order lists exactly the modules that the entry and the start modules need, each once, and an
      imported module before its importer unless the two import each other in a cycle. There is no order
      exactly when a needed module imports one outside the merge set. */
  lemma OrderIsRight(ms: Modules)
    requires ms != []
    ensures match Order(ms)
            case None => exists u :: Needed(ms, u) && Missing(ms, u)
            case Some(o) =>
              && NoDup(o) && (forall x :: x in o <==> Needed(ms, x))
              && (forall k :: 0 <= k < |o| ==> InOrder(ms, o, k))
              && !exists u :: Needed(ms, u) && Missing(ms, u)
  {
    assert Root(ms, 0);
    VisitGood(ms, 0, {}, []);
    var first := Visit(ms, 0, {}, []);
    if first.None? {
      var u :| Reaches(ms, 0, u) && Missing(ms, u);
      assert Needed(ms, u);
    } else {
      VisitStartsGood(ms, 0, first.value);
      var r := VisitStarts(ms, 0, first.value);
      if r.Some? {
        var o := r.value;
        forall x | Needed(ms, x)
          ensures x in o && !Missing(ms, x)
        {
          var root :| Root(ms, root) && Reaches(ms, root, x);
          var p :| Path(ms, p) && p[0] == root && p[|p| - 1] == x;
          assert root in o;
          ClosedAlong(ms, o, p);
          assert Closed(ms, x, {}, o);
        }
      }
    }
  }
  // ---- Whose turn it is -----------------------------------------------------------------------------

  /** One of the first `n` urls leads to `x`. */
  ghost predicate LedTo(ms: Modules, urls: seq<string>, n: nat, x: nat)
    requires n <= |urls|
  {
    exists k: nat, v: nat :: k < n && IndexOfUrl(ms, urls[k]) == Some(v) && Reaches(ms, v, x)
  }

  /** Up to some point the order holds what the url at `p` stands for, and nothing but what was there before and what
      the urls up to that one lead to. */
  ghost predicate InTurn(ms: Modules, urls: seq<string>, p: nat, stack: set<nat>, order: seq<nat>, mid: seq<nat>, end: seq<nat>)
    requires p < |urls|
  {
    && mid <= end && (match IndexOfUrl(ms, urls[p]) case None => false case Some(a) => a in mid || a in stack)
    && forall x :: x in mid ==> x in order || LedTo(ms, urls, p + 1, x)
  }

  lemma {:induction false} VisitAllInTurn(ms: Modules, urls: seq<string>, stack: set<nat>, order: seq<nat>, u: nat, p: nat)
    requires u < |ms| && u in stack && Good(ms, stack, order) && LeadTo(ms, stack, u)
    requires forall url :: url in urls ==> url in ms[u].imports
    requires p < |urls| && VisitAll(ms, urls, stack, order).Some?
    ensures exists mid :: InTurn(ms, urls, p, stack, order, mid, VisitAll(ms, urls, stack, order).value)
    decreases p
  {
    hide Good, Edge, Missing, Reaches, LeadTo;
    assert urls[0] in urls;
    var j := IndexOfUrl(ms, urls[0]).value;
    var o, end := Visit(ms, j, stack, order).value, VisitAll(ms, urls, stack, order).value;
    ImportsLead(ms, stack, u, urls[0], j);
    VisitGood(ms, j, stack, order);
    forall x | x in o
      ensures x in order || LedTo(ms, urls, 1, x)
    {
      assert x !in order ==> Reaches(ms, j, x);
    }
    if p == 0 {
      assert InTurn(ms, urls, 0, stack, order, o, end);
    } else {
      VisitAllInTurn(ms, urls[1..], stack, o, u, p - 1);
      var mid :| InTurn(ms, urls[1..], p - 1, stack, o, mid, end);
      forall x | x in mid
        ensures x in order || LedTo(ms, urls, p + 1, x)
      {
        if x !in o {
          var k: nat, v: nat :| k < p && IndexOfUrl(ms, urls[1..][k]) == Some(v) && Reaches(ms, v, x);
          assert urls[1..][k] == urls[k + 1];
        } else if x !in order {
          var k: nat, v: nat :| k < 1 && IndexOfUrl(ms, urls[k]) == Some(v) && Reaches(ms, v, x);
        }
      }
      assert InTurn(ms, urls, p, stack, order, mid, end);
    }
  }

  lemma ImportsLead(ms: Modules, stack: set<nat>, u: nat, url: string, j: nat)
    requires u < |ms| && LeadTo(ms, stack, u) && url in ms[u].imports && IndexOfUrl(ms, url) == Some(j)
    ensures LeadTo(ms, stack, j)
  {
    assert Edge(ms, u, j);
    forall s | s in stack
      ensures Reaches(ms, s, j)
    {
      ReachesOn(ms, s, u, j);
    }
  }

  /** A module's imports take their turns: a later one comes ahead of an earlier one only if it was already in the order
      when the module was begun, or an import up to the earlier one leads to it, or the module imports itself. */
  lemma ImportsInTurn(ms: Modules, u: nat, stack: set<nat>, order: seq<nat>, p: nat, q: nat, a: nat, b: nat, j: nat, k: nat)
    requires u < |ms| && u !in stack && u !in order && Good(ms, stack, order) && LeadTo(ms, stack, u)
    requires Visit(ms, u, stack, order).Some? && k < j < |Visit(ms, u, stack, order).value|
    requires p < q < |ms[u].imports|
    requires IndexOfUrl(ms, ms[u].imports[p]) == Some(a) && Visit(ms, u, stack, order).value[j] == a
    requires IndexOfUrl(ms, ms[u].imports[q]) == Some(b) && Visit(ms, u, stack, order).value[k] == b
    ensures b in order || LedTo(ms, ms[u].imports, p + 1, b) || a == u
  {
    hide Reaches, LeadTo, LedTo, Closed, InOrder;
    var urls, o := ms[u].imports, Visit(ms, u, stack, order).value;
    OneLess(ms, u, stack, order);
    Begin(ms, u, stack, order);
    VisitGood(ms, u, stack, order);
    var end := VisitAll(ms, urls, stack + {u}, order).value;
    VisitAllInTurn(ms, urls, stack + {u}, order, u, p);
    var mid :| InTurn(ms, urls, p, stack + {u}, order, mid, end);
    if a != u {
      assert o == end + [u] && a in o && a !in stack;
      Ahead(mid, o, j, k);
      assert b in mid;
    }
  }

  /** What stands ahead of an element of a prefix is in the prefix. */
  lemma Ahead(mid: seq<nat>, o: seq<nat>, j: nat, k: nat)
    requires NoDup(o) && k < j < |o| && mid <= o && o[j] in mid
    ensures o[k] in mid
  {
    var i :| 0 <= i < |mid| && mid[i] == o[j];
    assert o[i] == o[j];
    assert mid[k] == o[k];
  }

  /** Some starting point up to `i` leads to `x`. */
  ghost predicate RootsLead(ms: Modules, i: nat, x: nat) {
    exists r: nat :: Root(ms, r) && r <= i && Reaches(ms, r, x)
  }

  lemma {:induction false} StartsInTurn(ms: Modules, i: nat, order: seq<nat>, a: nat)
    requires i <= a < |ms| && Root(ms, a) && Good(ms, {}, order) && VisitStarts(ms, i, order).Some?
    requires a == 0 ==> a in order
    requires forall x :: x in order ==> RootsLead(ms, a, x)
    ensures exists mid :: mid <= VisitStarts(ms, i, order).value && a in mid && forall x :: x in mid ==> RootsLead(ms, a, x)
    decreases a - i
  {
    hide Reaches, Good;
    var o := if ms[i].start then Visit(ms, i, {}, order).value else order;
    if ms[i].start {
      assert LeadTo(ms, {}, i);
      VisitGood(ms, i, {}, order);
      assert forall x :: x in o && x !in order ==> Root(ms, i) && Reaches(ms, i, x);
    }
    if i < a {
      StartsInTurn(ms, i + 1, o, a);
    } else {
      StartsGoOn(ms, i + 1, o);
    }
  }

  lemma {:induction false} StartsGoOn(ms: Modules, i: nat, order: seq<nat>)
    requires i <= |ms| && VisitStarts(ms, i, order).Some?
    ensures order <= VisitStarts(ms, i, order).value
    decreases |ms| - i
  {
    if i < |ms| {
      StartsGoOn(ms, i + 1, if ms[i].start then Visit(ms, i, {}, order).value else order);
    }
  }

  /** The entry and then the start modules, by index, take their turns: a later one comes ahead of an earlier one only if
      one up to the earlier leads to it. */
  lemma RootsInTurn(ms: Modules, a: nat, b: nat, j: nat, k: nat)
    requires ms != [] && Order(ms).Some? && a < b && Root(ms, a) && Root(ms, b)
    requires k < j < |Order(ms).value| && Order(ms).value[j] == a && Order(ms).value[k] == b
    ensures RootsLead(ms, a, b)
  {
    hide Reaches, InOrder, RootsLead;
    OrderIsRight(ms);
    VisitGood(ms, 0, {}, []);
    var first := Visit(ms, 0, {}, []).value;
    assert forall x :: x in first ==> RootsLead(ms, a, x) by {
      EntryLeads(ms, a, first);
    }
    StartsInTurn(ms, 0, first, a);
    var mid :| mid <= Order(ms).value && a in mid && forall x :: x in mid ==> RootsLead(ms, a, x);
    Ahead(mid, Order(ms).value, j, k);
  }

  lemma EntryLeads(ms: Modules, a: nat, first: seq<nat>)
    requires ms != [] && NewFrom(ms, [], first, 0)
    ensures forall x :: x in first ==> RootsLead(ms, a, x)
  {
    assert Root(ms, 0);
  }
}
