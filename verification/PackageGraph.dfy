/** Package discovery: the breadth-first walk that compiles an entry module and everything it imports,
    and numbers the modules in the order they are first seen. */
module PackageGraph {
  import opened Collections
  import opened PackageUrls

  /** What loading and lowering find at a canonical url: the urls the module imports, in key order. A url
      outside the map does not load or does not compile. */
  type Sources = map<string, seq<string>>

  /** The canonical urls of the imports that are compiled along with their importer. */
  function Deps(importer: string, raws: seq<string>): seq<string> {
    if raws == [] then []
    else (if Followed(raws[0]) then [Canonicalise(importer, raws[0])] else []) + Deps(importer, raws[1..])
  }

  lemma DepsOne(importer: string, raw: string)
    ensures Deps(importer, [raw]) == if Followed(raw) then [Canonicalise(importer, raw)] else []
  {
    assert [raw][1..] == [];
  }

  lemma NoDeps(importer: string, order: seq<string>)
    ensures InsertAll(order, Deps(importer, [])) == order
  {
  }

  lemma {:induction false} DepsConcat(importer: string, a: seq<string>, b: seq<string>)
    ensures Deps(importer, a + b) == Deps(importer, a) + Deps(importer, b)
    decreases a
  {
    hide Canonicalise, Followed;
    if a == [] {
      assert a + b == b;
    } else {
      assert (a + b)[0] == a[0] && (a + b)[1..] == a[1..] + b;
      DepsConcat(importer, a[1..], b);
    }
  }

  predicate Followed(raw: string) {
    IsRelative(raw) || IsPkgSource(raw)
  }

  function DepsOf(src: Sources, url: string): seq<string> {
    if url in src then Deps(url, src[url]) else []
  }

  function DepsOfAll(src: Sources, urls: seq<string>): seq<string> {
    if urls == [] then [] else DepsOfAll(src, urls[..|urls| - 1]) + DepsOf(src, urls[|urls| - 1])
  }

  /** A compiled module under the number it was compiled with. */
  datatype Fragment = Fragment(url: string, id: nat)

  datatype Outcome =
    | Compiled(ordered: seq<Fragment>, urlToId: map<string, nat>)
    | LoadFailed(url: string)
    | NoUrl(id: int)
    | NotCompiled(id: int)

  // ---- What discovery yields ------------------------------------------------------------------------

  predicate Edge(src: Sources, u: string, v: string) {
    v in DepsOf(src, u)
  }

  /** What one import is followed to: a relative one to the place it leads to from the importer, a package's own source
      to itself, any other nowhere. */
  ghost predicate LeadsTo(importer: string, raw: string, v: string) {
    if "./" <= raw || "../" <= raw then v == Show(Destination(importer, raw))
    else |raw| >= 4 && raw[|raw| - 4..] == ".fnk" && v == raw
  }

  lemma {:induction false} InDeps(importer: string, raws: seq<string>, v: string)
    ensures v in Deps(importer, raws) <==> exists raw :: raw in raws && LeadsTo(importer, raw, v)
  {
    hide Show, Destination, Normalise, DirOf, WithoutDot;
    if raws != [] {
      InDeps(importer, raws[1..], v);
      if IsRelative(raws[0]) {
        CanonicaliseWalks(importer, raws[0]);
      }
      assert raws == [raws[0]] + raws[1..];
      assert Followed(raws[0]) && Canonicalise(importer, raws[0]) == v <==> LeadsTo(importer, raws[0], v);
    }
  }

  /** A module imports another exactly when one of its imports leads there. */
  lemma EdgeIs(src: Sources, u: string, v: string)
    ensures Edge(src, u, v) <==> u in src && exists raw :: raw in src[u] && LeadsTo(u, raw, v)
  {
    if u in src {
      InDeps(u, src[u], v);
    }
  }

  /** An earlier member imports the one at `k`. */
  predicate Found(src: Sources, order: seq<string>, k: nat)
    requires k < |order|
  {
    exists j: nat :: j < k && Edge(src, order[j], order[k])
  }

  ghost predicate Traced(src: Sources, order: seq<string>) {
    order != [] && forall k: nat :: 0 < k < |order| ==> Found(src, order, k)
  }

  /** `order` starts at the entry, goes on with what its members import in first-seen order, and every
      later member is imported by an earlier one. */
  ghost predicate Discovery(src: Sources, entry: string, order: seq<string>) {
    order == InsertAll([entry], DepsOfAll(src, order)) && Traced(src, order)
  }

  /** The numbers are the positions. */
  ghost predicate Numbers(ids: map<string, nat>, order: seq<string>) {
    && (forall url :: url in ids <==> url in order)
    && forall k :: 0 <= k < |order| ==> ids[order[k]] == k
  }

  /** The members of `done` are compiled under the numbers of their positions. */
  ghost predicate CompiledAs(compiled: map<string, Fragment>, done: seq<string>) {
    && (forall url :: url in compiled <==> url in done)
    && forall k :: 0 <= k < |done| ==> compiled[done[k]] == Fragment(done[k], k)
  }

  lemma TracedAdd(src: Sources, order: seq<string>, u: string, d: string)
    requires Traced(src, order) && u in order && Edge(src, u, d)
    ensures Traced(src, order + [d])
  {
    hide Edge;
    var wider := order + [d];
    forall k: nat | 0 < k < |wider|
      ensures Found(src, wider, k)
    {
      if k < |order| {
        assert Found(src, order, k);
        var j: nat :| j < k && Edge(src, order[j], order[k]);
        assert Edge(src, wider[j], wider[k]);
      } else {
        var j := IndexOf(order, u);
        assert Edge(src, wider[j], wider[k]);
      }
    }
  }

  lemma NumbersAdd(ids: map<string, nat>, order: seq<string>, url: string)
    requires Numbers(ids, order) && NoDup(order) && url !in order
    ensures Numbers(ids[url := |order|], order + [url]) && NoDup(order + [url])
  {
  }

  lemma CompiledAdd(compiled: map<string, Fragment>, done: seq<string>, url: string)
    requires CompiledAs(compiled, done) && url !in done
    ensures CompiledAs(compiled[url := Fragment(url, |done|)], done + [url])
  {
  }

  /** What the numbers, the set of visited urls and the compiled fragments say about `order`, the urls by
      number, and `done`, those compiled so far. */
  ghost predicate Consistent(src: Sources, entry: string, ids: map<string, nat>, visited: set<string>,
      compiled: map<string, Fragment>, order: seq<string>, done: seq<string>) {
    && Numbers(ids, order) && NoDup(order) && Traced(src, order) && order[0] == entry
    && visited == Elements(done) && CompiledAs(compiled, done) && done <= order
    && forall url :: url in done ==> url in src
  }

  /** What is queued and not compiled yet is, in order, what `order` still has to compile. */
  ghost predicate Queued(order: seq<string>, done: seq<string>, queue: seq<string>) {
    InsertAll(done, queue) == order
  }

  lemma SeeNew(src: Sources, entry: string, ids: map<string, nat>, visited: set<string>,
      compiled: map<string, Fragment>, order: seq<string>, done: seq<string>, importer: string, url: string)
    requires Consistent(src, entry, ids, visited, compiled, order, done)
    requires importer in done && Edge(src, importer, url) && url !in ids
    ensures Consistent(src, entry, ids[url := |order|], visited, compiled, order + [url], done)
  {
    hide CompiledAs, Edge;
    TracedAdd(src, order, importer, url);
    NumbersAdd(ids, order, url);
  }

  lemma SeeFacts(src: Sources, entry: string, ids: map<string, nat>, visited: set<string>,
      compiled: map<string, Fragment>, order: seq<string>, done: seq<string>, url: string)
    requires Consistent(src, entry, ids, visited, compiled, order, done)
    ensures (url in visited <==> url in done) && (url in ids <==> url in order) && (url in done ==> url in order)
  {
    hide CompiledAs, Edge, Traced, NoDup;
  }

  lemma QueueOne(order: seq<string>, done: seq<string>, queue: seq<string>, url: string)
    requires Queued(order, done, queue)
    ensures Queued(InsertAll(order, [url]), done, queue + [url])
    ensures InsertAll(order, [url]) == if url in order then order else order + [url]
  {
    InsertAllConcat(done, queue, [url]);
    InsertAllOne(order, url);
  }

  /** Compiling the next url in order. */
  lemma CompileNext(src: Sources, entry: string, ids: map<string, nat>, visited: set<string>,
      compiled: map<string, Fragment>, order: seq<string>, done: seq<string>, url: string)
    requires Consistent(src, entry, ids, visited, compiled, order, done)
    requires url in src && url !in done && done + [url] <= order
    ensures url in ids && ids[url] == |done|
    ensures Consistent(src, entry, ids, visited + {url}, compiled[url := Fragment(url, ids[url])], order, done + [url])
  {
    hide Edge, Traced, NoDup;
    assert order[|done|] == url;
    CompiledAdd(compiled, done, url);
  }

  /** The head of the queue is compiled already, or it is the next in order. */
  lemma QueueHead(order: seq<string>, done: seq<string>, queue: seq<string>)
    requires Queued(order, done, queue) && queue != []
    ensures queue[0] in done ==> Queued(order, done, queue[1..])
    ensures queue[0] !in done ==> Queued(order, done + [queue[0]], queue[1..]) && done + [queue[0]] <= order
  {
    InsertAllPrefix(done + [queue[0]], queue[1..]);
  }

  /** `order` is what the modules in `done` account for. */
  ghost predicate Accounted(src: Sources, entry: string, order: seq<string>, done: seq<string>) {
    order == InsertAll([entry], DepsOfAll(src, done))
  }

  lemma AccountNext(src: Sources, entry: string, order: seq<string>, done: seq<string>, url: string)
    requires Accounted(src, entry, order, done) && url in src
    ensures Accounted(src, entry, InsertAll(order, Deps(url, src[url])), done + [url])
  {
    hide Deps;
    assert (done + [url])[..|done|] == done;
    InsertAllConcat([entry], DepsOfAll(src, done), DepsOf(src, url));
  }

  /** The imports before and at `k`. */
  lemma NextDep(src: Sources, url: string, k: nat)
    requires url in src && k < |src[url]|
    ensures Deps(url, src[url][..k + 1]) == Deps(url, src[url][..k]) + Deps(url, [src[url][k]])
    ensures forall d :: d in Deps(url, [src[url][k]]) ==> Edge(src, url, d)
  {
    var raws := src[url];
    assert raws[..k + 1] == raws[..k] + [raws[k]];
    DepsConcat(url, raws[..k], [raws[k]]);
    assert raws == raws[..k + 1] + raws[k + 1..];
    DepsConcat(url, raws[..k + 1], raws[k + 1..]);
  }

  // ---- Reaching -------------------------------------------------------------------------------------

  /** `v` can be reached from `u` in `n` imports. */
  ghost predicate Within(src: Sources, u: string, v: string, n: nat)
    decreases n
  {
    if n == 0 then u == v else exists w :: Within(src, u, w, n - 1) && Edge(src, w, v)
  }

  ghost predicate Reaches(src: Sources, u: string, v: string) {
    exists n: nat :: Within(src, u, v, n)
  }

  /** Everything in a traced order can be reached from its first member. */
  lemma {:induction false} TracedReaches(src: Sources, order: seq<string>, k: nat)
    requires Traced(src, order) && k < |order|
    ensures Reaches(src, order[0], order[k])
  {
    hide Edge;
    if k == 0 {
      assert Within(src, order[0], order[0], 0);
    } else {
      assert Found(src, order, k);
      var j: nat :| j < k && Edge(src, order[j], order[k]);
      TracedReaches(src, order, j);
      var n: nat :| Within(src, order[0], order[j], n);
      assert Within(src, order[0], order[k], n + 1);
    }
  }

  lemma QueuedReached(src: Sources, entry: string, ids: map<string, nat>, visited: set<string>,
      compiled: map<string, Fragment>, order: seq<string>, done: seq<string>, url: string)
    requires Consistent(src, entry, ids, visited, compiled, order, done) && done + [url] <= order
    ensures Reaches(src, entry, url)
  {
    assert order[|done|] == url;
    TracedReaches(src, order, |done|);
  }

  lemma Start(src: Sources, entry: string)
    ensures Queued([entry], [entry], []) && Accounted(src, entry, [entry], [])
    ensures Reaches(src, entry, entry)
  {
    assert Within(src, entry, entry, 0);
  }

  lemma QueueEmpty(src: Sources, entry: string, ids: map<string, nat>, visited: set<string>,
      compiled: map<string, Fragment>, order: seq<string>, done: seq<string>)
    requires Consistent(src, entry, ids, visited, compiled, order, done)
    requires Queued(order, done, []) && Accounted(src, entry, order, done)
    ensures done == order && Discovery(src, entry, order)
  {
  }

  lemma SameNumber(ids: map<string, nat>, order: seq<string>, url: string)
    requires Numbers(ids, order) && url in ids
    ensures forall other :: other in ids && ids[other] == ids[url] ==> other == url
  {
    forall other | other in ids && ids[other] == ids[url]
      ensures other == url
    {
      var i, j := IndexOf(order, other), IndexOf(order, url);
    }
  }

  /** The fragment at each position is the one of the url with that number. */
  ghost predicate Layout(ordered: seq<Fragment>, order: seq<string>) {
    |ordered| == |order| && forall k :: 0 <= k < |order| ==> ordered[k] == Fragment(order[k], k)
  }

  /** What is left to take out from position `id` on. */
  ghost predicate CompiledFrom(rest: map<string, Fragment>, order: seq<string>, id: nat) {
    NoDup(order) && forall k :: id <= k < |order| ==> order[k] in rest && rest[order[k]] == Fragment(order[k], k)
  }

  lemma FinalFacts(src: Sources, entry: string, ids: map<string, nat>, visited: set<string>,
      compiled: map<string, Fragment>, order: seq<string>)
    requires Consistent(src, entry, ids, visited, compiled, order, order)
    ensures Numbers(ids, order) && CompiledFrom(compiled, order, 0)
  {
  }

  lemma TakeOne(rest: map<string, Fragment>, ordered: seq<Fragment>, order: seq<string>, id: nat)
    requires id < |order| && CompiledFrom(rest, order, id) && Layout(ordered, order[..id])
    ensures order[id] in rest && Layout(ordered + [rest[order[id]]], order[..id + 1])
    ensures CompiledFrom(rest - {order[id]}, order, id + 1)
  {
  }

  // ---- The compiler ---------------------------------------------------------------------------------

  class Compiler {
    const src: Sources
    const entry: string
    var urlToId: map<string, nat>
    var nextId: nat
    var queue: seq<string>
    var visited: set<string>
    var compiled: map<string, Fragment>
    /** The urls by number, and those compiled so far. */
    ghost var order: seq<string>
    ghost var done: seq<string>

    ghost predicate Valid()
      reads this
    {
      Consistent(src, entry, urlToId, visited, compiled, order, done) && nextId == |order|
    }

    constructor (src: Sources, entry: string)
      ensures Valid() && this.src == src && this.entry == entry && order == [entry] && done == [] && queue == []
    {
      this.src, this.entry := src, entry;
      urlToId, nextId := map[entry := 0], 1;
      queue, visited, compiled := [], {}, map[];
      order, done := [entry], [];
    }

    /** Gives a followed import a number when it is new and queues it unless it is already compiled. */
    method EnqueueDep(importer: string, raw: string)
      requires Valid() && Queued(order, done, queue) && importer in done
      requires forall d :: d in Deps(importer, [raw]) ==> Edge(src, importer, d)
      modifies `urlToId, `nextId, `queue, `order
      ensures Valid() && Queued(order, done, queue) && order == InsertAll(old(order), Deps(importer, [raw]))
    {
      DepsOne(importer, raw);
      hide Canonicalise, Edge, Deps, Consistent, Queued;
      if !IsRelative(raw) && !IsPkgSource(raw) {
        return;
      }
      hide IsRelative, IsPkgSource, Followed, InsertAll;
      var canonical := Canonicalise(importer, raw);
      assert canonical in Deps(importer, [raw]);
      SeeFacts(src, entry, urlToId, visited, compiled, order, done, canonical);
      QueueOne(order, done, queue, canonical);
      if canonical in visited {
        return;
      }
      if canonical !in urlToId {
        SeeNew(src, entry, urlToId, visited, compiled, order, done, importer, canonical);
        urlToId := urlToId[canonical := nextId];
        nextId := nextId + 1;
        order := order + [canonical];
      }
      queue := queue + [canonical];
    }

    /** Compiles one module under its number and queues its imports; false when it does not load. */
    method CompileOne(url: string) returns (ok: bool)
      requires Valid() && url !in done && done + [url] <= order
      requires Queued(order, done + [url], queue) && Accounted(src, entry, order, done)
      modifies `urlToId, `nextId, `queue, `order, `visited, `compiled, `done
      ensures ok <==> url in src
      ensures ok ==> Valid() && Queued(order, done, queue) && Accounted(src, entry, order, done)
      ensures ok ==> done == old(done) + [url] && visited == old(visited) + {url}
    {
      hide Consistent, Queued, Accounted, InsertAll, Deps, Edge;
      if url !in src {
        return false;
      }
      var raws := src[url];
      CompileNext(src, entry, urlToId, visited, compiled, order, done, url);
      AccountNext(src, entry, order, done, url);
      compiled := compiled[url := Fragment(url, urlToId[url])];
      visited := visited + {url};
      done := done + [url];
      ghost var before := order;
      NoDeps(url, before);
      var k := 0;
      while k < |raws|
        invariant 0 <= k <= |raws| && Valid() && Queued(order, done, queue)
        invariant done == old(done) + [url] && visited == old(visited) + {url}
        invariant order == InsertAll(before, Deps(url, raws[..k]))
      {
        NextDep(src, url, k);
        InsertAllConcat(before, Deps(url, raws[..k]), Deps(url, [raws[k]]));
        EnqueueDep(url, raws[k]);
        k := k + 1;
      }
      assert raws[..k] == raws;
      ok := true;
    }

    /** Compiles the entry, then the queue from its head until it is empty. */
    method Discover() returns (missing: Option<string>)
      requires Valid() && order == [entry] && done == [] && queue == []
      modifies this
      ensures missing.None? ==> Valid() && done == order && Discovery(src, entry, order)
      ensures missing.Some? ==> missing.value !in src && Reaches(src, entry, missing.value)
    {
      hide Consistent, Queued, Accounted, InsertAll, Reaches, Discovery;
      Start(src, entry);
      assert [] + [entry] == [entry];
      var ok := CompileOne(entry);
      if !ok {
        return Some(entry);
      }
      while queue != []
        invariant Valid() && Queued(order, done, queue) && Accounted(src, entry, order, done)
        decreases |src.Keys - visited|, |queue|
      {
        var url := queue[0];
        SeeFacts(src, entry, urlToId, visited, compiled, order, done, url);
        QueueHead(order, done, queue);
        queue := queue[1..];
        if url in visited {
          continue;
        }
        ghost var left := src.Keys - visited;
        QueuedReached(src, entry, urlToId, visited, compiled, order, done, url);
        ok := CompileOne(url);
        if !ok {
          return Some(url);
        }
        assert src.Keys - visited == left - {url};
      }
      QueueEmpty(src, entry, urlToId, visited, compiled, order, done);
      return None;
    }

    /** The fragments by number. */
    method Ordered() returns (r: Outcome)
      requires Valid() && done == order
      ensures r.Compiled? && r.urlToId == urlToId && Layout(r.ordered, order)
    {
      var idToUrl := Inverse(urlToId, order);
      ghost var ids, fragments, urls := urlToId, compiled, order;
      FinalFacts(src, entry, ids, visited, fragments, urls);
      hide Consistent, Numbers;
      var rest := compiled;
      var ordered: seq<Fragment> := [];
      var id := 0;
      while id < nextId
        invariant 0 <= id <= nextId == |urls| && Layout(ordered, urls[..id])
        invariant CompiledFrom(rest, urls, id)
      {
        TakeOne(rest, ordered, urls, id);
        if id !in idToUrl {
          return NoUrl(id);
        }
        var url := idToUrl[id];
        if url !in rest {
          return NotCompiled(id);
        }
        ordered := ordered + [rest[url]];
        rest := rest - {url};
        id := id + 1;
      }
      assert urls[..id] == urls;
      return Compiled(ordered, urlToId);
    }
  }

  /** Turns the numbering around. */
  method Inverse(ids: map<string, nat>, ghost order: seq<string>) returns (idToUrl: map<nat, string>)
    requires Numbers(ids, order)
    ensures forall k :: 0 <= k < |order| ==> k in idToUrl && idToUrl[k] == order[k]
  {
    hide Numbers;
    idToUrl := map[];
    var left := ids.Keys;
    while left != {}
      invariant left <= ids.Keys
      invariant forall url :: url in ids && url !in left ==> ids[url] in idToUrl && idToUrl[ids[url]] == url
      decreases |left|
    {
      var url :| url in left;
      SameNumber(ids, order, url);
      idToUrl := idToUrl[ids[url] := url];
      left := left - {url};
    }
    forall k | 0 <= k < |order|
      ensures k in idToUrl && idToUrl[k] == order[k]
    {
      assert order[k] in ids && ids[order[k]] == k by {
        NumberAt(ids, order, k);
      }
    }
  }

  lemma NumberAt(ids: map<string, nat>, order: seq<string>, k: nat)
    requires Numbers(ids, order) && k < |order|
    ensures order[k] in ids && ids[order[k]] == k
  {
  }

  // ---- What discovery means -------------------------------------------------------------------------

  lemma {:induction false} DepsOfAllConcat(src: Sources, a: seq<string>, b: seq<string>)
    ensures DepsOfAll(src, a + b) == DepsOfAll(src, a) + DepsOfAll(src, b)
    decreases b
  {
    hide DepsOf;
    if b == [] {
      assert a + b == a;
    } else {
      var n := |b| - 1;
      assert (a + b)[..|a| + n] == a + b[..n];
      DepsOfAllConcat(src, a, b[..n]);
    }
  }

  lemma {:induction false} InDepsOfAll(src: Sources, urls: seq<string>, v: string)
    ensures v in DepsOfAll(src, urls) <==> exists u :: u in urls && Edge(src, u, v)
    decreases urls
  {
    if urls != [] {
      var n := |urls| - 1;
      InDepsOfAll(src, urls[..n], v);
      assert forall u :: u in urls <==> u in urls[..n] || u == urls[n];
      assert v in DepsOfAll(src, urls) <==> v in DepsOfAll(src, urls[..n]) || Edge(src, urls[n], v);
    }
  }

  /** What the members before `p` account for comes first. */
  lemma PrefixAccounted(src: Sources, entry: string, order: seq<string>, p: nat)
    requires Accounted(src, entry, order, order) && p <= |order|
    ensures InsertAll([entry], DepsOfAll(src, order[..p])) <= order && NoDup(order) && order != [] && order[0] == entry
  {
    assert order == order[..p] + order[p..];
    DepsOfAllConcat(src, order[..p], order[p..]);
    InsertAllConcat([entry], DepsOfAll(src, order[..p]), DepsOfAll(src, order[p..]));
    InsertAllPrefix(InsertAll([entry], DepsOfAll(src, order[..p])), DepsOfAll(src, order[p..]));
    InsertAllPrefix([entry], DepsOfAll(src, order));
    InsertAllNoDup([entry], DepsOfAll(src, order));
  }

  /** A dependency of the member at `p` is among what the members up to `p` account for. */
  lemma DepAccounted(src: Sources, entry: string, order: seq<string>, p: nat, v: string)
    requires p < |order| && Edge(src, order[p], v)
    ensures v in InsertAll([entry], DepsOfAll(src, order[..p + 1]))
  {
    assert order[p] in order[..p + 1];
    InDepsOfAll(src, order[..p + 1], v);
    InInsertAll([entry], DepsOfAll(src, order[..p + 1]));
  }

  lemma {:induction false} ClosedUnderImports(src: Sources, entry: string, order: seq<string>, v: string, n: nat)
    requires Accounted(src, entry, order, order) && Within(src, entry, v, n)
    ensures v in order
    decreases n
  {
    hide Edge, InsertAll;
    PrefixAccounted(src, entry, order, 0);
    if n > 0 {
      var w :| Within(src, entry, w, n - 1) && Edge(src, w, v);
      ClosedUnderImports(src, entry, order, w, n - 1);
      var p := IndexOf(order, w);
      PrefixAccounted(src, entry, order, p + 1);
      DepAccounted(src, entry, order, p, v);
    }
  }

  /** Discovery lists exactly what can be reached from the entry, the entry first and each url once. */
  lemma DiscoversReachable(src: Sources, entry: string, order: seq<string>)
    requires Discovery(src, entry, order)
    ensures NoDup(order) && order != [] && order[0] == entry
    ensures forall v :: v in order <==> Reaches(src, entry, v)
  {
    PrefixAccounted(src, entry, order, 0);
    forall v
      ensures v in order <==> Reaches(src, entry, v)
    {
      if v in order {
        TracedReaches(src, order, IndexOf(order, v));
      }
      if Reaches(src, entry, v) {
        var n: nat :| Within(src, entry, v, n);
        ClosedUnderImports(src, entry, order, v, n);
      }
    }
  }

  /** Nearest first: a module numbered no later than another is reached in no more imports. */
  lemma {:induction false} NearestFirst(src: Sources, entry: string, order: seq<string>, i: nat, j: nat, n: nat)
    requires Accounted(src, entry, order, order)
    requires i <= j < |order| && Within(src, entry, order[j], n)
    ensures exists m: nat :: m <= n && Within(src, entry, order[i], m)
    decreases n
  {
    hide Edge, InsertAll;
    PrefixAccounted(src, entry, order, 0);
    if i == 0 {
      assert Within(src, entry, order[0], 0);
    } else {
      assert order[j] != entry;
      var w :| Within(src, entry, w, n - 1) && Edge(src, w, order[j]);
      ClosedUnderImports(src, entry, order, w, n - 1);
      var p := IndexOf(order, w);
      EarlierToo(src, entry, order, i, j, p);
      var q: nat :| q <= p && Edge(src, order[q], order[i]);
      NearestFirst(src, entry, order, q, p, n - 1);
      var m: nat :| m <= n - 1 && Within(src, entry, order[q], m);
      assert Within(src, entry, order[i], m + 1);
    }
  }

  /** When the member at `p` imports the one at `j`, a member up to `p` imports any earlier one but the entry. */
  lemma EarlierToo(src: Sources, entry: string, order: seq<string>, i: nat, j: nat, p: nat)
    requires Accounted(src, entry, order, order)
    requires 0 < i <= j < |order| && p < |order| && Edge(src, order[p], order[j])
    ensures exists q: nat :: q <= p && Edge(src, order[q], order[i])
  {
    hide Edge, InsertAll;
    var known, made := order[..p + 1], InsertAll([entry], DepsOfAll(src, order[..p + 1]));
    PrefixAccounted(src, entry, order, p + 1);
    DepAccounted(src, entry, order, p, order[j]);
    var k := IndexOf(made, order[j]);
    assert order[k] == order[j];
    assert made[i] == order[i];
    InInsertAll([entry], DepsOfAll(src, known));
    InDepsOfAll(src, known, order[i]);
    var u :| u in known && Edge(src, u, order[i]);
    var q := IndexOf(known, u);
    assert order[q] == u;
  }

  /** There is only one discovery: the numbering does not depend on how the queue was worked off. */
  lemma DiscoveryIsUnique(src: Sources, entry: string, a: seq<string>, b: seq<string>)
    requires Discovery(src, entry, a) && Discovery(src, entry, b)
    ensures a == b
  {
    Agree(src, entry, a, b, |a|);
    Agree(src, entry, b, a, |b|);
  }

  lemma {:induction false} Agree(src: Sources, entry: string, a: seq<string>, b: seq<string>, k: nat)
    requires Discovery(src, entry, a) && Discovery(src, entry, b) && k <= |a|
    ensures k <= |b| && a[..k] == b[..k]
    decreases k
  {
    hide Edge, InsertAll, DepsOfAll, DepsOf;
    PrefixAccounted(src, entry, a, 0);
    PrefixAccounted(src, entry, b, 0);
    if k > 1 {
      var n := k - 1;
      Agree(src, entry, a, b, n);
      assert Found(src, a, n);
      var j: nat :| j < n && Edge(src, a[j], a[n]);
      var made := InsertAll([entry], DepsOfAll(src, a[..n]));
      PrefixAccounted(src, entry, a, n);
      PrefixAccounted(src, entry, b, n);
      assert a[j] in a[..n];
      InDepsOfAll(src, a[..n], a[n]);
      InInsertAll([entry], DepsOfAll(src, a[..n]));
      var m := IndexOf(made, a[n]);
      assert a[m] == a[n] && m == n;
      assert b[n] == made[n] == a[n];
      assert a[..k] == a[..n] + [a[n]] && b[..k] == b[..n] + [b[n]];
    }
  }

  /** Compiles a package. It fails only on a module that can be reached and does not load; otherwise the
      modules that can be reached are there, each once, numbered nearest first from the entry's 0, and every
      number has its url and its fragment. */
  method CompilePackage(src: Sources, entry: string) returns (r: Outcome)
    ensures r.Compiled? || r.LoadFailed?
    ensures r.Compiled? <==> forall url :: Reaches(src, entry, url) ==> url in src
    ensures r.LoadFailed? ==> Reaches(src, entry, r.url) && r.url !in src
    ensures r.Compiled? ==> exists order :: Discovery(src, entry, order) && Numbers(r.urlToId, order) && Layout(r.ordered, order)
  {
    hide InsertAll, Reaches, Edge, Traced;
    var c := new Compiler(src, entry);
    var missing := c.Discover();
    if missing.Some? {
      return LoadFailed(missing.value);
    }
    r := c.Ordered();
    DiscoversReachable(src, entry, c.order);
    assert Numbers(r.urlToId, c.order);
  }
}
