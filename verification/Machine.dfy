/** What the two abstract machines share: values, environments, slot cells, the exports made so
    far and the runtime operators.

    Functions live in a heap, so a value never contains an environment or code; that is what lets
    the machines be compared by plain equality. The runtime operators are an arbitrary function of
    the calls made so far, hence any deterministic runtime, stateful or not. */
module Machine {
  import opened Collections
  import opened CpsIr

  datatype Value =
    | Datum(code: nat)
    | BoolValue(value: bool)
    | Operation(op: BuiltIn)
    | FnAt(addr: nat)
    | ListValue(items: seq<Value>)
    | HostDone

  /** What a binding holds: a value, a slot cell, or a record of captures. */
  datatype Entry = Holds(value: Value) | Cell(addr: nat) | Record(entries: seq<Entry>)

  type Env = map<CpsId, Entry>

  datatype Export = Export(key: CpsId, value: Value)

  datatype OpCall = OpCall(op: BuiltIn, args: seq<Value>)

  /** `globals` names the cell of each slot that was declared last; exports read through it, and so does converted
      code that has not captured the cell. */
  datatype Shared = Shared(cells: seq<Option<Value>>, globals: map<CpsId, nat>,
                           exports: seq<Export>, log: seq<OpCall>)

  /** How an operator goes on: it tail-calls one of the values it was ever given, or fails. */
  datatype OpResult = TailCall(callee: Value, args: seq<Value>) | OpFails

  /** What is fixed in a run: how operators answer, and which ids are slots. */
  datatype Runtime = Runtime(answer: seq<OpCall> -> OpResult, slots: set<CpsId>)

  datatype Outcome = Finished(args: seq<Value>) | OutOfFuel | Panicked(reason: nat) | Trapped

  datatype Result = Result(outcome: Outcome, sh: Shared)

  function Trap(sh: Shared): Result {
    Result(Trapped, sh)
  }

  /** Reads a binding; a slot reads through its cell and an empty one traps. */
  function ReadId(x: CpsId, env: Env, sh: Shared): Option<Value> {
    if x !in env then None
    else
      match env[x]
      case Holds(v) => Some(v)
      case Cell(a) => if a < |sh.cells| then sh.cells[a] else None
      case Record(_) => None
  }

  function ReadVal(v: Val, env: Env, sh: Shared): Option<Value> {
    match v.kind
    case Ref(x) => ReadId(x, env, sh)
    case ContRef(x) => ReadId(x, env, sh)
    case Lit(BoolLit(b)) => Some(BoolValue(b))
    case Lit(DataLit(n)) => Some(Datum(n))
    case BuiltInVal(op) => Some(Operation(op))
    case Unresolved(_) => None
  }

  /** Binds parameters to arguments from the left; a spread takes all that are left. Too few
      arguments trap, surplus ones are dropped. */
  function BindParams(params: seq<Param>, args: seq<Value>): (r: Option<Env>)
    ensures r.Some? ==> r.value.Keys == ParamIds(params)
    ensures r.Some? ==> forall x :: x in r.value ==> r.value[x].Holds?
  {
    if params == [] then Some(map[])
    else
      assert params == [params[0]] + params[1..];
      assert ParamIds(params) == {params[0].bind.id} + ParamIds(params[1..]);
      match params[0]
      case Name(b) =>
        if args == [] then None
        else
          (match BindParams(params[1..], args[1..])
           case None => None
           case Some(m) => Some(map[b.id := Holds(args[0])] + m))
      case Spread(b) =>
        match BindParams(params[1..], args)
        case None => None
        case Some(m) => Some(map[b.id := Holds(ListValue(args))] + m)
  }

  lemma PutIsAdd(env: Env, x: CpsId, v: Value)
    ensures env[x := Holds(v)] == env + map[x := Holds(v)]
  {
  }

  lemma BindOne(name: BindNode, v: Value)
    ensures BindParams(Names([name]), [v]) == Some(map[name.id := Holds(v)])
  {
    var ps := Names([name]);
    assert ps[1..] == [] && [v][1..] == [];
    assert BindParams(ps[1..], [v][1..]) == Some(map[]);
    var one: Env := map[name.id := Holds(v)];
    assert one + map[] == one;
  }

  lemma BindNone(args: seq<Value>)
    ensures BindParams(Names([]), args) == Some(map[])
  {
    assert Names([]) == [];
  }

  /** The context travels as the first argument of every call. */
  function CtxOf(args: seq<Value>): Value {
    if args == [] then Datum(0) else args[0]
  }

  /** The arguments a continuation of the running function gets: a named one is called like any
      function, context first; an inline one binds just the results. */
  function ContArgs(k: Cont, results: seq<Value>, ctx: Value): seq<Value> {
    if k.ContTo? then [ctx] + results else results
  }

  // ---- Slots ----------------------------------------------------------------------------------

  function SlotAddrs(slots: seq<BindNode>, first: nat): (r: map<CpsId, nat>)
    ensures r.Keys == BindIds(slots)
    decreases slots
  {
    if slots == [] then map[]
    else
      assert slots == [slots[0]] + slots[1..];
      map[slots[0].id := first] + SlotAddrs(slots[1..], first + 1)
  }

  function SlotEntries(slots: seq<BindNode>, first: nat): Env {
    var addrs := SlotAddrs(slots, first);
    map x | x in addrs :: Cell(addrs[x])
  }

  /** Declares empty slots. */
  function Declare(slots: seq<BindNode>, sh: Shared): Shared {
    sh.(cells := sh.cells + seq(|slots|, _ => None),
        globals := sh.globals + SlotAddrs(slots, |sh.cells|))
  }

  /** What code finds under an id: what its environment holds, else the cell of the slot that was declared
      last under that id. */
  function Sees(slots: set<CpsId>, env: Env, sh: Shared): Env {
    (map x | x in slots && x in sh.globals :: Cell(sh.globals[x])) + env
  }

  function FillSlot(x: CpsId, v: Value, env: Env, sh: Shared): Option<Shared> {
    if x in env && env[x].Cell? && env[x].addr < |sh.cells|
    then Some(sh.(cells := sh.cells[env[x].addr := Some(v)]))
    else None
  }

  // ---- Operators ------------------------------------------------------------------------------

  /** `Pub` exports the slot its second argument names, read through the slot's global. */
  function PubKey(args: List<Arg>): (r: Option<(CpsId, Cont)>)
    ensures r.Some? ==> args.Cons? && args.tail.Cons? && args.tail.tail == Cons(ArgCont(r.value.1), Nil)
  {
    match args
    case Cons(ArgVal(_), Cons(ArgVal(Val(_, Ref(x))), Cons(ArgCont(k), Nil))) => Some((x, k))
    case _ => None
  }

  function ExportSlot(x: CpsId, sh: Shared): Option<Shared> {
    if x in sh.globals && sh.globals[x] < |sh.cells| && sh.cells[sh.globals[x]].Some?
    then Some(sh.(exports := sh.exports + [Export(x, sh.cells[sh.globals[x]].value)]))
    else None
  }

  function Logged(op: BuiltIn, args: seq<Value>, sh: Shared): Shared {
    sh.(log := sh.log + [OpCall(op, args)])
  }
}
