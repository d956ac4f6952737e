/** The meaning of closure-converted IR: all code sits in one static function table, a function
    value is a table entry with a record of captures, and a body sees its parameters, its record and
    its own bindings. A slot that is none of these is found where code generation puts it, in the one
    global that holds the cell declared last under its id. */
module FlatMachine {
  import opened Collections
  import opened CpsIr
  import opened Machine

  type FnTable = map<CpsId, FnDef>

  datatype FlatFn = FlatFn(code: CpsId, captures: seq<Entry>)

  function Eval(rt: Runtime, table: FnTable, fuel: nat, e: Expr, env: Env, ctx: Value, sh: Shared,
                fns: seq<FlatFn>): Result
    decreases fuel, 1, e
  {
    var seen := Sees(rt.slots, env, sh);
    match e
    case LetVal(_, name, val, cont) =>
      (match ReadVal(val, seen, sh)
       case None => Trap(sh)
       case Some(v) =>
         if name.id in rt.slots then
           match FillSlot(name.id, v, seen, sh)
           case None => Trap(sh)
           case Some(sh') => RunCall(rt, table, fuel, cont, ContArgs(cont, [v], ctx), env, ctx, sh', fns)
         else RunCall(rt, table, fuel, cont, ContArgs(cont, [v], ctx), env[name.id := Holds(v)], ctx, sh, fns))
    case LetFn(_, _, _, _, _, cont) =>
      // A definition: the table holds it already.
      if cont.Inline? then Eval(rt, table, fuel, cont.body, env, ctx, sh, fns) else Trap(sh)
    case App(_, CallBuiltIn(op), args) =>
      (match op
       case Panic(reason) => Result(Panicked(reason), sh)
       case Pub =>
         (match PubKey(args)
          case None => Trap(sh)
          case Some((x, k)) =>
            match ExportSlot(x, sh)
            case None => Trap(sh)
            case Some(sh') => RunCall(rt, table, fuel, k, [ctx], env, ctx, sh', fns))
       case FinkModule =>
         (match args
          case Cons(ArgCont(k), Nil) => RunCall(rt, table, fuel, k, [ctx, HostDone], env, ctx, sh, fns)
          case _ => Trap(sh))
       case FnClosure => Trap(sh)
       case Operator(_) =>
         match EvalArgs(args, seen, sh)
         case None => Trap(sh)
         case Some(vals) =>
           var sh' := Logged(op, vals, sh);
           match rt.answer(sh'.log)
           case OpFails => Trap(sh')
           case TailCall(f, vs) => Invoke(rt, table, fuel, f, vs, sh', fns))
    case App(_, CallVal(callee), args) =>
      (match (ReadVal(callee, seen, sh), EvalArgs(args, seen, sh))
       case (Some(f), Some(vals)) => Invoke(rt, table, fuel, f, vals, sh, fns)
       case _ => Trap(sh))
    case If(_, cond, thn, els) =>
      (match ReadVal(cond, seen, sh)
       case Some(BoolValue(true)) => Eval(rt, table, fuel, thn, env, ctx, sh, fns)
       case Some(BoolValue(false)) => Eval(rt, table, fuel, els, env, ctx, sh, fns)
       case _ => Trap(sh))
    case LetRec(_, slots, body) =>
      Eval(rt, table, fuel, body, env + SlotEntries(slots, |sh.cells|), ctx, Declare(slots, sh), fns)
    case Set(_, name, val, cont) =>
      (match ReadVal(val, seen, sh)
       case None => Trap(sh)
       case Some(v) =>
         match FillSlot(name.id, v, seen, sh)
         case None => Trap(sh)
         case Some(sh') => RunCall(rt, table, fuel, cont, ContArgs(cont, [], ctx), env, ctx, sh', fns))
    case Closure(_, funcref, captures, cont) =>
      (match (funcref.kind, CaptureAll(captures, seen))
       case (Ref(code), Some(entries)) =>
         var f := FnAt(|fns|);
         RunCall(rt, table, fuel, cont, ContArgs(cont, [f], ctx), env, ctx, sh, fns + [FlatFn(code, entries)])
       case _ => Trap(sh))
    case LetCaps(_, caps, binds, cont) =>
      match caps.kind
      case Ref(x) =>
        if x in env && env[x].Record? && Fits(binds, env[x].entries)
        then RunCall(rt, table, fuel, cont, ContArgs(cont, [], ctx), env + Unpack(binds, env[x].entries), ctx, sh, fns)
        else Trap(sh)
      case _ => Trap(sh)
  }

  function RunCall(rt: Runtime, table: FnTable, fuel: nat, k: Cont, args: seq<Value>, env: Env, ctx: Value,
                   sh: Shared, fns: seq<FlatFn>): Result
    decreases fuel, 1, k
  {
    match k
    case ContTo(x) =>
      (match ReadId(x, Sees(rt.slots, env, sh), sh)
       case None => Trap(sh)
       case Some(f) => Invoke(rt, table, fuel, f, args, sh, fns))
    case Inline(binds, body) =>
      match BindParams(Names(binds), args)
      case None => Trap(sh)
      case Some(m) => Eval(rt, table, fuel, body, env + m, ctx, sh, fns)
  }

  function Invoke(rt: Runtime, table: FnTable, fuel: nat, f: Value, args: seq<Value>, sh: Shared,
                  fns: seq<FlatFn>): Result
    decreases fuel, 0
  {
    if fuel == 0 then Result(OutOfFuel, sh)
    else if f == HostDone then Result(Finished(args), sh)
    else if f.FnAt? && f.addr < |fns| && fns[f.addr].code in table then
      var fn := fns[f.addr];
      var def := table[fn.code];
      if def.params == [] || def.params[0].bind.kind != Caps then Trap(sh)
      else
        match BindParams(def.params[1..], args)
        case None => Trap(sh)
        case Some(m) =>
          Eval(rt, table, fuel - 1, def.body, m[def.params[0].bind.id := Record(fn.captures)], CtxOf(args), sh, fns)
    else Trap(sh)
  }

  /** Takes each capture as its binding holds it: a slot is captured by its cell. */
  function CaptureAll(captures: seq<Capture>, env: Env): Option<seq<Entry>> {
    if captures == [] then Some([])
    else
      match captures[0].val.kind
      case Ref(x) =>
        if x !in env then None
        else
          (match CaptureAll(captures[1..], env)
           case None => None
           case Some(es) => Some([env[x]] + es))
      case _ => None
  }

  /** A local of kind `Slot` takes a cell, every other local takes a value. */
  function Fits(binds: seq<BindNode>, entries: seq<Entry>): bool {
    && |binds| == |entries|
    && forall i :: 0 <= i < |binds| ==> if binds[i].kind == Slot then entries[i].Cell? else entries[i].Holds?
  }

  function Unpack(binds: seq<BindNode>, entries: seq<Entry>): Env
    requires |binds| == |entries|
  {
    if binds == [] then map[]
    else map[binds[0].id := entries[0]] + Unpack(binds[1..], entries[1..])
  }

  /** Code has no environment to share, so an inline continuation cannot become a value here. */
  function EvalArgs(args: List<Arg>, env: Env, sh: Shared): Option<seq<Value>> {
    match args
    case Nil => Some([])
    case Cons(a, rest) =>
      match (EvalArg(a, env, sh), EvalArgs(rest, env, sh))
      case (Some(vs), Some(ws)) => Some(vs + ws)
      case _ => None
  }

  function EvalArg(a: Arg, env: Env, sh: Shared): Option<seq<Value>> {
    match a
    case ArgVal(v) =>
      (match ReadVal(v, env, sh)
       case None => None
       case Some(x) => Some([x]))
    case ArgSpread(v) =>
      (match ReadVal(v, env, sh)
       case Some(ListValue(items)) => Some(items)
       case _ => None)
    case ArgCont(ContTo(k)) =>
      (match ReadId(k, env, sh)
       case None => None
       case Some(x) => Some([x]))
    case _ => None
  }
}
