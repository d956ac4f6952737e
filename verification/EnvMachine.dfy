/** The meaning of the IR before closure conversion: a function is its code and the environment it
    was made in. A `LetVal` under the id of a slot fills the slot. One unit of fuel pays for one call; everything
    between calls is structural. */
module EnvMachine {
  import opened Collections
  import opened CpsIr
  import opened Machine

  datatype EnvFn = EnvFn(params: seq<Param>, body: Expr, env: Env)

  function Eval(rt: Runtime, fuel: nat, e: Expr, env: Env, ctx: Value, sh: Shared, fns: seq<EnvFn>): Result
    decreases fuel, 1, e
  {
    match e
    case LetVal(_, name, val, cont) =>
      (match ReadVal(val, env, sh)
       case None => Trap(sh)
       case Some(v) =>
         if name.id in rt.slots then
           match FillSlot(name.id, v, env, sh)
           case None => Trap(sh)
           case Some(sh') => RunCall(rt, fuel, cont, ContArgs(cont, [v], ctx), env, ctx, sh', fns)
         else RunCall(rt, fuel, cont, ContArgs(cont, [v], ctx), env[name.id := Holds(v)], ctx, sh, fns))
    case LetFn(_, name, params, _, body, cont) =>
      var f := FnAt(|fns|);
      RunCall(rt, fuel, cont, ContArgs(cont, [f], ctx), env[name.id := Holds(f)], ctx, sh, fns + [EnvFn(params, body, env)])
    case App(_, CallBuiltIn(op), args) =>
      (match op
       case Panic(reason) => Result(Panicked(reason), sh)
       case Pub =>
         (match PubKey(args)
          case None => Trap(sh)
          case Some((x, k)) =>
            match ExportSlot(x, sh)
            case None => Trap(sh)
            case Some(sh') => RunCall(rt, fuel, k, [ctx], env, ctx, sh', fns))
       case FinkModule =>
         (match args
          case Cons(ArgCont(k), Nil) => RunCall(rt, fuel, k, [ctx, HostDone], env, ctx, sh, fns)
          case _ => Trap(sh))
       case FnClosure => Trap(sh)
       case Operator(_) =>
         match EvalArgs(args, env, sh, fns)
         case None => Trap(sh)
         case Some((vals, fns')) =>
           var sh' := Logged(op, vals, sh);
           match rt.answer(sh'.log)
           case OpFails => Trap(sh')
           case TailCall(f, vs) => Invoke(rt, fuel, f, vs, sh', fns'))
    case App(_, CallVal(callee), args) =>
      (match (ReadVal(callee, env, sh), EvalArgs(args, env, sh, fns))
       case (Some(f), Some((vals, fns'))) => Invoke(rt, fuel, f, vals, sh, fns')
       case _ => Trap(sh))
    case If(_, cond, thn, els) =>
      (match ReadVal(cond, env, sh)
       case Some(BoolValue(true)) => Eval(rt, fuel, thn, env, ctx, sh, fns)
       case Some(BoolValue(false)) => Eval(rt, fuel, els, env, ctx, sh, fns)
       case _ => Trap(sh))
    case LetRec(_, slots, body) =>
      Eval(rt, fuel, body, env + SlotEntries(slots, |sh.cells|), ctx, Declare(slots, sh), fns)
    case Set(_, name, val, cont) =>
      (match ReadVal(val, env, sh)
       case None => Trap(sh)
       case Some(v) =>
         match FillSlot(name.id, v, env, sh)
         case None => Trap(sh)
         case Some(sh') => RunCall(rt, fuel, cont, ContArgs(cont, [], ctx), env, ctx, sh', fns))
    case Closure(_, _, _, _) => Trap(sh)
    case LetCaps(_, _, _, _) => Trap(sh)
  }

  /** Goes on with a continuation: an inline one binds the arguments, a named one is called. */
  function RunCall(rt: Runtime, fuel: nat, k: Cont, args: seq<Value>, env: Env, ctx: Value,
                   sh: Shared, fns: seq<EnvFn>): Result
    decreases fuel, 1, k
  {
    match k
    case ContTo(x) =>
      (match ReadId(x, env, sh)
       case None => Trap(sh)
       case Some(f) => Invoke(rt, fuel, f, args, sh, fns))
    case Inline(binds, body) =>
      match BindParams(Names(binds), args)
      case None => Trap(sh)
      case Some(m) => Eval(rt, fuel, body, env + m, ctx, sh, fns)
  }

  function Invoke(rt: Runtime, fuel: nat, f: Value, args: seq<Value>, sh: Shared, fns: seq<EnvFn>): Result
    decreases fuel, 0
  {
    if fuel == 0 then Result(OutOfFuel, sh)
    else if f == HostDone then Result(Finished(args), sh)
    else if f.FnAt? && f.addr < |fns| then
      match BindParams(fns[f.addr].params, args)
      case None => Trap(sh)
      case Some(m) => Eval(rt, fuel - 1, fns[f.addr].body, fns[f.addr].env + m, CtxOf(args), sh, fns)
    else Trap(sh)
  }

  /** Evaluates call arguments from the left. An inline continuation becomes a function value. */
  function EvalArgs(args: List<Arg>, env: Env, sh: Shared, fns: seq<EnvFn>): Option<(seq<Value>, seq<EnvFn>)> {
    match args
    case Nil => Some(([], fns))
    case Cons(a, rest) =>
      match EvalArg(a, env, sh, fns)
      case None => None
      case Some((vs, fns')) =>
        match EvalArgs(rest, env, sh, fns')
        case None => None
        case Some((ws, fns'')) => Some((vs + ws, fns''))
  }

  function EvalArg(a: Arg, env: Env, sh: Shared, fns: seq<EnvFn>): Option<(seq<Value>, seq<EnvFn>)> {
    match a
    case ArgVal(v) =>
      (match ReadVal(v, env, sh)
       case None => None
       case Some(x) => Some(([x], fns)))
    case ArgSpread(v) =>
      (match ReadVal(v, env, sh)
       case Some(ListValue(items)) => Some((items, fns))
       case _ => None)
    case ArgCont(ContTo(k)) =>
      (match ReadId(k, env, sh)
       case None => None
       case Some(x) => Some(([x], fns)))
    case ArgCont(Inline(binds, body)) =>
      Some(([FnAt(|fns|)], fns + [EnvFn(Names(binds), body, env)]))
    case ArgExpr(_) => None
  }
}
