/** The debugger's two threads as a state machine: the program, which stops at marks, and the command
    loop, which talks to the client. They share a filter mode and the breakpoints, and two channels that
    hold one message each. Every interleaving of their steps is a run. */
module DebugProtocol {
  import opened Collections

  type Pc = nat

  /** The program counter that stands for the program's end. */
  const END: Pc := 0xFFFF_FFFF

  datatype BreakKey = BreakKey(path: string, line: int)

  datatype Mark = Mark(pc: Pc, moduleId: nat, line: int)

  /** What is fixed: the marks of the binary, the path of each module and the marks the program passes,
      in order, before it ends. */
  datatype Debuggee = Debuggee(marks: seq<Mark>, paths: map<nat, string>, trace: seq<Pc>)

  ghost predicate ValidDebuggee(d: Debuggee) {
    END !in d.trace
  }

  /** The first mark at a program counter decides. */
  function FindMark(marks: seq<Mark>, pc: Pc): (r: Option<Mark>)
    ensures r.Some? ==> r.value in marks && r.value.pc == pc
    ensures r.None? ==> forall m :: m in marks ==> m.pc != pc
  {
    if marks == [] then None else if marks[0].pc == pc then Some(marks[0]) else FindMark(marks[1..], pc)
  }

  predicate Hits(d: Debuggee, bps: set<BreakKey>, pc: Pc) {
    match FindMark(d.marks, pc)
    case None => false
    case Some(m) => m.moduleId in d.paths && BreakKey(d.paths[m.moduleId], m.line) in bps
  }

  /** Position `k` holds the first mark at a program counter. */
  ghost predicate FirstAt(marks: seq<Mark>, pc: Pc, k: nat) {
    k < |marks| && marks[k].pc == pc && forall j :: 0 <= j < k ==> marks[j].pc != pc
  }

  lemma {:induction false} FindIsFirst(marks: seq<Mark>, pc: Pc)
    ensures match FindMark(marks, pc)
            case Some(m) => exists k: nat :: FirstAt(marks, pc, k) && marks[k] == m
            case None => forall k: nat :: !FirstAt(marks, pc, k)
  {
    if marks != [] && marks[0].pc == pc {
      assert FirstAt(marks, pc, 0);
    } else if marks != [] {
      FindIsFirst(marks[1..], pc);
      if FindMark(marks[1..], pc).Some? {
        var k: nat :| FirstAt(marks[1..], pc, k) && marks[1..][k] == FindMark(marks[1..], pc).value;
        assert FirstAt(marks, pc, k + 1);
      }
    }
  }

  /** A program counter hits exactly when the first mark at it lies on a line that is set in the file of its module. */
  lemma HitsIs(d: Debuggee, bps: set<BreakKey>, pc: Pc)
    ensures Hits(d, bps, pc) <==>
            exists k: nat :: FirstAt(d.marks, pc, k) && d.marks[k].moduleId in d.paths
                        && BreakKey(d.paths[d.marks[k].moduleId], d.marks[k].line) in bps
  {
    FindIsFirst(d.marks, pc);
    forall j: nat, k: nat | FirstAt(d.marks, pc, j) && FirstAt(d.marks, pc, k)
      ensures j == k
    {
    }
  }

  // ---- The two threads ------------------------------------------------------------------------------

  datatype Mode = StepAny | UntilBreakpoint

  datatype Reason = Entry | Breakpoint | Step

  datatype Event = Stopped(reason: Reason, at: nat) | Terminated

  datatype Command =
    | Launch(stopOnEntry: bool)
    | SetBreakpoints(path: string, lines: set<int>)
    | ConfigurationDone
    | Continue
    | Next
    | Query
    | Disconnect

  /** Where the program is, by position in its trace: running up to it, about to report it, waiting to be
      resumed at it, or through. */
  datatype Phase = Running(i: nat) | Reporting(i: nat) | Waiting(i: nat) | Finished

  /** Where the command loop is. */
  datatype Loop =
    | Polling
    | AwaitEntry
    | AwaitFirst
    | SkipFirst
    | Resuming(reason: Reason)
    | AwaitStop(reason: Reason)
    | Closed

  datatype Wire = StopSent | ResumeSent

  datatype State = State(phase: Phase, mode: Mode, bps: set<BreakKey>, stopped: seq<(Pc, nat)>, resumes: nat,
                         loop: Loop, stopOnEntry: bool, configured: bool, running: bool, commands: seq<Command>,
                         log: seq<Event>, wire: seq<Wire>)

  function Start(): State {
    State(Running(0), StepAny, {}, [], 0, Polling, false, false, false, [], [], [])
  }

  function LinesOf(d: Debuggee): set<int> {
    set m | m in d.marks :: m.line
  }

  /** A file's breakpoints are replaced; only lines that carry a mark somewhere are taken. */
  function ReplaceBreakpoints(d: Debuggee, bps: set<BreakKey>, path: string, lines: set<int>): set<BreakKey> {
    (set b | b in bps && b.path != path) + set l | l in lines && l in LinesOf(d) :: BreakKey(path, l)
  }

  /** What the two threads share under the lock. */
  class HandlerState {
    var mode: Mode
    var userBps: set<BreakKey>

    constructor ()
      ensures mode == StepAny && userBps == {}
    {
      mode, userBps := StepAny, {};
    }

    /** Looks for the mark at a program counter, then for its line among the breakpoints. */
    method MarkMatchesUserBp(d: Debuggee, pc: Pc) returns (matches: bool)
      ensures matches <==> Hits(d, userBps, pc)
    {
      var k := 0;
      while k < |d.marks| && d.marks[k].pc != pc
        invariant 0 <= k <= |d.marks| && FindMark(d.marks[k..], pc) == FindMark(d.marks, pc)
      {
        assert d.marks[k..][0] == d.marks[k] && d.marks[k..][1..] == d.marks[k + 1..];
        k := k + 1;
      }
      if k == |d.marks| {
        return false;
      }
      assert d.marks[k..][0] == d.marks[k];
      var m := d.marks[k];
      matches := m.moduleId in d.paths && BreakKey(d.paths[m.moduleId], m.line) in userBps;
    }

    /** Whether a mark that fires is reported. */
    method Exposes(d: Debuggee, pc: Pc) returns (expose: bool)
      ensures expose <==> mode == StepAny || Hits(d, userBps, pc)
    {
      match mode
      case StepAny => expose := true;
      case UntilBreakpoint => expose := MarkMatchesUserBp(d, pc);
    }

    /** Replaces the breakpoints of a file and tells which of the lines are taken. */
    method SetBreakpoints(d: Debuggee, path: string, lines: seq<int>) returns (verified: seq<bool>)
      modifies `userBps
      ensures userBps == ReplaceBreakpoints(d, old(userBps), path, Elements(lines))
      ensures |verified| == |lines|
      ensures forall k :: 0 <= k < |lines| ==> (verified[k] <==> exists m :: m in d.marks && m.line == lines[k])
    {
      var markLines := LinesOf(d);
      ghost var was := userBps;
      userBps := set b | b in userBps && b.path != path;
      verified := [];
      var k := 0;
      while k < |lines|
        invariant 0 <= k <= |lines| && |verified| == k && markLines == LinesOf(d)
        invariant userBps == ReplaceBreakpoints(d, was, path, Elements(lines[..k]))
        invariant forall j :: 0 <= j < k ==> (verified[j] <==> lines[j] in markLines)
      {
        ReplaceOneMore(d, was, path, lines, k);
        if lines[k] in markLines {
          userBps := userBps + {BreakKey(path, lines[k])};
        }
        verified := verified + [lines[k] in markLines];
        k := k + 1;
      }
      assert lines[..k] == lines;
    }
  }

  lemma ReplaceOneMore(d: Debuggee, bps: set<BreakKey>, path: string, lines: seq<int>, k: nat)
    requires k < |lines|
    ensures ReplaceBreakpoints(d, bps, path, Elements(lines[..k + 1]))
            == ReplaceBreakpoints(d, bps, path, Elements(lines[..k]))
               + if lines[k] in LinesOf(d) then {BreakKey(path, lines[k])} else {}
  {
    assert lines[..k + 1] == lines[..k] + [lines[k]];
    assert Elements(lines[..k + 1]) == Elements(lines[..k]) + {lines[k]};
  }

  // The program's steps.

  /** A mark fires: the handler looks at the mode and the breakpoints once, under the lock. */
  ghost predicate Fire(d: Debuggee, s: State, s': State) {
    && s.phase.Running? && s.phase.i < |d.trace|
    && var i := s.phase.i;
       var expose := s.mode == StepAny || Hits(d, s.bps, d.trace[i]);
       s' == s.(phase := if expose then Reporting(i) else Running(i + 1))
  }

  ghost predicate Report(d: Debuggee, s: State, s': State) {
    && s.phase.Reporting? && s.phase.i < |d.trace| && |s.stopped| < 1
    && s' == s.(phase := Waiting(s.phase.i), stopped := s.stopped + [(d.trace[s.phase.i], s.phase.i)], wire := s.wire + [StopSent])
  }

  ghost predicate Resume(s: State, s': State) {
    && s.phase.Waiting? && s.resumes > 0
    && s' == s.(phase := Running(s.phase.i + 1), resumes := s.resumes - 1)
  }

  ghost predicate Finish(d: Debuggee, s: State, s': State) {
    && s.phase == Running(|d.trace|) && |s.stopped| < 1
    && s' == s.(phase := Finished, stopped := s.stopped + [(END, |d.trace|)])
  }

  // The command loop's steps.

  function Accept(s: State, c: Command): State {
    s.(commands := s.commands + [c])
  }

  ghost predicate Poll(d: Debuggee, s: State, s': State, c: Command) {
    && s.loop == Polling
    && match c
       case Launch(e) => s' == Accept(s, c).(stopOnEntry := e)
       case SetBreakpoints(path, lines) => s' == Accept(s, c).(bps := ReplaceBreakpoints(d, s.bps, path, lines))
       case ConfigurationDone =>
         && !s.configured
         && s' == Accept(s, c).(configured := true, mode := if s.stopOnEntry then StepAny else UntilBreakpoint,
                                loop := if s.stopOnEntry then AwaitEntry else AwaitFirst,
                                running := if s.stopOnEntry then s.running else true)
       case Continue =>
         s' == if s.running then Accept(s, c).(mode := UntilBreakpoint, loop := Resuming(Breakpoint)) else Accept(s, c)
       case Next =>
         s' == if s.running then Accept(s, c).(mode := StepAny, loop := Resuming(Step)) else Accept(s, c)
       case Query => s' == Accept(s, c)
       case Disconnect => s' == Accept(s, c).(loop := Closed)
  }

  ghost predicate SendResume(s: State, s': State) {
    && (s.loop.Resuming? || s.loop.SkipFirst?) && s.resumes < 1
    && s' == s.(resumes := s.resumes + 1, wire := s.wire + [ResumeSent],
                loop := if s.loop.Resuming? then AwaitStop(s.loop.reason) else AwaitFirst)
  }

  /** The loop takes a stop. One that only the late mode flip exposed is skipped in silence. */
  ghost predicate TakeStop(d: Debuggee, s: State, s': State) {
    && (s.loop.AwaitEntry? || s.loop.AwaitFirst? || s.loop.AwaitStop?) && |s.stopped| > 0
    && var (pc, at) := s.stopped[0];
       var t := s.(stopped := s.stopped[1..]);
       if pc == END then s' == t.(running := false, loop := Closed, log := s.log + [Terminated])
       else if s.loop.AwaitFirst? && !Hits(d, s.bps, pc) then s' == t.(loop := SkipFirst)
       else
         var reason := match s.loop
           case AwaitEntry => Entry
           case AwaitStop(r) => r
           case _ => Breakpoint;
         s' == t.(running := true, loop := Polling, log := s.log + [Stopped(reason, at)])
  }

  ghost predicate NextState(d: Debuggee, s: State, s': State) {
    || Fire(d, s, s') || Report(d, s, s') || Resume(s, s') || Finish(d, s, s')
    || SendResume(s, s') || TakeStop(d, s, s')
    || exists c :: Poll(d, s, s', c)
  }

  ghost predicate Run(d: Debuggee, run: seq<State>) {
    && run != [] && run[0] == Start()
    && forall k :: 0 <= k < |run| - 1 ==> NextState(d, run[k], run[k + 1])
  }

  // ---- What the client should see -------------------------------------------------------------------

  /** The first position from `from` on whose mark hits a breakpoint, or the end of the trace. */
  function FirstHit(d: Debuggee, bps: set<BreakKey>, from: nat): (r: nat)
    requires from <= |d.trace|
    ensures from <= r <= |d.trace|
    ensures r < |d.trace| ==> Hits(d, bps, d.trace[r])
    ensures forall k :: from <= k < r ==> !Hits(d, bps, d.trace[k])
    decreases |d.trace| - from
  {
    if from == |d.trace| || Hits(d, bps, d.trace[from]) then from else FirstHit(d, bps, from + 1)
  }

  /** The session as the client understands it: not begun, stopped at a position, or over. */
  datatype Session = Fresh | At(i: nat) | Over

  datatype View = View(session: Session, stopOnEntry: bool, bps: set<BreakKey>, log: seq<Event>)

  function StopAt(d: Debuggee, v: View, reason: Reason, i: nat): View {
    if i < |d.trace| then v.(session := At(i), log := v.log + [Stopped(reason, i)])
    else v.(session := Over, log := v.log + [Terminated])
  }

  /** The answer to each command, with no threads in sight. */
  function Answer(d: Debuggee, v: View, c: Command): View {
    match c
    case Launch(e) => v.(stopOnEntry := e)
    case SetBreakpoints(path, lines) => v.(bps := ReplaceBreakpoints(d, v.bps, path, lines))
    case ConfigurationDone =>
      if v.stopOnEntry then StopAt(d, v, Entry, 0) else StopAt(d, v, Breakpoint, FirstHit(d, v.bps, 0))
    case Continue =>
      if v.session.At? && v.session.i < |d.trace|
      then StopAt(d, v, Breakpoint, FirstHit(d, v.bps, v.session.i + 1)) else v
    case Next => if v.session.At? then StopAt(d, v, Step, v.session.i + 1) else v
    case Query => v
    case Disconnect => v
  }

  function Replay(d: Debuggee, commands: seq<Command>): View {
    if commands == [] then View(Fresh, false, {}, [])
    else Answer(d, Replay(d, commands[..|commands| - 1]), commands[|commands| - 1])
  }

  // ---- The invariant --------------------------------------------------------------------------------

  /** Messages in flight, at most one: none; a stop on its way; or a resume on its way. */
  ghost predicate Quiet(s: State) {
    s.stopped == [] && s.resumes == 0
  }

  /** The program is on its way from position `from` to its next report, or the report is under way. It
      has skipped only marks that hit no breakpoint, and none when it stops at any mark. */
  ghost predicate OnItsWay(d: Debuggee, s: State, from: nat) {
    && from <= |d.trace|
    && match s.phase
       case Running(j) =>
         Quiet(s) && Skipped(d, s, from, j)
       case Reporting(j) =>
         Quiet(s) && j < |d.trace| && Skipped(d, s, from, j) && Exposed(d, s, j)
       case Waiting(j) =>
         || (j < |d.trace| && s.stopped == [(d.trace[j], j)] && s.resumes == 0 && Skipped(d, s, from, j) && Exposed(d, s, j))
         || (j + 1 == from && s.stopped == [] && s.resumes == 1)
       case Finished =>
         s.stopped == [(END, |d.trace|)] && s.resumes == 0 && Skipped(d, s, from, |d.trace|)
  }

  ghost predicate Skipped(d: Debuggee, s: State, from: nat, j: nat) {
    && from <= j <= |d.trace|
    && (s.mode == StepAny ==> j == from)
    && forall k :: from <= k < j ==> !Hits(d, s.bps, d.trace[k])
  }

  /** A reported mark hits a breakpoint unless every mark stops, or it is the first of the program. */
  ghost predicate Exposed(d: Debuggee, s: State, j: nat)
    requires j < |d.trace|
  {
    s.mode == StepAny || Hits(d, s.bps, d.trace[j]) || j == 0
  }

  ghost predicate StoppedAt(d: Debuggee, s: State, i: nat) {
    s.phase == Waiting(i) && i < |d.trace| && Quiet(s)
  }

  /** The state agrees with what the client understands, up to the command being answered. */
  ghost predicate Agrees(s: State, v: View) {
    s.stopOnEntry == v.stopOnEntry && s.bps == v.bps && s.log == v.log
  }

  /** Stops and resumes alternate on the wire, a stop first; it is the program's turn to be resumed when
      the last one was a stop. */
  ghost predicate Alternates(s: State) {
    && (forall k :: 0 <= k < |s.wire| ==> s.wire[k] == if k % 2 == 0 then StopSent else ResumeSent)
    && (|s.wire| % 2 == 1 <==> s.phase.Waiting? && s.resumes == 0)
    && s.resumes <= 1 && (s.resumes > 0 ==> s.phase.Waiting?)
  }

  ghost predicate Inv(d: Debuggee, s: State) {
    Alternates(s) && LoopInv(d, s)
  }

  ghost predicate LoopInv(d: Debuggee, s: State) {
    if s.loop.Polling? then PollingInv(d, s, Replay(d, s.commands))
    else if s.loop.Closed? then ClosedInv(s) && s.log == Replay(d, s.commands).log
    else
      && s.commands != [] && s.configured
      && var before := Replay(d, s.commands[..|s.commands| - 1]);
         Agrees(s, before) && Answering(d, s, before, s.commands[|s.commands| - 1])
  }

  ghost predicate PollingInv(d: Debuggee, s: State, now: View) {
    && Agrees(s, now)
    && match now.session
       case Fresh => !s.configured && !s.running && s.mode == StepAny && OnItsWay(d, s, 0)
       case At(i) => s.configured && s.running && StoppedAt(d, s, i)
       case Over => false
  }

  /** Nobody answers any more: the program runs on until it next has something to report. */
  ghost predicate ClosedInv(s: State) {
    s.resumes == 0 && |s.stopped| <= 1 && (s.phase.Running? || s.phase.Reporting? ==> s.stopped == [])
  }

  /** What the loop is doing to answer a command. */
  ghost predicate Answering(d: Debuggee, s: State, before: View, c: Command) {
    match s.loop
    case AwaitEntry => c == ConfigurationDone && s.stopOnEntry && s.mode == StepAny && OnItsWay(d, s, 0)
    case AwaitFirst =>
      && c == ConfigurationDone && !s.stopOnEntry && s.mode == UntilBreakpoint
      && (OnItsWay(d, s, 0) || (|d.trace| > 0 && !Hits(d, s.bps, d.trace[0]) && OnItsWay(d, s, 1)))
    case SkipFirst =>
      && c == ConfigurationDone && !s.stopOnEntry && s.mode == UntilBreakpoint
      && StoppedAt(d, s, 0) && !Hits(d, s.bps, d.trace[0])
    case Resuming(Breakpoint) =>
      c == Continue && s.mode == UntilBreakpoint && before.session.At? && StoppedAt(d, s, before.session.i)
    case Resuming(Step) =>
      c == Next && s.mode == StepAny && before.session.At? && StoppedAt(d, s, before.session.i)
    case AwaitStop(Breakpoint) =>
      c == Continue && s.mode == UntilBreakpoint && before.session.At? && OnItsWay(d, s, before.session.i + 1)
    case AwaitStop(Step) =>
      c == Next && s.mode == StepAny && before.session.At? && OnItsWay(d, s, before.session.i + 1)
    case _ => false
  }

  lemma StartInv(d: Debuggee)
    ensures Inv(d, Start())
  {
  }

  lemma OnItsWayMoves(d: Debuggee, s: State, s': State, from: nat)
    requires OnItsWay(d, s, from) && (Fire(d, s, s') || Report(d, s, s') || Resume(s, s') || Finish(d, s, s'))
    ensures OnItsWay(d, s', from)
  {
  }

  ghost predicate ProgramStep(d: Debuggee, s: State, s': State) {
    Fire(d, s, s') || Report(d, s, s') || Resume(s, s') || Finish(d, s, s')
  }

  lemma ProgramKeeps(d: Debuggee, s: State, s': State)
    requires ProgramStep(d, s, s')
    ensures s'.loop == s.loop && s'.mode == s.mode && s'.bps == s.bps && s'.commands == s.commands && s'.log == s.log
    ensures s'.stopOnEntry == s.stopOnEntry && s'.configured == s.configured && s'.running == s.running
    ensures Alternates(s) ==> Alternates(s')
    ensures ClosedInv(s) ==> ClosedInv(s')
    ensures forall i :: !StoppedAt(d, s, i)
  {
  }

  lemma ProgramInv(d: Debuggee, s: State, s': State)
    requires Inv(d, s) && ProgramStep(d, s, s')
    ensures Inv(d, s')
  {
    hide OnItsWay, Alternates, ClosedInv, StoppedAt, ProgramStep, Replay, Hits;
    ProgramKeeps(d, s, s');
    forall from: nat | OnItsWay(d, s, from)
      ensures OnItsWay(d, s', from)
    {
      Moves(d, s, s', from);
    }
  }

  lemma Moves(d: Debuggee, s: State, s': State, from: nat)
    requires OnItsWay(d, s, from) && ProgramStep(d, s, s')
    ensures OnItsWay(d, s', from)
  {
    OnItsWayMoves(d, s, s', from);
  }

  // ---- The command loop keeps the invariant ---------------------------------------------------------

  lemma SendInv(d: Debuggee, s: State, s': State)
    requires Inv(d, s) && SendResume(s, s')
    ensures Inv(d, s')
  {
    hide Replay;
  }

  lemma ReplayOn(d: Debuggee, commands: seq<Command>, c: Command)
    ensures Replay(d, commands + [c]) == Answer(d, Replay(d, commands), c)
  {
    assert (commands + [c])[..|commands + [c]| - 1] == commands;
  }

  lemma PollInv(d: Debuggee, s: State, s': State, c: Command)
    requires Inv(d, s) && Poll(d, s, s', c)
    ensures Inv(d, s')
  {
    hide Replay, OnItsWay;
    ReplayOn(d, s.commands, c);
    assert s'.commands == s.commands + [c];
    assert s'.commands[..|s'.commands| - 1] == s.commands;
    var now := Replay(d, s.commands);
    match c
    case SetBreakpoints(_, _) =>
      if now.session.Fresh? {
        BeforeStart(d, s, s');
      }
    case ConfigurationDone => BeforeStart(d, s, s');
    case _ =>
      if now.session.Fresh? {
        BeforeStart(d, s, s');
      }
  }

  /** Until the session begins the program stops at its first mark, whatever is configured meanwhile. */
  lemma BeforeStart(d: Debuggee, s: State, s': State)
    requires OnItsWay(d, s, 0) && s.mode == StepAny
    requires s'.phase == s.phase && s'.stopped == s.stopped && s'.resumes == s.resumes
    ensures OnItsWay(d, s', 0) && ClosedInv(s')
  {
  }

  /** The first report is of the first hit from where the program set out. */
  lemma FirstHitIs(d: Debuggee, bps: set<BreakKey>, from: nat, j: nat)
    requires from <= j <= |d.trace| && (forall k :: from <= k < j ==> !Hits(d, bps, d.trace[k]))
    requires j < |d.trace| ==> Hits(d, bps, d.trace[j])
    ensures FirstHit(d, bps, from) == j
  {
  }

  /** A stop the loop takes is the program's, and tells whether it is over. */
  lemma TakenStop(d: Debuggee, s: State, from: nat)
    requires ValidDebuggee(d) && OnItsWay(d, s, from) && |s.stopped| > 0
    ensures |s.stopped| == 1 && s.resumes == 0
    ensures s.stopped[0].0 == END ==> s.phase == Finished && Skipped(d, s, from, |d.trace|)
    ensures s.stopped[0].0 != END ==>
              && s.phase == Waiting(s.stopped[0].1) && s.stopped[0].1 < |d.trace| && s.stopped[0].0 == d.trace[s.stopped[0].1]
              && Skipped(d, s, from, s.stopped[0].1) && Exposed(d, s, s.stopped[0].1)
  {
    if s.phase.Waiting? && s.phase.i < |d.trace| {
      assert d.trace[s.phase.i] in d.trace;
    }
  }

  /** A stop taken in answer to `Continue`, `Next` or an entry stop is the one the client should see. */
  lemma AnswerInv(d: Debuggee, s: State, s': State, from: nat, before: View, c: Command)
    requires ValidDebuggee(d) && OnItsWay(d, s, from) && TakeStop(d, s, s') && Alternates(s)
    requires s.configured && s.commands != [] && before == Replay(d, s.commands[..|s.commands| - 1])
    requires c == s.commands[|s.commands| - 1] && Agrees(s, before) && Answering(d, s, before, c)
    requires match s.loop
             case AwaitEntry => from == 0
             case AwaitStop(_) => before.session.At? && from == before.session.i + 1
             case _ => false
    ensures Inv(d, s')
  {
    hide Replay, Hits, FirstHit;
    TakenStop(d, s, from);
    ReplayOn(d, s.commands[..|s.commands| - 1], c);
    assert s.commands[..|s.commands| - 1] + [c] == s.commands;
    var at := s.stopped[0].1;
    if s.mode == UntilBreakpoint {
      FirstHitIs(d, s.bps, from, if s.stopped[0].0 == END then |d.trace| else at);
    }
  }

  /** Running from the start: whether the first mark fired before or after the mode flipped, the stop
      that is shown is the first hit of the whole trace. */
  lemma FirstAnswerInv(d: Debuggee, s: State, s': State, from: nat)
    requires ValidDebuggee(d) && Inv(d, s) && s.loop.AwaitFirst? && TakeStop(d, s, s')
    requires from <= 1 && OnItsWay(d, s, from) && (from == 1 ==> |d.trace| > 0 && !Hits(d, s.bps, d.trace[0]))
    ensures Inv(d, s')
  {
    hide Replay, Hits, FirstHit;
    var c := s.commands[|s.commands| - 1];
    TakenStop(d, s, from);
    ReplayOn(d, s.commands[..|s.commands| - 1], c);
    assert s.commands[..|s.commands| - 1] + [c] == s.commands;
    var (pc, at) := s.stopped[0];
    if pc == END {
      FirstHitIs(d, s.bps, 0, |d.trace|);
    } else if Hits(d, s.bps, pc) {
      FirstHitIs(d, s.bps, 0, at);
    }
  }

  lemma TakeInv(d: Debuggee, s: State, s': State)
    requires ValidDebuggee(d) && Inv(d, s) && TakeStop(d, s, s')
    ensures Inv(d, s')
  {
    hide OnItsWay, Replay;
    var before := Replay(d, s.commands[..|s.commands| - 1]);
    var c := s.commands[|s.commands| - 1];
    match s.loop
    case AwaitEntry => AnswerInv(d, s, s', 0, before, c);
    case AwaitFirst => FirstAnswerInv(d, s, s', if OnItsWay(d, s, 0) then 0 else 1);
    case AwaitStop(_) => AnswerInv(d, s, s', before.session.i + 1, before, c);
  }

  lemma StepInv(d: Debuggee, s: State, s': State)
    requires ValidDebuggee(d) && Inv(d, s) && NextState(d, s, s')
    ensures Inv(d, s')
  {
    hide Inv, Fire, Report, Resume, Finish, SendResume, TakeStop, Poll;
    if exists c :: Poll(d, s, s', c) {
      var c :| Poll(d, s, s', c);
      PollInv(d, s, s', c);
    } else if SendResume(s, s') {
      SendInv(d, s, s');
    } else if TakeStop(d, s, s') {
      TakeInv(d, s, s');
    } else {
      ProgramInv(d, s, s');
    }
  }

  lemma {:induction false} RunInv(d: Debuggee, run: seq<State>)
    requires ValidDebuggee(d) && Run(d, run)
    ensures Inv(d, run[|run| - 1])
    decreases run
  {
    hide Inv, NextState;
    if |run| == 1 {
      StartInv(d);
    } else {
      var prefix := run[..|run| - 1];
      assert forall k :: 0 <= k < |prefix| ==> prefix[k] == run[k];
      RunInv(d, prefix);
      assert NextState(d, run[|run| - 2], run[|run| - 1]);
      StepInv(d, run[|run| - 2], run[|run| - 1]);
    }
  }

  // ---- Which breakpoints are set, and how the log grows --------------------------------------------

  /** The lines that the commands leave set in a file: those named last. */
  function LastLines(commands: seq<Command>, path: string): set<int> {
    if commands == [] then {}
    else
      var c := commands[|commands| - 1];
      if c.SetBreakpoints? && c.path == path then c.lines else LastLines(commands[..|commands| - 1], path)
  }

  /** The first mark at the program counter is on a line last set in the file of its module. */
  ghost predicate Breaks(d: Debuggee, commands: seq<Command>, pc: Pc) {
    exists k: nat :: FirstAt(d.marks, pc, k) && d.marks[k].moduleId in d.paths
                && d.marks[k].line in LastLines(commands, d.paths[d.marks[k].moduleId])
  }

  /** The breakpoints that hold are the lines last set in each file that carry a mark. */
  lemma {:induction false} ReplayedBreakpoints(d: Debuggee, commands: seq<Command>, b: BreakKey)
    ensures b in Replay(d, commands).bps <==>
            b.line in LastLines(commands, b.path) && exists m :: m in d.marks && m.line == b.line
  {
    hide Answer, ReplaceBreakpoints;
    if commands != [] {
      var before, c := commands[..|commands| - 1], commands[|commands| - 1];
      ReplayedBreakpoints(d, before, b);
      AnsweredBreakpoints(d, Replay(d, before), c);
      if c.SetBreakpoints? {
        ReplacedBreakpoints(d, Replay(d, before).bps, c.path, c.lines, b);
      }
    }
  }

  lemma AnsweredBreakpoints(d: Debuggee, v: View, c: Command)
    ensures Answer(d, v, c).bps == if c.SetBreakpoints? then ReplaceBreakpoints(d, v.bps, c.path, c.lines) else v.bps
  {
    hide ReplaceBreakpoints, FirstHit;
  }

  lemma ReplacedBreakpoints(d: Debuggee, bps: set<BreakKey>, path: string, lines: set<int>, b: BreakKey)
    ensures b in ReplaceBreakpoints(d, bps, path, lines) <==>
            if b.path == path then b.line in lines && exists m :: m in d.marks && m.line == b.line else b in bps
  {
  }

  lemma ReplayedHits(d: Debuggee, commands: seq<Command>, pc: Pc)
    ensures Hits(d, Replay(d, commands).bps, pc) <==> Breaks(d, commands, pc)
  {
    HitsIs(d, Replay(d, commands).bps, pc);
    forall k: nat | FirstAt(d.marks, pc, k) && d.marks[k].moduleId in d.paths
      ensures BreakKey(d.paths[d.marks[k].moduleId], d.marks[k].line) in Replay(d, commands).bps <==>
              d.marks[k].line in LastLines(commands, d.paths[d.marks[k].moduleId])
    {
      ReplayedBreakpoints(d, commands, BreakKey(d.paths[d.marks[k].moduleId], d.marks[k].line));
      assert d.marks[k] in d.marks;
    }
  }

  /** Setting a file's breakpoints decides for every program counter of that file and changes nothing elsewhere. */
  lemma ReplacedHits(d: Debuggee, bps: set<BreakKey>, path: string, lines: set<int>, pc: Pc, k: nat)
    requires FirstAt(d.marks, pc, k)
    ensures var m := d.marks[k];
            Hits(d, ReplaceBreakpoints(d, bps, path, lines), pc) <==>
            m.moduleId in d.paths && if d.paths[m.moduleId] == path then m.line in lines else Hits(d, bps, pc)
  {
    HitsIs(d, bps, pc);
    HitsIs(d, ReplaceBreakpoints(d, bps, path, lines), pc);
    assert forall j: nat :: FirstAt(d.marks, pc, j) ==> j == k;
    assert d.marks[k] in d.marks;
  }

  /** Whether the last launch before the session began asked to stop on entry. */
  function AsksEntry(commands: seq<Command>): bool {
    if commands == [] then false
    else
      var c, before := commands[|commands| - 1], commands[..|commands| - 1];
      if c.Launch? && ConfigurationDone !in before then c.stopOnEntry else AsksEntry(before)
  }

  /** An entry stop comes first, at the first mark, a step leads to the very next mark and a breakpoint to a later
      one; nothing follows the end. */
  ghost predicate Orderly(log: seq<Event>) {
    forall k :: 0 <= k < |log| ==> InPlace(log, k)
  }

  ghost predicate InPlace(log: seq<Event>, k: nat)
    requires k < |log|
  {
    && (k > 0 ==> log[k - 1].Stopped?)
    && match log[k]
       case Terminated => true
       case Stopped(Entry, at) => k == 0 && at == 0
       case Stopped(Step, at) => k > 0 && at == log[k - 1].at + 1
       case Stopped(Breakpoint, at) => k > 0 ==> log[k - 1].at < at
  }

  /** At most one session was begun. */
  ghost predicate OneSession(commands: seq<Command>) {
    forall j, k :: 0 <= j < k < |commands| && commands[j] == ConfigurationDone ==> commands[k] != ConfigurationDone
  }

  /** What the log of a view and its session say about each other. */
  ghost predicate Logged(d: Debuggee, v: View, commands: seq<Command>) {
    && Orderly(v.log)
    && (v.log != [] && v.log[0].Stopped? ==> (v.log[0].reason == Entry <==> AsksEntry(commands)))
    && match v.session
       case Fresh => v.log == [] && ConfigurationDone !in commands && v.stopOnEntry == AsksEntry(commands)
       case At(i) =>
         && v.log != [] && v.log[|v.log| - 1].Stopped? && v.log[|v.log| - 1].at == i < |d.trace|
         && ConfigurationDone in commands
       case Over => v.log != [] && v.log[|v.log| - 1] == Terminated && ConfigurationDone in commands
  }

  lemma StopLogged(d: Debuggee, v: View, commands: seq<Command>, reason: Reason, i: nat)
    requires Orderly(v.log) && ConfigurationDone in commands
    requires v.log != [] ==> v.log[|v.log| - 1].Stopped? && v.log[0].Stopped? && (v.log[0].reason == Entry <==> AsksEntry(commands))
    requires match reason
             case Entry => v.log == [] && i == 0
             case Step => v.log != [] && i == v.log[|v.log| - 1].at + 1
             case Breakpoint => v.log != [] ==> v.log[|v.log| - 1].at < i
    requires v.log == [] ==> (reason == Entry <==> AsksEntry(commands))
    ensures Logged(d, StopAt(d, v, reason, i), commands)
  {
    hide AsksEntry;
    var log := StopAt(d, v, reason, i).log;
    forall k | 0 <= k < |v.log|
      ensures InPlace(log, k)
    {
      assert InPlace(v.log, k) && log[k] == v.log[k] && (k > 0 ==> log[k - 1] == v.log[k - 1]);
    }
  }

  lemma AnswerLogged(d: Debuggee, v: View, before: seq<Command>, c: Command)
    requires Logged(d, v, before) && (c == ConfigurationDone ==> ConfigurationDone !in before)
    ensures Logged(d, Answer(d, v, c), before + [c])
  {
    hide FirstHit, StopAt, Orderly;
    var after := before + [c];
    assert after[..|after| - 1] == before;
    assert ConfigurationDone in before ==> AsksEntry(after) == AsksEntry(before);
    if v.session.At? {
      assert v.log[0].Stopped? by { FirstStopped(v.log); }
    }
    match c
    case ConfigurationDone =>
      assert c in after;
      if v.stopOnEntry {
        StopLogged(d, v, after, Entry, 0);
      } else {
        StopLogged(d, v, after, Breakpoint, FirstHit(d, v.bps, 0));
      }
    case Continue =>
      if v.session.At? && v.session.i < |d.trace| {
        StopLogged(d, v, after, Breakpoint, FirstHit(d, v.bps, v.session.i + 1));
      }
    case Next =>
      if v.session.At? {
        StopLogged(d, v, after, Step, v.session.i + 1);
      }
    case _ =>
  }

  lemma FirstStopped(log: seq<Event>)
    requires Orderly(log) && log != [] && log[|log| - 1].Stopped?
    ensures log[0].Stopped?
  {
    assert |log| > 1 ==> InPlace(log, 1);
  }

  lemma {:induction false} ReplayedLog(d: Debuggee, commands: seq<Command>)
    requires OneSession(commands)
    ensures Logged(d, Replay(d, commands), commands)
  {
    hide Logged, Answer;
    if commands == [] {
      NothingLogged(d);
    } else {
      var before, c := commands[..|commands| - 1], commands[|commands| - 1];
      assert before + [c] == commands;
      ReplayedLog(d, before);
      AnswerLogged(d, Replay(d, before), before, c);
    }
  }

  lemma NothingLogged(d: Debuggee)
    ensures Logged(d, View(Fresh, false, {}, []), [])
  {
  }

  /** The first position from `from` on at which a line last set is reached, or the end. */
  ghost predicate NextBreak(d: Debuggee, commands: seq<Command>, from: nat, j: nat) {
    && from <= j <= |d.trace| && (forall k :: from <= k < j ==> !Breaks(d, commands, d.trace[k]))
    && (j < |d.trace| ==> Breaks(d, commands, d.trace[j]))
  }

  /** What one more command shows, in terms of what was shown before: the session begins with an entry stop or runs to
      the next line that is set; `Continue` runs on to the next one and a step goes to the next mark, both to the end
      if there is none; when nothing is stopped, and for any other command, nothing is shown. */
  ghost predicate Shows(d: Debuggee, before: seq<Command>, c: Command, was: seq<Event>, now: seq<Event>) {
    var stopped := was != [] && was[|was| - 1].Stopped?;
    match c
    case ConfigurationDone =>
      if AsksEntry(before) then now == [if d.trace == [] then Terminated else Stopped(Entry, 0)]
      else
        exists j: nat ::
          NextBreak(d, before, 0, j) && now == [if j == |d.trace| then Terminated else Stopped(Breakpoint, j)]
    case Continue =>
      if stopped then
        exists j: nat ::
          && NextBreak(d, before, was[|was| - 1].at + 1, j)
          && now == was + [if j == |d.trace| then Terminated else Stopped(Breakpoint, j)]
      else now == was
    case Next =>
      if stopped then
        var j := was[|was| - 1].at + 1;
        now == was + [if j == |d.trace| then Terminated else Stopped(Step, j)]
      else now == was
    case _ => now == was
  }

  lemma CommandShows(d: Debuggee, before: seq<Command>, c: Command)
    requires OneSession(before + [c])
    ensures Shows(d, before, c, Replay(d, before).log, Replay(d, before + [c]).log)
  {
    hide Replay, FirstHit, Hits, Breaks, AsksEntry, Orderly;
    assert forall k :: 0 <= k < |before| ==> before[k] == (before + [c])[k];
    assert (before + [c])[|before|] == c;
    ReplayOn(d, before, c);
    ReplayedLog(d, before);
    forall pc
      ensures Hits(d, Replay(d, before).bps, pc) <==> Breaks(d, before, pc)
    {
      ReplayedHits(d, before, pc);
    }
    var v := Replay(d, before);
    match c
    case ConfigurationDone =>
      assert ConfigurationDone !in before;
      assert v.log == [] && v.stopOnEntry == AsksEntry(before);
      if !v.stopOnEntry {
        assert NextBreak(d, before, 0, FirstHit(d, v.bps, 0));
      }
    case Continue =>
      if v.session.At? {
        assert NextBreak(d, before, v.session.i + 1, FirstHit(d, v.bps, v.session.i + 1));
      }
    case _ =>
  }

  /** The breakpoints under the lock are those of the accepted commands, and the session began when they say. */
  ghost predicate Recorded(d: Debuggee, s: State) {
    && s.bps == Replay(d, s.commands).bps && OneSession(s.commands)
    && (s.configured <==> ConfigurationDone in s.commands)
  }

  lemma StepRecorded(d: Debuggee, s: State, s': State)
    requires Recorded(d, s) && NextState(d, s, s')
    ensures Recorded(d, s')
  {
    hide Replay, FirstHit, Hits, Poll;
    if c :| Poll(d, s, s', c) {
      PollRecorded(d, s, s', c);
    }
  }

  lemma PollRecorded(d: Debuggee, s: State, s': State, c: Command)
    requires Recorded(d, s) && Poll(d, s, s', c)
    ensures Recorded(d, s')
  {
    hide Replay, FirstHit;
    ReplayOn(d, s.commands, c);
    assert s'.commands == s.commands + [c];
    assert s'.configured <==> s.configured || c == ConfigurationDone;
  }

  lemma StartRecorded(d: Debuggee)
    ensures Recorded(d, Start())
  {
  }

  lemma {:induction false} RunRecorded(d: Debuggee, run: seq<State>)
    requires Run(d, run)
    ensures Recorded(d, run[|run| - 1])
    decreases run
  {
    hide Recorded, NextState;
    if |run| == 1 {
      StartRecorded(d);
    } else {
      var prefix := run[..|run| - 1];
      assert forall k :: 0 <= k < |prefix| ==> prefix[k] == run[k];
      RunRecorded(d, prefix);
      assert NextState(d, run[|run| - 2], run[|run| - 1]);
      StepRecorded(d, run[|run| - 2], run[|run| - 1]);
    }
  }

  // ---- What every run keeps -------------------------------------------------------------------------

  /** In every interleaving: the channels together never hold more than one message, stops and resumes
      alternate, and whenever the loop is back to polling (or over) the client has seen exactly what the
      commands call for. So a stop shown after `Continue` is the first later mark with a breakpoint, one
      shown after a step is the very next mark, and no race can be seen: two runs that accept the same
      commands show the same. What hits a breakpoint is, at every moment, what the lines last set in each file say. */
  lemma EveryRun(d: Debuggee, run: seq<State>)
    requires ValidDebuggee(d) && Run(d, run)
    ensures var s := run[|run| - 1];
            && |s.stopped| + s.resumes <= 1
            && (forall k :: 0 <= k < |s.wire| ==> s.wire[k] == if k % 2 == 0 then StopSent else ResumeSent)
            && (s.loop.Polling? || s.loop.Closed? ==> s.log == Replay(d, s.commands).log && Orderly(s.log))
            && (s.log != [] && s.log[0].Stopped? && (s.loop.Polling? || s.loop.Closed?)
                ==> (s.log[0].reason == Entry <==> AsksEntry(s.commands)))
            && forall pc :: Hits(d, s.bps, pc) <==> Breaks(d, s.commands, pc)
  {
    hide Replay, Hits, Skipped, Exposed, Orderly, AsksEntry, Breaks;
    RunInv(d, run);
    RunRecorded(d, run);
    var commands := run[|run| - 1].commands;
    ReplayedLog(d, commands);
    forall pc
      ensures Hits(d, run[|run| - 1].bps, pc) <==> Breaks(d, commands, pc)
    {
      ReplayedHits(d, commands, pc);
    }
  }

  lemma SameCommandsSameView(d: Debuggee, run: seq<State>, run': seq<State>)
    requires ValidDebuggee(d) && Run(d, run) && Run(d, run')
    requires run[|run| - 1].commands == run'[|run'| - 1].commands
    requires run[|run| - 1].loop.Polling? || run[|run| - 1].loop.Closed?
    requires run'[|run'| - 1].loop.Polling? || run'[|run'| - 1].loop.Closed?
    ensures run[|run| - 1].log == run'[|run'| - 1].log
  {
    hide Run, Replay;
    EveryRun(d, run);
    EveryRun(d, run');
  }

  ghost predicate CanMove(d: Debuggee, s: State) {
    exists s' :: NextState(d, s, s')
  }

  /** A loop that has a command to answer never hangs: one of the two threads can move. */
  lemma NeverStuck(d: Debuggee, run: seq<State>)
    requires ValidDebuggee(d) && Run(d, run)
    requires var s := run[|run| - 1]; !s.loop.Polling? && !s.loop.Closed?
    ensures CanMove(d, run[|run| - 1])
  {
    hide Replay, Hits;
    RunInv(d, run);
    var s := run[|run| - 1];
    if s.loop.Resuming? || s.loop.SkipFirst? {
      var s' := s.(resumes := s.resumes + 1, wire := s.wire + [ResumeSent],
                   loop := if s.loop.Resuming? then AwaitStop(s.loop.reason) else AwaitFirst);
      assert SendResume(s, s') && NextState(d, s, s');
    } else {
      var from :| OnItsWay(d, s, from);
      WayMoves(d, s, from);
    }
  }

  lemma WayMoves(d: Debuggee, s: State, from: nat)
    requires OnItsWay(d, s, from) && (s.loop.AwaitEntry? || s.loop.AwaitFirst? || s.loop.AwaitStop?)
    ensures CanMove(d, s)
  {
    hide Hits;
    if |s.stopped| > 0 {
      var (pc, at) := s.stopped[0];
      var t := s.(stopped := s.stopped[1..]);
      var reason := match s.loop case AwaitEntry => Entry case AwaitStop(r) => r case _ => Breakpoint;
      var s' := if pc == END then t.(running := false, loop := Closed, log := s.log + [Terminated])
                else if s.loop.AwaitFirst? && !Hits(d, s.bps, pc) then t.(loop := SkipFirst)
                else t.(running := true, loop := Polling, log := s.log + [Stopped(reason, at)]);
      assert TakeStop(d, s, s') && NextState(d, s, s');
    } else {
      match s.phase
      case Running(i) =>
        if i < |d.trace| {
          var expose := s.mode == StepAny || Hits(d, s.bps, d.trace[i]);
          var s' := s.(phase := if expose then Reporting(i) else Running(i + 1));
          assert Fire(d, s, s') && NextState(d, s, s');
        } else {
          var s' := s.(phase := Finished, stopped := s.stopped + [(END, |d.trace|)]);
          assert i == |d.trace|;
          assert Finish(d, s, s') && NextState(d, s, s');
        }
      case Reporting(i) =>
        var s' := s.(phase := Waiting(i), stopped := s.stopped + [(d.trace[i], i)], wire := s.wire + [StopSent]);
        assert Report(d, s, s') && NextState(d, s, s');
      case Waiting(i) =>
        var s' := s.(phase := Running(i + 1), resumes := s.resumes - 1);
        assert Resume(s, s') && NextState(d, s, s');
    }
  }
}
