/** The scheduler's goroutines and manual requests (internal/agent/scheduler.go).

    Task goroutines, callers of Trigger and cancellation interleave in any order. One action is
    one select, critical section, send or receive of the code.

    A goroutine is before its first select, in its select, somewhere in execute, or returned; a
    manual run replies on a channel of its own with room for one. Jitter, the clock and how a
    task's function ends are choices of the run, so what is proved holds for all of them. */
module Scheduler {
  import opened Wrappers

  datatype Task = Task(
    name: string, interval: int, initialDelay: int, runOnStart: bool, manualOnly: bool)

  /** What an execution is for. */
  datatype Cause = Scheduled | Manual(request: nat)

  /** Where a task's goroutine is: before its first select, in its select, about to execute, in the
      task's function, about to return from execute, or returned. */
  datatype Pc =
    | Spawned
    | Idle
    | Entering(cause: Cause)
    | Working(cause: Cause)
    | Leaving(cause: Cause, failed: bool, ran: bool)
    | Exited

  /** The deadline is None for a timer that has fired and was not reset, and without a timer. */
  datatype Routine = Routine(task: Task, pc: Pc, deadline: Option<int>)

  datatype TaskState = TaskState(running: bool, runs: nat, failures: nat, skips: nat, manual: Option<nat>)

  /** One call of Trigger: sending its reply channel, or it timed out, or it waits, or it returned. */
  datatype Phase = Sending | Refused | Waiting | Returned

  /** The reply channel has room for one; replies counts the sends. */
  datatype Request = Request(task: string, phase: Phase, buffer: Option<bool>, replies: nat)

  datatype State = State(
    tasks: seq<Task>,
    states: map<string, TaskState>,
    routines: seq<Routine>,
    requests: map<nat, Request>,
    starts: nat,
    cancelled: bool,
    clock: int)

  const UNTOUCHED := TaskState(false, 0, 0, 0, None)

  function Initial(clock: int): State {
    State([], map[], [], map[], 0, false, clock)
  }

  datatype Action =
    | Add(task: Task)
    | Start
    | Cancel
    | Begin(g: nat, now: int, jitter: nat)
    | SeeDone(g: nat)
    | Fire(g: nat, now: int)
    | Receive(g: nat)
    | Enter(g: nat)
    | Record(g: nat, fails: bool)
    | Return(g: nat, now: int, jitter: nat, late: bool)
    | Call(request: nat, name: string)
    | Send(request: nat)
    | Busy(request: nat)
    | Read(request: nat)
    | Abandon(request: nat)

  // ----- Steps ----------------------------------------------------------------------------------

  /** A duplicate name replaces the earlier task in its place. */
  function WithTask(tasks: seq<Task>, task: Task): seq<Task> {
    if tasks == [] then [task]
    else if tasks[0].name == task.name then [task] + tasks[1..]
    else [tasks[0]] + WithTask(tasks[1..], task)
  }

  function FirstDelay(task: Task, jitter: nat): int {
    task.initialDelay + jitter + if !task.runOnStart && task.interval > 0 then task.interval else 0
  }

  function FirstDeadline(task: Task, now: int, jitter: nat): Option<int> {
    if task.manualOnly then None else Some(now + FirstDelay(task, jitter))
  }

  predicate At(s: State, g: nat, pc: Pc) {
    g < |s.routines| && s.routines[g].pc == pc
  }

  predicate Pends(s: State, name: string, request: nat) {
    name in s.states && s.states[name].manual == Some(request)
  }

  predicate Enabled(s: State, a: Action) {
    match a
    case Add(task) => task.name != ""
    case Start => true
    case Cancel => true
    case Begin(g, now, _) => At(s, g, Spawned) && s.clock <= now
    case SeeDone(g) => At(s, g, Idle) && s.cancelled
    case Fire(g, now) => At(s, g, Idle) && s.routines[g].deadline.Some? && s.routines[g].deadline.value <= now
        && s.clock <= now
    case Receive(g) => At(s, g, Idle) && s.routines[g].task.name in s.states
        && s.states[s.routines[g].task.name].manual.Some?
    case Enter(g) => g < |s.routines| && s.routines[g].pc.Entering? && s.routines[g].task.name in s.states
    case Record(g, _) => g < |s.routines| && s.routines[g].pc.Working? && s.routines[g].task.name in s.states
    case Return(g, now, _, _) =>
      && g < |s.routines| && s.routines[g].pc.Leaving? && s.clock <= now && s.routines[g].task.name in s.states
      && (s.routines[g].pc.cause.Manual? ==> HasRoom(s, s.routines[g].pc.cause.request))
    case Call(q, name) => q !in s.requests && name in s.states
    case Send(q) => q in s.requests && s.requests[q].phase == Sending && s.requests[q].task in s.states
                    && s.states[s.requests[q].task].manual == None
    case Busy(q) => q in s.requests && s.requests[q].phase == Sending
    case Read(q) => q in s.requests && s.requests[q].phase == Waiting && s.requests[q].buffer.Some?
    case Abandon(q) => q in s.requests && (s.requests[q].phase == Sending || s.requests[q].phase == Waiting)
  }

  /** A send on the reply channel does not block. */
  predicate HasRoom(s: State, request: nat) {
    request in s.requests && s.requests[request].buffer == None
  }

  function Moved(s: State, g: nat, pc: Pc): State
    requires g < |s.routines|
  {
    s.(routines := s.routines[g := s.routines[g].(pc := pc)])
  }

  function WithStat(s: State, name: string, stat: TaskState): State {
    s.(states := s.states[name := stat])
  }

  function Phased(s: State, q: nat, phase: Phase): State
    requires q in s.requests
  {
    s.(requests := s.requests[q := s.requests[q].(phase := phase)])
  }

  /** execute's first critical section: a task that is already running is skipped, with an error. */
  function Entered(s: State, g: nat): State
    requires Enabled(s, Enter(g))
  {
    var r := s.routines[g];
    var stat := s.states[r.task.name];
    if stat.running
    then Moved(WithStat(s, r.task.name, stat.(skips := stat.skips + 1)), g, Leaving(r.pc.cause, true, false))
    else Moved(WithStat(s, r.task.name, stat.(running := true)), g, Working(r.pc.cause))
  }

  function Recorded(s: State, g: nat, fails: bool): State
    requires Enabled(s, Record(g, fails))
  {
    var r := s.routines[g];
    var stat := s.states[r.task.name];
    var failures := stat.failures + if fails then 1 else 0;
    Moved(WithStat(s, r.task.name, stat.(running := false, runs := stat.runs + 1, failures := failures)),
          g, Leaving(r.pc.cause, fails, true))
  }

  function Replied(request: Request, failed: bool): Request {
    request.(buffer := Some(failed), replies := request.replies + 1)
  }

  /** The end of one round: a manual run replies, a scheduled one resets the timer or, for a task
      without an interval, ends the goroutine. Late is a run longer than the interval. */
  function Ended(s: State, g: nat, now: int, jitter: nat, late: bool): State
    requires Enabled(s, Return(g, now, jitter, late))
  {
    var r := s.routines[g];
    var t := s.(clock := now);
    match r.pc.cause
    case Manual(q) =>
      var request := s.requests[q];
      Moved(t.(requests := s.requests[q := Replied(request, r.pc.failed)]), g, Idle)
    case Scheduled =>
      if r.task.interval <= 0 then Moved(t, g, Exited)
      else
        var stat := s.states[r.task.name];
        var u := WithStat(t, r.task.name, stat.(skips := stat.skips + if late && r.pc.ran then 1 else 0));
        u.(routines := s.routines[g := Routine(r.task, Idle, Some(now + r.task.interval + jitter))])
  }

  function Next(s: State, a: Action): State
    requires Enabled(s, a)
  {
    match a
    case Add(task) =>
      if s.starts > 0 then s
      else s.(tasks := WithTask(s.tasks, task),
              states := if task.name in s.states then s.states else s.states[task.name := UNTOUCHED])
    case Start =>
      var spawned := seq(|s.tasks|, i requires 0 <= i < |s.tasks| => Routine(s.tasks[i], Spawned, None));
      s.(starts := s.starts + 1, routines := s.routines + spawned)
    case Cancel => s.(cancelled := true)
    case Begin(g, now, jitter) =>
      var task := s.routines[g].task;
      s.(clock := now,
         routines := s.routines[g := Routine(task, Idle, FirstDeadline(task, now, jitter))])
    case SeeDone(g) => Moved(s, g, Exited)
    case Fire(g, now) =>
        s.(clock := now, routines := s.routines[g := Routine(s.routines[g].task, Entering(Scheduled), None)])
    case Receive(g) =>
      var name := s.routines[g].task.name;
      Moved(WithStat(s, name, s.states[name].(manual := None)), g, Entering(Manual(s.states[name].manual.value)))
    case Enter(g) => Entered(s, g)
    case Record(g, fails) => Recorded(s, g, fails)
    case Return(g, now, jitter, late) => Ended(s, g, now, jitter, late)
    case Call(q, name) => s.(requests := s.requests[q := Request(name, Sending, None, 0)])
    case Send(q) =>
      var name := s.requests[q].task;
      Phased(WithStat(s, name, s.states[name].(manual := Some(q))), q, Waiting)
    case Busy(q) => Phased(s, q, Refused)
    case Read(q) => s.(requests := s.requests[q := s.requests[q].(phase := Returned, buffer := None)])
    case Abandon(q) => Phased(s, q, if s.requests[q].phase == Sending then Refused else Returned)
  }

  // ----- Runs -------------------------------------------------------------------------------------

  ghost predicate IsRun(clock: int, run: seq<Action>)
    decreases |run|, 0
  {
    run == [] || (IsRun(clock, run[..|run| - 1]) && Enabled(Reach(clock, run[..|run| - 1]), run[|run| - 1]))
  }

  ghost function Reach(clock: int, run: seq<Action>): State
    requires IsRun(clock, run)
    decreases |run|, 1
  {
    if run == [] then Initial(clock) else Next(Reach(clock, run[..|run| - 1]), run[|run| - 1])
  }

  // ----- Executions ------------------------------------------------------------------------------

  /** In execute. */
  predicate Executes(pc: Pc) {
    pc.Entering? || pc.Working? || pc.Leaving?
  }

  ghost predicate NamesOnce(tasks: seq<Task>) {
    forall i, j :: 0 <= i < j < |tasks| ==> tasks[i].name != tasks[j].name
  }

  /** Every task has a state; while started at most once it has at most one goroutine, and it is
      marked running exactly while that goroutine is in the task's function. */
  ghost predicate Serial(s: State) {
    && NamesOnce(s.tasks)
    && (forall i :: 0 <= i < |s.tasks| ==> s.tasks[i].name in s.states)
    && (forall g :: 0 <= g < |s.routines| ==> s.routines[g].task.name in s.states)
    && (s.starts == 0 ==> s.routines == [])
    && (s.starts <= 1 ==> Exclusive(s))
  }

  ghost predicate Exclusive(s: State) {
    && (forall g, h :: 0 <= g < h < |s.routines| ==> s.routines[g].task.name != s.routines[h].task.name)
    && (forall g :: 0 <= g < |s.routines| ==>
          var n := s.routines[g].task.name;
          n in s.states && s.states[n].running == s.routines[g].pc.Working?)
    && (forall n :: n in s.states && s.states[n].running ==>
        exists g :: 0 <= g < |s.routines| && s.routines[g].task.name == n)
  }

  /** A name of the new task or of one there before. */
  ghost predicate Named(tasks: seq<Task>, task: Task, name: string) {
    name == task.name || exists j :: 0 <= j < |tasks| && tasks[j].name == name
  }

  lemma {:induction false} WithTaskNames(tasks: seq<Task>, task: Task)
    requires NamesOnce(tasks)
    ensures NamesOnce(WithTask(tasks, task))
    ensures forall i :: 0 <= i < |WithTask(tasks, task)| ==> Named(tasks, task, WithTask(tasks, task)[i].name)
  {
    if tasks != [] && tasks[0].name != task.name {
      var rest := tasks[1..];
      WithTaskNames(rest, task);
      forall name | Named(rest, task, name) ensures Named(tasks, task, name) {
        if name != task.name {
          var j :| 0 <= j < |rest| && rest[j].name == name;
          assert tasks[j + 1].name == name;
        }
      }
    }
  }

  /** A task takes the place of the first one of its name, or comes last; the others stay where they are. */
  lemma {:induction false} WithTaskReplaces(tasks: seq<Task>, task: Task, j: nat)
    requires j <= |tasks| && forall i :: 0 <= i < j ==> tasks[i].name != task.name
    requires j < |tasks| ==> tasks[j].name == task.name
    ensures WithTask(tasks, task) == if j < |tasks| then tasks[j := task] else tasks + [task]
    decreases j
  {
    if j > 0 {
      var rest := tasks[1..];
      WithTaskReplaces(rest, task, j - 1);
      if j < |tasks| {
        assert tasks[j := task] == [tasks[0]] + rest[j - 1 := task];
      } else {
        assert tasks + [task] == [tasks[0]] + (rest + [task]);
      }
    }
  }

  /** Steps that start no goroutine and change running flags only where Exclusive wants them. */
  ghost predicate KeepsShape(s: State, t: State) {
    && t.tasks == s.tasks && t.starts == s.starts && |t.routines| == |s.routines|
    && t.states.Keys == s.states.Keys
    && forall g :: 0 <= g < |s.routines| ==> t.routines[g].task == s.routines[g].task
  }

  lemma ShapeKeepsSerial(s: State, t: State, g: nat)
    requires Serial(s) && KeepsShape(s, t)
    requires forall h :: 0 <= h < |s.routines| && h != g ==> t.routines[h].pc.Working? == s.routines[h].pc.Working?
    requires forall n :: n in s.states && (g >= |s.routines| || n != s.routines[g].task.name) ==>
        t.states[n].running == s.states[n].running
    requires g < |s.routines| && s.starts <= 1 ==>
        t.states[s.routines[g].task.name].running == t.routines[g].pc.Working?
    ensures Serial(t)
  {
  }

  /** The goroutine that an action moves, if any. */
  function Subject(s: State, a: Action): nat {
    if a.Begin? || a.SeeDone? || a.Fire? || a.Receive? || a.Enter? || a.Record? || a.Return? then a.g else |s.routines|
  }

  lemma MoveKeepsSerial(s: State, a: Action)
    requires Serial(s) && Enabled(s, a) && !a.Add? && !a.Start?
    ensures Serial(Next(s, a))
  {
    hide Serial, Enabled, Next;
    var g := Subject(s, a);
    MoveKeepsShape(s, a);
    SubjectAloneIsMarked(s, a);
    ShapeKeepsSerial(s, Next(s, a), g);
  }

  lemma MoveKeepsShape(s: State, a: Action)
    requires Serial(s) && Enabled(s, a) && !a.Add? && !a.Start?
    ensures KeepsShape(s, Next(s, a))
    ensures var g := Subject(s, a);
            forall h :: 0 <= h < |s.routines| && h != g ==>
              Next(s, a).routines[h].pc.Working? == s.routines[h].pc.Working?
  {
    hide Serial;
  }

  lemma SubjectAloneIsMarked(s: State, a: Action)
    requires Serial(s) && Enabled(s, a) && !a.Add? && !a.Start?
    ensures var t, g := Next(s, a), Subject(s, a);
            && (forall n :: n in s.states && (g >= |s.routines| || n != s.routines[g].task.name) ==>
                  n in t.states && t.states[n].running == s.states[n].running)
            && (g < |s.routines| && s.starts <= 1 ==>
                  && |t.routines| == |s.routines| && s.routines[g].task.name in t.states
                  && t.states[s.routines[g].task.name].running == t.routines[g].pc.Working?)
  {
  }

  lemma AddKeepsSerial(s: State, task: Task)
    requires Serial(s) && s.starts == 0 && task.name != ""
    ensures Serial(Next(s, Add(task)))
  {
    WithTaskNames(s.tasks, task);
  }

  lemma StartKeepsSerial(s: State)
    requires Serial(s)
    ensures Serial(Next(s, Start))
  {
  }

  lemma StepKeepsSerial(s: State, a: Action)
    requires Serial(s) && Enabled(s, a)
    ensures Serial(Next(s, a))
  {
    hide Serial;
    if a.Add? {
      if s.starts == 0 {
        AddKeepsSerial(s, a.task);
      }
    } else if a.Start? {
      StartKeepsSerial(s);
    } else {
      MoveKeepsSerial(s, a);
    }
  }

  lemma {:induction false} RunIsSerial(clock: int, run: seq<Action>)
    requires IsRun(clock, run)
    ensures Serial(Reach(clock, run))
  {
    hide Next, Enabled;
    if run != [] {
      RunIsSerial(clock, run[..|run| - 1]);
      StepKeepsSerial(Reach(clock, run[..|run| - 1]), run[|run| - 1]);
    }
  }

  /** A scheduler started once never has two executions of one task in flight. */
  lemma OneExecutionPerTask(clock: int, run: seq<Action>, g: nat, h: nat)
    requires IsRun(clock, run) && Reach(clock, run).starts <= 1
    requires g < |Reach(clock, run).routines| && h < |Reach(clock, run).routines|
    requires Executes(Reach(clock, run).routines[g].pc) && Executes(Reach(clock, run).routines[h].pc)
    requires Reach(clock, run).routines[g].task.name == Reach(clock, run).routines[h].task.name
    ensures g == h
  {
    hide Reach;
    RunIsSerial(clock, run);
  }

  /** Some goroutine is about to find its task already running. */
  ghost predicate Overlaps(s: State, g: nat) {
    && g < |s.routines| && s.routines[g].pc.Entering? && s.routines[g].task.name in s.states
    && s.states[s.routines[g].task.name].running
  }

  /** So execute never takes its already-running branch. */
  lemma NeverAlreadyRunning(clock: int, run: seq<Action>, g: nat)
    requires IsRun(clock, run) && Reach(clock, run).starts <= 1
    ensures !Overlaps(Reach(clock, run), g)
  {
    hide Reach;
    RunIsSerial(clock, run);
  }

  // ----- Replies -----------------------------------------------------------------------------------

  /** Goroutine g has taken the request and not replied yet. */
  predicate Holds(s: State, g: nat, q: nat) {
    g < |s.routines| && Executes(s.routines[g].pc) && s.routines[g].pc.cause == Manual(q)
  }

  predicate Unanswered(s: State, q: nat) {
    q in s.requests && s.requests[q].replies == 0 && s.requests[q].buffer == None
  }

  predicate WasSent(s: State, q: nat) {
    q in s.requests && (s.requests[q].phase == Waiting || s.requests[q].phase == Returned)
  }

  /** A request that was sent is in one place: its task's channel, one goroutine's hand, or replied
      to, once. */
  ghost predicate Delivered(s: State) {
    && (forall g, q :: Holds(s, g, q) ==> Unanswered(s, q) && WasSent(s, q))
    && (forall g, h, q :: Holds(s, g, q) && Holds(s, h, q) ==> g == h)
    && (forall n, q :: Pends(s, n, q) ==> Unanswered(s, q) && WasSent(s, q) && s.requests[q].task == n)
    && (forall g, n, q :: Holds(s, g, q) ==> !Pends(s, n, q))
    && (forall q :: q in s.requests && !WasSent(s, q) ==> Unanswered(s, q))
    && (forall q :: q in s.requests ==>
        s.requests[q].replies <= 1 && (s.requests[q].replies == 0 ==> s.requests[q].buffer == None))
    && (forall q :: WasSent(s, q) ==>
          s.requests[q].replies == 1 || Pends(s, s.requests[q].task, q) || exists g :: Holds(s, g, q))
  }

  /** Steps that change no request, no channel and nobody's request in hand. */
  lemma QuietKeepsDelivered(s: State, t: State)
    requires Delivered(s) && t.requests == s.requests
    requires forall n, q :: Pends(t, n, q) <==> Pends(s, n, q)
    requires forall g, q :: Holds(t, g, q) <==> Holds(s, g, q)
    ensures Delivered(t)
  {
    forall q | WasSent(t, q)
      ensures t.requests[q].replies == 1 || Pends(t, t.requests[q].task, q) || exists g :: Holds(t, g, q)
    {
      assert WasSent(s, q);
      if g :| Holds(s, g, q) {
        assert Holds(t, g, q);
      }
    }
  }

  lemma ReceiveKeepsDelivered(s: State, g: nat)
    requires Delivered(s) && Enabled(s, Receive(g))
    ensures Delivered(Next(s, Receive(g)))
  {
    var t := Next(s, Receive(g));
    var name := s.routines[g].task.name;
    var p := s.states[name].manual.value;
    assert Pends(s, name, p);
    assert Holds(t, g, p);
    assert forall h, q :: Holds(t, h, q) <==> Holds(s, h, q) || (h == g && q == p);
    assert forall n, q :: Pends(t, n, q) <==> Pends(s, n, q) && n != name;
    forall q | WasSent(t, q)
      ensures t.requests[q].replies == 1 || Pends(t, t.requests[q].task, q) || exists h :: Holds(t, h, q)
    {
      assert WasSent(s, q);
      if h :| Holds(s, h, q) {
        assert Holds(t, h, q);
      }
    }
  }

  lemma ReplyKeepsDelivered(s: State, g: nat, now: int, jitter: nat, late: bool)
    requires Delivered(s) && Enabled(s, Return(g, now, jitter, late)) && s.routines[g].pc.cause.Manual?
    ensures Delivered(Next(s, Return(g, now, jitter, late)))
  {
    hide Holds, Pends, Next;
    var t := Next(s, Return(g, now, jitter, late));
    var p := s.routines[g].pc.cause.request;
    ReplyMoves(s, g, now, jitter, late);
    forall q | WasSent(t, q)
      ensures t.requests[q].replies == 1 || Pends(t, t.requests[q].task, q) || exists h :: Holds(t, h, q)
    {
      assert WasSent(s, q);
      if h :| Holds(s, h, q) && h != g {
        assert Holds(t, h, q);
      }
    }
  }

  /** The reply takes the request out of the goroutine's hand, and moves nothing else. */
  lemma ReplyMoves(s: State, g: nat, now: int, jitter: nat, late: bool)
    requires Enabled(s, Return(g, now, jitter, late)) && s.routines[g].pc.cause.Manual?
    ensures var t, p := Next(s, Return(g, now, jitter, late)), s.routines[g].pc.cause.request;
            && Holds(s, g, p) && p in s.requests
            && t.requests == s.requests[p := Replied(s.requests[p], s.routines[g].pc.failed)]
            && (forall h, q :: Holds(t, h, q) <==> Holds(s, h, q) && h != g)
            && (forall n, q :: Pends(t, n, q) <==> Pends(s, n, q))
            && (forall q :: Holds(s, g, q) ==> q == p)
  {
  }

  lemma SendKeepsDelivered(s: State, p: nat)
    requires Delivered(s) && Enabled(s, Send(p))
    ensures Delivered(Next(s, Send(p)))
  {
    var t := Next(s, Send(p));
    var name := s.requests[p].task;
    assert forall n, q :: Pends(t, n, q) <==> Pends(s, n, q) || (n == name && q == p);
    assert forall g, q :: Holds(t, g, q) <==> Holds(s, g, q);
    forall q | WasSent(t, q)
      ensures t.requests[q].replies == 1 || Pends(t, t.requests[q].task, q) || exists h :: Holds(t, h, q)
    {
      if q != p {
        assert WasSent(s, q);
        if h :| Holds(s, h, q) {
          assert Holds(t, h, q);
        }
      }
    }
  }

  /** Steps of one caller that neither send nor reply: they leave every request where it is. */
  lemma CallerKeepsDelivered(s: State, a: Action)
    requires Delivered(s) && Enabled(s, a) && (a.Call? || a.Busy? || a.Read? || a.Abandon?)
    ensures Delivered(Next(s, a))
  {
    hide Delivered, Enabled, Next;
    CallerMovesNothing(s, a);
    CallerKeepsRequests(s, a);
    MovingNothingKeepsDelivered(s, Next(s, a));
  }

  lemma CallerMovesNothing(s: State, a: Action)
    requires Enabled(s, a) && (a.Call? || a.Busy? || a.Read? || a.Abandon?)
    ensures forall n, q :: Pends(Next(s, a), n, q) <==> Pends(s, n, q)
    ensures forall g, q :: Holds(Next(s, a), g, q) <==> Holds(s, g, q)
  {
  }

  /** A request as one caller's steps leave it: same task and replies, and sent if it was. */
  predicate SameDelivery(s: State, t: State, q: nat) {
    if q in s.requests then
      && q in t.requests && t.requests[q].task == s.requests[q].task && t.requests[q].replies == s.requests[q].replies
      && (WasSent(t, q) <==> WasSent(s, q))
      && (s.requests[q].buffer == None ==> t.requests[q].buffer == None)
    else q in t.requests ==> Unanswered(t, q) && !WasSent(t, q)
  }

  lemma CallerKeepsRequests(s: State, a: Action)
    requires Enabled(s, a) && (a.Call? || a.Busy? || a.Read? || a.Abandon?)
    ensures forall q :: SameDelivery(s, Next(s, a), q)
  {
  }

  lemma MovingNothingKeepsDelivered(s: State, t: State)
    requires Delivered(s) && forall q :: SameDelivery(s, t, q)
    requires forall n, q :: Pends(t, n, q) <==> Pends(s, n, q)
    requires forall g, q :: Holds(t, g, q) <==> Holds(s, g, q)
    ensures Delivered(t)
  {
    hide Pends, Holds;
    forall q | WasSent(t, q)
      ensures t.requests[q].replies == 1 || Pends(t, t.requests[q].task, q) || exists h :: Holds(t, h, q)
    {
      assert SameDelivery(s, t, q) && WasSent(s, q);
      if h :| Holds(s, h, q) {
        assert Holds(t, h, q);
      }
    }
    forall q | q in t.requests
      ensures t.requests[q].replies <= 1 && (t.requests[q].replies == 0 ==> t.requests[q].buffer == None)
      ensures !WasSent(t, q) ==> Unanswered(t, q)
    {
      assert SameDelivery(s, t, q);
    }
    forall q | Unanswered(s, q) && WasSent(s, q)
      ensures Unanswered(t, q) && WasSent(t, q) && t.requests[q].task == s.requests[q].task
    {
      assert SameDelivery(s, t, q);
    }
  }

  lemma QuietMovesNothing(s: State, a: Action)
    requires Enabled(s, a) && !a.Receive? && !(a.Return? && s.routines[a.g].pc.cause.Manual?)
    requires !a.Send? && !a.Call? && !a.Busy? && !a.Read? && !a.Abandon?
    ensures Next(s, a).requests == s.requests
    ensures forall n, q :: Pends(Next(s, a), n, q) <==> Pends(s, n, q)
    ensures forall g, q :: Holds(Next(s, a), g, q) <==> Holds(s, g, q)
  {
  }

  lemma StepKeepsDelivered(s: State, a: Action)
    requires Delivered(s) && Enabled(s, a)
    ensures Delivered(Next(s, a))
  {
    hide Delivered, Next, Holds, Pends;
    if a.Receive? {
      ReceiveKeepsDelivered(s, a.g);
    } else if a.Return? && s.routines[a.g].pc.cause.Manual? {
      ReplyKeepsDelivered(s, a.g, a.now, a.jitter, a.late);
    } else if a.Send? {
      SendKeepsDelivered(s, a.request);
    } else if a.Call? || a.Busy? || a.Read? || a.Abandon? {
      CallerKeepsDelivered(s, a);
    } else {
      QuietMovesNothing(s, a);
      QuietKeepsDelivered(s, Next(s, a));
    }
  }

  lemma {:induction false} RunDelivers(clock: int, run: seq<Action>)
    requires IsRun(clock, run)
    ensures Delivered(Reach(clock, run))
  {
    hide Next, Enabled;
    if run != [] {
      RunDelivers(clock, run[..|run| - 1]);
      StepKeepsDelivered(Reach(clock, run[..|run| - 1]), run[|run| - 1]);
    }
  }

  /** However often started, a goroutine that is about to reply can: the send never blocks, even if
      the caller gave up, and it is the first one. */
  lemma ReplyNeverBlocks(clock: int, run: seq<Action>, g: nat, q: nat)
    requires IsRun(clock, run) && Holds(Reach(clock, run), g, q)
    ensures HasRoom(Reach(clock, run), q) && Reach(clock, run).requests[q].replies == 0
  {
    hide Reach;
    RunDelivers(clock, run);
  }

  /** A request that was taken from its channel is replied to exactly once, or in the hand of the
      one goroutine that will. */
  lemma TakenRequestsAreAnswered(clock: int, run: seq<Action>, q: nat)
    requires IsRun(clock, run) && WasSent(Reach(clock, run), q)
    requires !Pends(Reach(clock, run), Reach(clock, run).requests[q].task, q)
    ensures (Reach(clock, run).requests[q].replies == 1) != (exists g :: Holds(Reach(clock, run), g, q))
    ensures forall g, h :: Holds(Reach(clock, run), g, q) && Holds(Reach(clock, run), h, q) ==> g == h
  {
    hide Reach, Pends;
    RunDelivers(clock, run);
  }

  /** How the latest execution in goroutine g came out: as its function returned, or as an error when the
      task was already running. */
  ghost function LastOutcome(clock: int, run: seq<Action>, g: nat): bool
    requires IsRun(clock, run)
  {
    if run == [] then false
    else
      var init, a := run[..|run| - 1], run[|run| - 1];
      if a.Record? && a.g == g then a.fails
      else if a == Enter(g) && IsRunning(Reach(clock, init), g) then true
      else LastOutcome(clock, init, g)
  }

  predicate IsRunning(s: State, g: nat) {
    && g < |s.routines| && s.routines[g].task.name in s.states && s.states[s.routines[g].task.name].running
  }

  predicate LeavesWith(s: State, g: nat, failed: bool) {
    g < |s.routines| && s.routines[g].pc.Leaving? ==> s.routines[g].pc.failed == failed
  }

  lemma {:induction false} LeavesWithOutcome(clock: int, run: seq<Action>, g: nat)
    requires IsRun(clock, run)
    ensures LeavesWith(Reach(clock, run), g, LastOutcome(clock, run, g))
  {
    hide Next, Enabled, LeavesWith, IsRunning;
    if run == [] {
      NobodyLeaves(clock, g);
    } else {
      var init, a := run[..|run| - 1], run[|run| - 1];
      LeavesWithOutcome(clock, init, g);
      StepLeaves(Reach(clock, init), a, g, LastOutcome(clock, init, g));
    }
  }

  lemma NobodyLeaves(clock: int, g: nat)
    ensures LeavesWith(Initial(clock), g, false)
  {
  }

  lemma StepLeaves(s: State, a: Action, g: nat, failed: bool)
    requires Enabled(s, a) && LeavesWith(s, g, failed)
    ensures LeavesWith(Next(s, a), g, if a.Record? && a.g == g then a.fails
                                      else if a == Enter(g) && IsRunning(s, g) then true else failed)
  {
  }

  /** What a manual run replies is how that run came out. */
  lemma ReplyTellsTheOutcome(clock: int, run: seq<Action>, g: nat, now: int, jitter: nat, late: bool, q: nat)
    requires IsRun(clock, run) && Enabled(Reach(clock, run), Return(g, now, jitter, late))
    requires Reach(clock, run).routines[g].pc.cause == Manual(q)
    ensures var t := Next(Reach(clock, run), Return(g, now, jitter, late));
            q in t.requests && t.requests[q].buffer == Some(LastOutcome(clock, run, g))
  {
    hide IsRun, Reach, LastOutcome;
    LeavesWithOutcome(clock, run, g);
  }

  // ----- Counts --------------------------------------------------------------------------------------

  function StatOf(s: State, name: string): TaskState {
    if name in s.states then s.states[name] else TaskState(false, 0, 0, 0, None)
  }

  predicate Completes(s: State, a: Action, name: string) {
    a.Record? && a.g < |s.routines| && s.routines[a.g].task.name == name
  }

  /** How many executions of a task came to an end, and how many of them failed. */
  ghost function Completions(clock: int, run: seq<Action>, name: string): (nat, nat)
    requires IsRun(clock, run)
  {
    if run == [] then (0, 0)
    else
      var init, a := run[..|run| - 1], run[|run| - 1];
      var (all, failed) := Completions(clock, init, name);
      if Completes(Reach(clock, init), a, name) then (all + 1, failed + if a.fails then 1 else 0) else (all, failed)
  }

  /** Runs and Failures count completed executions; a skipped execution is in neither. */
  lemma {:induction false} StatsCountCompletions(clock: int, run: seq<Action>, name: string)
    requires IsRun(clock, run)
    ensures var stat := StatOf(Reach(clock, run), name);
            (stat.runs, stat.failures) == Completions(clock, run, name) && stat.failures <= stat.runs
  {
    if run != [] {
      var init := run[..|run| - 1];
      StatsCountCompletions(clock, init, name);
      StepCounts(Reach(clock, init), run[|run| - 1], name);
    }
  }

  lemma StepCounts(s: State, a: Action, name: string)
    requires Enabled(s, a)
    ensures var stat, was := StatOf(Next(s, a), name), StatOf(s, name);
            && stat.runs == was.runs + (if Completes(s, a, name) then 1 else 0)
            && stat.failures == was.failures + (if Completes(s, a, name) && a.fails then 1 else 0)
  {
  }

  /** An execution that found its task running, or a scheduled one that outlasted the interval. */
  predicate Skips(s: State, a: Action, name: string) {
    && (a.Enter? || a.Return?)
    && a.g < |s.routines| && s.routines[a.g].task.name == name
    && (a.Enter? ==> IsRunning(s, a.g))
    && (a.Return? ==>
          s.routines[a.g].pc.Leaving? && s.routines[a.g].pc.cause == Scheduled && s.routines[a.g].pc.ran && a.late
          && s.routines[a.g].task.interval > 0)
  }

  ghost function SkipsIn(clock: int, run: seq<Action>, name: string): nat
    requires IsRun(clock, run)
  {
    if run == [] then 0
    else SkipsIn(clock, run[..|run| - 1], name)
         + if Skips(Reach(clock, run[..|run| - 1]), run[|run| - 1], name) then 1 else 0
  }

  lemma {:induction false} StatsCountSkips(clock: int, run: seq<Action>, name: string)
    requires IsRun(clock, run)
    ensures StatOf(Reach(clock, run), name).skips == SkipsIn(clock, run, name)
  {
    hide Next, Enabled, Skips;
    if run != [] {
      var init := run[..|run| - 1];
      StatsCountSkips(clock, init, name);
      StepSkips(Reach(clock, init), run[|run| - 1], name);
    }
  }

  lemma StepSkips(s: State, a: Action, name: string)
    requires Enabled(s, a)
    ensures StatOf(Next(s, a), name).skips == StatOf(s, name).skips + if Skips(s, a, name) then 1 else 0
  {
  }

  // ----- Deadlines -----------------------------------------------------------------------------------

  /** Only the goroutine's own start, its timer and the end of a scheduled run touch its deadline: a
      manual run, from its receive to its reply, leaves it as it was. */
  lemma OnlyTheScheduleMovesTheDeadline(s: State, a: Action, g: nat)
    requires Enabled(s, a) && g < |s.routines|
    requires Next(s, a).routines[g].deadline != s.routines[g].deadline
    ensures Subject(s, a) == g && (a.Begin? || a.Fire? || (a.Return? && s.routines[g].pc.cause == Scheduled))
  {
  }

  /** After a timer fired at time t, the timer is not armed for anything before t + interval. */
  ghost predicate FiredAt(s: State, g: nat, t: int) {
    && g < |s.routines| && s.routines[g].pc != Spawned && t <= s.clock
    && (s.routines[g].deadline.Some? ==>
        s.routines[g].task.interval > 0 && s.routines[g].deadline.value >= t + s.routines[g].task.interval)
  }

  lemma StepKeepsFiredAt(s: State, a: Action, g: nat, t: int)
    requires Enabled(s, a) && FiredAt(s, g, t)
    ensures FiredAt(Next(s, a), g, t) && Next(s, a).routines[g].task == s.routines[g].task
  {
  }

  lemma RunPrefix(clock: int, run: seq<Action>, k: nat)
    requires IsRun(clock, run) && k <= |run|
    ensures IsRun(clock, run[..k])
    ensures k < |run| ==> Enabled(Reach(clock, run[..k]), run[k]) && IsRun(clock, run[..k + 1])
                          && Reach(clock, run[..k + 1]) == Next(Reach(clock, run[..k]), run[k])
    decreases |run| - k
  {
    hide Enabled, Next;
    if k == |run| {
      assert run[..k] == run;
    } else {
      RunPrefix(clock, run, k + 1);
      assert run[..k + 1][..k] == run[..k];
    }
  }

  lemma {:induction false} FiredAtStays(clock: int, run: seq<Action>, i: nat, k: nat)
    requires IsRun(clock, run) && i < k <= |run| && run[i].Fire? && IsRun(clock, run[..k])
    ensures FiredAt(Reach(clock, run[..k]), run[i].g, run[i].now)
    decreases k
  {
    hide Reach, IsRun;
    RunPrefix(clock, run, k - 1);
    if i < k - 1 {
      FiredAtStays(clock, run, i, k - 1);
      StepKeepsFiredAt(Reach(clock, run[..k - 1]), run[k - 1], run[i].g, run[i].now);
    }
  }

  /** Scheduled executions of one goroutine start at least Interval apart, whatever manual runs come
      between; a task without an interval starts only one. */
  lemma ScheduledStartsAreApart(clock: int, run: seq<Action>, i: nat, k: nat)
    requires IsRun(clock, run) && i < k < |run| && run[i].Fire? && run[k].Fire? && run[i].g == run[k].g
    ensures IsRun(clock, run[..k]) && run[k].g < |Reach(clock, run[..k]).routines|
    ensures var interval := Reach(clock, run[..k]).routines[run[k].g].task.interval;
            interval > 0 && run[k].now - run[i].now >= interval
  {
    hide Reach, IsRun;
    RunPrefix(clock, run, k);
    FiredAtStays(clock, run, i, k);
  }

  /** The goroutine executes nothing scheduled before time at. */
  ghost predicate HoldsBack(s: State, g: nat, at: int) {
    && g < |s.routines| && s.routines[g].pc != Spawned
    && (match s.routines[g].deadline
        case Some(d) => d >= at
        case None => s.clock >= at || s.routines[g].pc == Exited || s.routines[g].task.manualOnly)
    && (Executes(s.routines[g].pc) && s.routines[g].pc.cause == Scheduled ==> s.clock >= at)
  }

  lemma StepHoldsBack(s: State, a: Action, g: nat, at: int)
    requires Enabled(s, a) && HoldsBack(s, g, at)
    ensures HoldsBack(Next(s, a), g, at) && Next(s, a).routines[g].task == s.routines[g].task
    ensures a.Fire? && a.g == g ==> a.now >= at
  {
    if Subject(s, a) != g {
      hide HoldsBack, Next;
      OthersStay(s, a, g);
      LaterHoldsBack(s, Next(s, a), g, at);
    }
  }

  /** An action leaves the goroutines alone that it does not move, and time goes on. */
  lemma OthersStay(s: State, a: Action, g: nat)
    requires Enabled(s, a) && g < |s.routines| && Subject(s, a) != g
    ensures g < |Next(s, a).routines| && Next(s, a).routines[g] == s.routines[g] && Next(s, a).clock >= s.clock
  {
  }

  lemma LaterHoldsBack(s: State, t: State, g: nat, at: int)
    requires HoldsBack(s, g, at) && g < |s.routines| && g < |t.routines|
    requires t.routines[g] == s.routines[g] && t.clock >= s.clock
    ensures HoldsBack(t, g, at)
  {
  }

  lemma {:induction false} HoldsBackUntil(clock: int, run: seq<Action>, i: nat, k: nat, g: nat, at: int)
    requires IsRun(clock, run) && i < k < |run| && IsRun(clock, run[..i + 1])
    requires HoldsBack(Reach(clock, run[..i + 1]), g, at)
    ensures IsRun(clock, run[..k]) && HoldsBack(Reach(clock, run[..k]), g, at)
    ensures g < |Reach(clock, run[..i + 1]).routines|
    ensures Reach(clock, run[..k]).routines[g].task == Reach(clock, run[..i + 1]).routines[g].task
    decreases k
  {
    hide Reach, IsRun, Next, Enabled;
    RunPrefix(clock, run, k);
    if i + 1 < k {
      HoldsBackUntil(clock, run, i, k - 1, g, at);
      RunPrefix(clock, run, k - 1);
      StepHoldsBack(Reach(clock, run[..k - 1]), run[k - 1], g, at);
    }
  }

  /** The first scheduled execution comes no earlier than the initial delay and jitter after the goroutine
      began, and an interval later than that unless the task runs on start. */
  lemma FirstStartIsDelayed(clock: int, run: seq<Action>, i: nat, k: nat)
    requires IsRun(clock, run) && i < k < |run| && run[i].Begin? && run[k].Fire? && run[i].g == run[k].g
    ensures IsRun(clock, run[..i]) && run[i].g < |Reach(clock, run[..i]).routines|
    ensures var task := Reach(clock, run[..i]).routines[run[i].g].task;
            !task.manualOnly ==>
              && run[k].now >= run[i].now + task.initialDelay + run[i].jitter
              && (!task.runOnStart ==> run[k].now >= run[i].now + task.initialDelay + run[i].jitter + task.interval)
  {
    hide Reach, IsRun;
    RunPrefix(clock, run, i);
    RunPrefix(clock, run, k);
    var s, task := Reach(clock, run[..i]), Reach(clock, run[..i]).routines[run[i].g].task;
    var at := run[i].now + task.initialDelay + run[i].jitter
              + if !task.runOnStart && task.interval > 0 then task.interval else 0;
    if !task.manualOnly {
      assert HoldsBack(Next(s, run[i]), run[i].g, at);
      HoldsBackUntil(clock, run, i, k, run[i].g, at);
      StepHoldsBack(Reach(clock, run[..k]), run[k], run[i].g, at);
    }
  }

  /** After a scheduled execution the next one waits for the interval and the jitter. */
  lemma NextStartIsDelayed(clock: int, run: seq<Action>, i: nat, k: nat)
    requires IsRun(clock, run) && i < k < |run| && run[i].Return? && run[k].Fire? && run[i].g == run[k].g
    ensures IsRun(clock, run[..i]) && run[i].g < |Reach(clock, run[..i]).routines|
    ensures var r := Reach(clock, run[..i]).routines[run[i].g];
            r.pc.Leaving? && (r.pc.cause == Scheduled && r.task.interval > 0 ==>
              run[k].now >= run[i].now + r.task.interval + run[i].jitter)
  {
    hide Reach, IsRun;
    RunPrefix(clock, run, i);
    RunPrefix(clock, run, k);
    var s, r := Reach(clock, run[..i]), Reach(clock, run[..i]).routines[run[i].g];
    if r.pc.cause == Scheduled && r.task.interval > 0 {
      var at := run[i].now + r.task.interval + run[i].jitter;
      assert HoldsBack(Next(s, run[i]), run[i].g, at);
      HoldsBackUntil(clock, run, i, k, run[i].g, at);
      StepHoldsBack(Reach(clock, run[..k]), run[k], run[i].g, at);
    }
  }

  /** The timer of a task that is only run by hand is not armed, and nothing scheduled executes. */
  predicate NeverArmed(s: State, g: nat) {
    g < |s.routines| && s.routines[g].task.manualOnly ==>
      s.routines[g].deadline == None && (Executes(s.routines[g].pc) ==> s.routines[g].pc.cause.Manual?)
  }

  lemma StepNeverArms(s: State, a: Action, g: nat)
    requires Enabled(s, a) && NeverArmed(s, g)
    ensures NeverArmed(Next(s, a), g)
  {
    hide NeverArmed;
    if g < |s.routines| && Subject(s, a) != g {
      OthersStay(s, a, g);
      SameIsNeverArmed(s, Next(s, a), g);
    } else {
      SubjectNeverArms(s, a, g);
    }
  }

  lemma SameIsNeverArmed(s: State, t: State, g: nat)
    requires NeverArmed(s, g) && g < |s.routines| && g < |t.routines| && t.routines[g] == s.routines[g]
    ensures NeverArmed(t, g)
  {
  }

  lemma SubjectNeverArms(s: State, a: Action, g: nat)
    requires Enabled(s, a) && NeverArmed(s, g) && (Subject(s, a) == g || g >= |s.routines|)
    ensures NeverArmed(Next(s, a), g)
  {
  }

  lemma {:induction false} ManualOnlyNeverFires(clock: int, run: seq<Action>, g: nat, now: int)
    requires IsRun(clock, run)
    ensures NeverArmed(Reach(clock, run), g)
    ensures Enabled(Reach(clock, run), Fire(g, now)) ==> !Reach(clock, run).routines[g].task.manualOnly
  {
    hide Next;
    if run != [] {
      ManualOnlyNeverFires(clock, run[..|run| - 1], g, now);
      StepNeverArms(Reach(clock, run[..|run| - 1]), run[|run| - 1], g);
    }
  }

  // ----- Started twice -------------------------------------------------------------------------------

  ghost predicate OverlapsAfter(clock: int, run: seq<Action>, starts: nat) {
    IsRun(clock, run) && Reach(clock, run).starts == starts && exists g :: Overlaps(Reach(clock, run), g)
  }

  /** A task that runs on start, with nothing in flight. */
  function TaskOnStart(name: string): Task {
    Task(name, 1, 0, true, false)
  }

  lemma TwoGoroutines(clock: int, name: string) returns (run: seq<Action>)
    requires name != ""
    ensures var idle := Routine(TaskOnStart(name), Idle, Some(clock));
            && IsRun(clock, run)
            && Reach(clock, run)
                  == State([TaskOnStart(name)], map[name := UNTOUCHED], [idle, idle], map[], 2, false, clock)
  {
    hide IsRun, Reach;
    var task := TaskOnStart(name);
    var spawned, idle := Routine(task, Spawned, None), Routine(task, Idle, Some(clock));
    var s := Initial(clock).(tasks := [task], states := map[name := UNTOUCHED]);
    EmptyRun(clock);
    run := Follow(clock, [], Add(task), s);
    run := Follow(clock, run, Start, s.(starts := 1, routines := [spawned]));
    run := Follow(clock, run, Start, s.(starts := 2, routines := [spawned, spawned]));
    run := Follow(clock, run, Begin(0, clock, 0), s.(starts := 2, routines := [idle, spawned]));
    run := Follow(clock, run, Begin(1, clock, 0), s.(starts := 2, routines := [idle, idle]));
  }

  /** Both goroutines of the task fire while the first one works. */
  lemma TwoStartsOverlap(clock: int, name: string) returns (run: seq<Action>)
    requires name != ""
    ensures OverlapsAfter(clock, run, 2)
  {
    hide IsRun, Reach;
    var task := TaskOnStart(name);
    var idle := Routine(task, Idle, Some(clock));
    run := TwoGoroutines(clock, name);
    var s := Reach(clock, run);
    var working := s.(states := map[name := UNTOUCHED.(running := true)]);
    run := Follow(clock, run, Fire(0, clock), s.(routines := [Routine(task, Entering(Scheduled), None), idle]));
    run := Follow(clock, run, Enter(0), working.(routines := [Routine(task, Working(Scheduled), None), idle]));
    run := Follow(clock, run, Fire(1, clock),
                  working.(routines := [Routine(task, Working(Scheduled), None),
                                        Routine(task, Entering(Scheduled), None)]));
    assert Overlaps(Reach(clock, run), 1);
  }

  lemma EmptyRun(clock: int)
    ensures IsRun(clock, []) && Reach(clock, []) == Initial(clock)
  {
  }

  lemma Follow(clock: int, run: seq<Action>, a: Action, t: State) returns (longer: seq<Action>)
    requires IsRun(clock, run) && Enabled(Reach(clock, run), a) && Next(Reach(clock, run), a) == t
    ensures longer == run + [a] && IsRun(clock, longer) && Reach(clock, longer) == t
  {
    longer := run + [a];
  }

  lemma {:induction false} MoreStartsOverlap(clock: int, name: string, k: nat) returns (run: seq<Action>)
    requires name != "" && k >= 2
    ensures OverlapsAfter(clock, run, k)
  {
    if k == 2 {
      run := TwoStartsOverlap(clock, name);
    } else {
      run := MoreStartsOverlap(clock, name, k - 1);
      var g :| Overlaps(Reach(clock, run), g);
      run := run + [Start];
      assert Overlaps(Reach(clock, run), g);
    }
  }

  /** The already-running branch can be reached exactly when Start was called more than once. */
  lemma AlreadyRunningIff(clock: int, name: string, k: nat)
    requires name != ""
    ensures (exists run :: OverlapsAfter(clock, run, k)) <==> k >= 2
  {
    hide Overlaps, Reach;
    if run :| OverlapsAfter(clock, run, k) {
      var g :| Overlaps(Reach(clock, run), g);
      if k <= 1 {
        NeverAlreadyRunning(clock, run, g);
      }
    }
    if k >= 2 {
      var run := MoreStartsOverlap(clock, name, k);
    }
  }
}
