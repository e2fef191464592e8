/** The logger's channel protocol (Emit, run, Flush and Close in internal/logging/logger.go).

    Emitters, flushers, the worker and the closer interleave in any order. One action is one
    select, receive, close or counter update of the code.

    A flush puts a mark behind the events that are queued and waits until the worker closes it;
    Close flushes, closes stop, waits for the worker and closes the sinks. A timeout may strike
    at any time, so what is proved holds whether or not one does. */
module Logger {

  const DEPTH: nat := 4096

  /** An item of the queue: an event, or the done channel of a flush. */
  datatype Item = Ev(event: int) | Mark(flush: nat)

  /** The worker: in its select, with an item in hand, draining after stop, or returned. */
  datatype Worker = Selecting | Busy(item: Item) | Draining | BusyDraining(item: Item) | Exited

  /** One Flush call: sending its mark, waiting for the close, returned, or timed out. */
  datatype Flusher = Sending | Waiting | Flushed | GaveUp

  /** The body of closeOnce. */
  datatype Closer = Open | Flushing(flush: nat) | Stopped | SinksClosed

  datatype State = State(
    queue: seq<Item>,
    dropping: nat,
    dropped: nat,
    worker: Worker,
    processed: seq<int>,
    closed: set<nat>,
    flushers: map<nat, Flusher>,
    closer: Closer)

  const INITIAL := State([], 0, 0, Selecting, [], {}, map[], Open)

  /** stop is closed. */
  predicate IsStopped(s: State) {
    s.closer.Stopped? || s.closer.SinksClosed?
  }

  datatype Action =
    | Accept(event: int)
    | Refuse(event: int)
    | CountDrop
    | StartFlush(flush: nat)
    | SendMark(flush: nat)
    | SeeDone(flush: nat)
    | GiveUp(flush: nat)
    | Take
    | Finish
    | SeeStop
    | Exit
    | StartClose(flush: nat)
    | CloseStop
    | CloseSinks

  predicate Enabled(s: State, a: Action) {
    match a
    case Accept(_) => |s.queue| < DEPTH
    case Refuse(_) => |s.queue| == DEPTH
    case CountDrop => s.dropping > 0
    case StartFlush(f) => f !in s.flushers
    case SendMark(f) => f in s.flushers && s.flushers[f] == Sending && |s.queue| < DEPTH
    case SeeDone(f) => f in s.flushers && s.flushers[f] == Waiting && f in s.closed
    case GiveUp(f) => f in s.flushers && (s.flushers[f] == Sending || s.flushers[f] == Waiting)
    case Take => (s.worker == Selecting || s.worker == Draining) && s.queue != []
    case Finish => s.worker.Busy? || s.worker.BusyDraining?
    case SeeStop => s.worker == Selecting && IsStopped(s)
    case Exit => s.worker == Draining && s.queue == []
    case StartClose(f) => s.closer == Open && f !in s.flushers
    case CloseStop => s.closer.Flushing? && s.closer.flush in s.flushers
                      && (s.flushers[s.closer.flush] == Flushed || s.flushers[s.closer.flush] == GaveUp)
    case CloseSinks => s.closer == Stopped && s.worker == Exited
  }

  function Finished(s: State, item: Item): State {
    match item
    case Ev(event) => s.(processed := s.processed + [event])
    case Mark(flush) => s.(closed := s.closed + {flush})
  }

  function Next(s: State, a: Action): State
    requires Enabled(s, a)
  {
    match a
    case Accept(event) => s.(queue := s.queue + [Ev(event)])
    case Refuse(_) => s.(dropping := s.dropping + 1)
    case CountDrop => s.(dropping := s.dropping - 1, dropped := s.dropped + 1)
    case StartFlush(f) => s.(flushers := s.flushers[f := Sending])
    case SendMark(f) => s.(queue := s.queue + [Mark(f)], flushers := s.flushers[f := Waiting])
    case SeeDone(f) => s.(flushers := s.flushers[f := Flushed])
    case GiveUp(f) => s.(flushers := s.flushers[f := GaveUp])
    case Take =>
      var item := s.queue[0];
      s.(queue := s.queue[1..], worker := if s.worker == Selecting then Busy(item) else BusyDraining(item))
    case Finish => Finished(s, s.worker.item).(worker := if s.worker.Busy? then Selecting else Draining)
    case SeeStop => s.(worker := Draining)
    case Exit => s.(worker := Exited)
    case StartClose(f) => s.(closer := Flushing(f), flushers := s.flushers[f := Sending])
    case CloseStop => s.(closer := Stopped)
    case CloseSinks => s.(closer := SinksClosed)
  }

  // ----- Runs ---------------------------------------------------------------------------------

  ghost predicate IsRun(run: seq<Action>)
    decreases |run|, 0
  {
    run == [] || (IsRun(run[..|run| - 1]) && Enabled(Reach(run[..|run| - 1]), run[|run| - 1]))
  }

  ghost function Reach(run: seq<Action>): State
    requires IsRun(run)
    decreases |run|, 1
  {
    if run == [] then INITIAL else Next(Reach(run[..|run| - 1]), run[|run| - 1])
  }

  /** How often Emit was called. */
  function Emitted(run: seq<Action>): nat {
    if run == [] then 0
    else Emitted(run[..|run| - 1]) + if run[|run| - 1].Accept? || run[|run| - 1].Refuse? then 1 else 0
  }

  function Entered(a: Action): seq<Item> {
    match a
    case Accept(event) => [Ev(event)]
    case SendMark(f) => [Mark(f)]
    case _ => []
  }

  /** Everything that entered the queue, in order. */
  function Accepted(run: seq<Action>): seq<Item> {
    if run == [] then [] else Accepted(run[..|run| - 1]) + Entered(run[|run| - 1])
  }

  function Events(items: seq<Item>): seq<int> {
    if items == [] then []
    else Events(items[..|items| - 1]) + if items[|items| - 1].Ev? then [items[|items| - 1].event] else []
  }

  function Marks(items: seq<Item>): set<nat> {
    set item | item in items && item.Mark? :: item.flush
  }

  function InHand(w: Worker): seq<Item> {
    if w.Busy? || w.BusyDraining? then [w.item] else []
  }

  lemma {:induction false} EventsConcat(a: seq<Item>, b: seq<Item>)
    ensures Events(a + b) == Events(a) + Events(b)
  {
    if b == [] {
      assert a + b == a;
    } else {
      var n := |b| - 1;
      EventsConcat(a, b[..n]);
      assert (a + b)[..|a + b| - 1] == a + b[..n];
    }
  }

  // ----- The invariant ---------------------------------------------------------------------------

  /** No flush enters its mark twice. */
  ghost predicate MarksOnce(items: seq<Item>) {
    forall i, j :: 0 <= i < j < |items| && items[i].Mark? && items[j].Mark? ==> items[i].flush != items[j].flush
  }

  /** The items that entered are those finished, the one in hand and those queued, in this order. */
  ghost predicate InOrder(s: State, accepted: seq<Item>, handled: nat) {
    && handled <= |accepted|
    && accepted[handled..] == InHand(s.worker) + s.queue
    && s.processed == Events(accepted[..handled])
    && s.closed == Marks(accepted[..handled])
  }

  /** Flushers enter one mark each, after they started; only what the worker closed is done. */
  ghost predicate FlushersAgree(s: State, accepted: seq<Item>) {
    && MarksOnce(accepted)
    && (forall f :: f in Marks(accepted) ==> f in s.flushers && s.flushers[f] != Sending)
    && (forall f :: f in s.flushers && s.flushers[f] == Flushed ==> f in s.closed)
    && (s.closer.Flushing? ==> s.closer.flush in s.flushers)
  }

  /** The queue stays within its depth, the worker drains only after stop, and the sinks are
      closed only after it has returned. */
  ghost predicate InBounds(s: State) {
    && |s.queue| <= DEPTH
    && (s.worker.Draining? || s.worker.BusyDraining? || s.worker == Exited ==> IsStopped(s))
    && (s.closer == SinksClosed ==> s.worker == Exited)
  }

  ghost predicate Inv(s: State, accepted: seq<Item>, handled: nat) {
    InOrder(s, accepted, handled) && FlushersAgree(s, accepted) && InBounds(s)
  }

  function HandledBy(a: Action, handled: nat): nat {
    if a == Finish then handled + 1 else handled
  }

  lemma EventsSnoc(items: seq<Item>, item: Item)
    ensures Events(items + [item]) == if item.Ev? then Events(items) + [item.event] else Events(items)
    ensures Marks(items + [item]) == if item.Mark? then Marks(items) + {item.flush} else Marks(items)
  {
    assert (items + [item])[..|items|] == items;
    assert Events(items) + [] == Events(items);
    assert forall x :: x in items + [item] <==> x in items || x == item;
  }

  lemma FinishKeepsOrder(s: State, accepted: seq<Item>, handled: nat)
    requires InOrder(s, accepted, handled) && Enabled(s, Finish)
    ensures InOrder(Next(s, Finish), accepted, handled + 1)
  {
    hide Marks, Events;
    var item := s.worker.item;
    assert accepted[handled..][0] == item;
    assert accepted[..handled + 1] == accepted[..handled] + [item];
    assert accepted[handled + 1..] == accepted[handled..][1..];
    EventsSnoc(accepted[..handled], item);
  }

  lemma EnteringKeepsOrder(s: State, a: Action, accepted: seq<Item>, handled: nat)
    requires InOrder(s, accepted, handled) && Enabled(s, a) && (a.Accept? || a.SendMark?)
    ensures InOrder(Next(s, a), accepted + Entered(a), handled)
  {
    hide Marks, Events;
    var more := accepted + Entered(a);
    assert more[..handled] == accepted[..handled];
    assert more[handled..] == accepted[handled..] + Entered(a);
    assert InHand(s.worker) + (s.queue + Entered(a)) == InHand(s.worker) + s.queue + Entered(a);
  }

  lemma StepKeepsOrder(s: State, a: Action, accepted: seq<Item>, handled: nat)
    requires InOrder(s, accepted, handled) && Enabled(s, a)
    ensures InOrder(Next(s, a), accepted + Entered(a), HandledBy(a, handled))
  {
    hide InOrder, Next;
    if a == Finish {
      FinishKeepsOrder(s, accepted, handled);
      assert accepted + [] == accepted;
    } else if a.Accept? || a.SendMark? {
      EnteringKeepsOrder(s, a, accepted, handled);
    } else {
      assert accepted + [] == accepted;
      MovingKeepsOrder(s, a, accepted, handled);
    }
  }

  lemma MovingKeepsOrder(s: State, a: Action, accepted: seq<Item>, handled: nat)
    requires InOrder(s, accepted, handled) && Enabled(s, a) && a != Finish && !a.Accept? && !a.SendMark?
    ensures InOrder(Next(s, a), accepted, handled)
  {
    hide Marks, Events;
    if a == Take {
      assert InHand(s.worker) + s.queue == [s.queue[0]] + s.queue[1..];
    }
  }

  lemma StepKeepsFlushers(s: State, a: Action, accepted: seq<Item>)
    requires FlushersAgree(s, accepted) && Enabled(s, a)
    ensures FlushersAgree(Next(s, a), accepted + Entered(a))
  {
    hide Marks;
    assert accepted + [] == accepted;
    if a.SendMark? {
      EventsSnoc(accepted, Mark(a.flush));
      MarksHas(accepted);
    } else if a.Accept? {
      EventsSnoc(accepted, Ev(a.event));
    }
  }

  lemma MarksHas(items: seq<Item>)
    ensures forall i :: 0 <= i < |items| && items[i].Mark? ==> items[i].flush in Marks(items)
  {
  }

  lemma StepKeeps(s: State, a: Action, accepted: seq<Item>, handled: nat)
    requires Inv(s, accepted, handled) && Enabled(s, a)
    ensures Inv(Next(s, a), accepted + Entered(a), HandledBy(a, handled))
  {
    hide InOrder, FlushersAgree, InBounds, Next;
    StepKeepsOrder(s, a, accepted, handled);
    StepKeepsFlushers(s, a, accepted);
    StepKeepsBounds(s, a);
  }

  lemma StepKeepsBounds(s: State, a: Action)
    requires InBounds(s) && Enabled(s, a)
    ensures InBounds(Next(s, a))
  {
  }

  /** How many items the worker has finished. */
  function Handled(run: seq<Action>): nat {
    if run == [] then 0 else HandledBy(run[|run| - 1], Handled(run[..|run| - 1]))
  }

  lemma {:induction false} RunKeeps(run: seq<Action>)
    requires IsRun(run)
    ensures Inv(Reach(run), Accepted(run), Handled(run))
  {
    hide Inv, Next;
    if run == [] {
      NothingYet();
    } else {
      RunKeeps(run[..|run| - 1]);
      StepKeeps(Reach(run[..|run| - 1]), run[|run| - 1], Accepted(run[..|run| - 1]), Handled(run[..|run| - 1]));
    }
  }

  lemma NothingYet()
    ensures Inv(INITIAL, [], 0) && Events([]) == []
  {
  }

  // ----- What every interleaving keeps -------------------------------------------------------------

  /** Every emitted event is dropped, processed, in the worker's hand or queued; an emitter that was
      refused may still be about to count it. */
  lemma EventsAreConserved(run: seq<Action>)
    requires IsRun(run)
    ensures var s := Reach(run);
            Emitted(run) == s.dropped + s.dropping + |s.processed| + |Events(InHand(s.worker))| + |Events(s.queue)|
  {
    hide Inv;
    AcceptedAreInOrder(run);
    EmittedOrDropped(run);
  }

  lemma {:induction false} EmittedOrDropped(run: seq<Action>)
    requires IsRun(run)
    ensures Emitted(run) == Reach(run).dropped + Reach(run).dropping + |Events(Accepted(run))|
  {
    hide Events;
    if run == [] {
      NothingYet();
    } else {
      var init, a := run[..|run| - 1], run[|run| - 1];
      EmittedOrDropped(init);
      assert Accepted(init) + [] == Accepted(init);
      if a.Accept? {
        EventsSnoc(Accepted(init), Ev(a.event));
      } else if a.SendMark? {
        EventsSnoc(Accepted(init), Mark(a.flush));
      }
    }
  }

  /** Emit never blocks: whatever state it meets, the event is queued, or refused because the queue
      is full. */
  lemma EmitNeverBlocks(run: seq<Action>, event: int)
    requires IsRun(run)
    ensures Enabled(Reach(run), Accept(event)) || Enabled(Reach(run), Refuse(event))
    ensures Enabled(Reach(run), Refuse(event)) <==> |Reach(run).queue| == 4096
  {
    hide InOrder, FlushersAgree;
    RunKeeps(run);
  }

  /** What was processed, then what is in hand, then what is queued: the accepted events in order. */
  lemma {:induction false} AcceptedAreInOrder(run: seq<Action>)
    requires IsRun(run)
    ensures var s := Reach(run);
            Events(Accepted(run)) == s.processed + Events(InHand(s.worker)) + Events(s.queue)
  {
    hide Events, Marks, FlushersAgree, InBounds;
    RunKeeps(run);
    var s, accepted, n := Reach(run), Accepted(run), Handled(run);
    assert accepted == accepted[..n] + accepted[n..];
    EventsConcat(accepted[..n], accepted[n..]);
    EventsConcat(InHand(s.worker), s.queue);
  }

  lemma {:induction false} RunPrefix(run: seq<Action>, k: nat)
    requires IsRun(run) && k <= |run|
    ensures IsRun(run[..k])
  {
    if k < |run| {
      RunPrefix(run[..|run| - 1], k);
      assert run[..|run| - 1][..k] == run[..k];
    } else {
      assert run[..k] == run;
    }
  }

  lemma {:induction false} AcceptedPrefix(run: seq<Action>, k: nat)
    requires k <= |run|
    ensures Accepted(run[..k]) <= Accepted(run)
  {
    if k < |run| {
      AcceptedPrefix(run[..|run| - 1], k);
      assert run[..|run| - 1][..k] == run[..k];
    } else {
      assert run[..k] == run;
    }
  }

  lemma EventsOfStart(items: seq<Item>, all: seq<Item>)
    requires items <= all
    ensures Events(items) <= Events(all)
  {
    assert all == items + all[|items|..];
    EventsConcat(items, all[|items|..]);
  }

  /** The invariant's view of the history: what is finished is a first part of what was accepted. */
  lemma FinishedAreFirst(run: seq<Action>)
    requires IsRun(run)
    ensures Handled(run) <= |Accepted(run)| && MarksOnce(Accepted(run))
    ensures Reach(run).processed == Events(Accepted(run)[..Handled(run)])
    ensures Reach(run).closed == Marks(Accepted(run)[..Handled(run)])
  {
    hide Events, Marks, MarksOnce, InBounds, Accepted, Reach, IsRun, Handled;
    RunKeeps(run);
  }

  /** What entered at step k sits right behind what had been accepted before it. */
  lemma {:induction false} EnteredAt(run: seq<Action>, k: nat)
    requires k < |run|
    ensures Accepted(run[..k]) + Entered(run[k]) <= Accepted(run)
  {
    AcceptedPrefix(run, k + 1);
    assert run[..k + 1][..k] == run[..k];
  }

  /** A flush whose done channel is closed: every event accepted before its mark was processed,
      in order, and nothing before it was skipped. */
  lemma {:induction false} ClosedFlushMeansProcessed(run: seq<Action>, k: nat)
    requires IsRun(run) && k < |run| && run[k].SendMark? && run[k].flush in Reach(run).closed
    ensures Events(Accepted(run[..k])) <= Reach(run).processed
  {
    hide Events, Marks, MarksOnce, Accepted, Reach, IsRun, Handled;
    FinishedAreFirst(run);
    EnteredAt(run, k);
    var before, accepted := Accepted(run[..k]), Accepted(run);
    assert accepted[|before|] == Mark(run[k].flush);
    MarkIsHandled(accepted, Handled(run), |before|);
    EventsOfStart(before, accepted[..Handled(run)]);
  }

  lemma MarkIsHandled(accepted: seq<Item>, n: nat, at: nat)
    requires n <= |accepted| && at < |accepted| && accepted[at].Mark?
    requires MarksOnce(accepted) && accepted[at].flush in Marks(accepted[..n])
    ensures at < n
  {
    var item :| item in accepted[..n] && item.Mark? && item.flush == accepted[at].flush;
    var i :| 0 <= i < n && accepted[..n][i] == item;
    assert accepted[i] == item;
  }

  /** No done channel is closed twice. */
  lemma MarksAreClosedOnce(run: seq<Action>)
    requires IsRun(run) && Enabled(Reach(run), Finish) && Reach(run).worker.item.Mark?
    ensures Reach(run).worker.item.flush !in Reach(run).closed
  {
    hide Events, InBounds, Accepted, Next;
    RunKeeps(run);
    var accepted, n := Accepted(run), Handled(run);
    assert accepted[n..][0] == Reach(run).worker.item;
    if Reach(run).worker.item.flush in Reach(run).closed {
      MarkIsHandled(accepted, n, n);
    }
  }

  // ----- Flush ------------------------------------------------------------------------------------

  lemma {:induction false} FlushersStay(run: seq<Action>, k: nat, f: nat)
    requires IsRun(run) && k <= |run| && IsRun(run[..k]) && f in Reach(run[..k]).flushers
    ensures f in Reach(run).flushers
  {
    if k < |run| {
      assert run[..|run| - 1][..k] == run[..k];
      FlushersStay(run[..|run| - 1], k, f);
    } else {
      assert run[..k] == run;
    }
  }

  /** A mark that entered was sent at some step. */
  lemma {:induction false} MarkWasSent(run: seq<Action>, f: nat) returns (k: nat)
    requires f in Marks(Accepted(run))
    ensures k < |run| && run[k] == SendMark(f)
  {
    var n := |run| - 1;
    var init := Accepted(run[..n]);
    assert init + [] == init;
    if run[n] == SendMark(f) {
      k := n;
    } else {
      if run[n].Accept? {
        EventsSnoc(init, Ev(run[n].event));
      } else if run[n].SendMark? {
        EventsSnoc(init, Mark(run[n].flush));
      }
      k := MarkWasSent(run[..n], f);
    }
  }

  predicate Begins(a: Action, f: nat) {
    a == StartFlush(f) || a == StartClose(f)
  }

  lemma {:induction false} StepIsEnabled(run: seq<Action>, k: nat)
    requires IsRun(run) && k < |run|
    ensures IsRun(run[..k]) && Enabled(Reach(run[..k]), run[k])
    ensures IsRun(run[..k + 1]) && Reach(run[..k + 1]) == Next(Reach(run[..k]), run[k])
  {
    RunPrefix(run, k + 1);
    RunPrefix(run, k);
    assert run[..k + 1][..k] == run[..k];
  }

  /** What Flush promises when it returns without timing out: every event accepted before the call
      was made has been processed. */
  lemma {:induction false} FlushReturnedMeansProcessed(run: seq<Action>, m: nat, f: nat)
    requires IsRun(run) && m < |run| && Begins(run[m], f)
    requires f in Reach(run).flushers && Reach(run).flushers[f] == Flushed
    ensures Events(Accepted(run[..m])) <= Reach(run).processed
  {
    hide Events, Marks, MarksOnce, Accepted, Reach, IsRun, Handled;
    FinishedAreFirst(run);
    FlushedIsClosed(run, f);
    MarksOfPrefix(Accepted(run), Handled(run));
    var k := MarkWasSent(run, f);
    SentAfterBegun(run, m, k, f);
    ClosedFlushMeansProcessed(run, k);
    AcceptedPrefix(run[..k], m);
    assert run[..k][..m] == run[..m];
    EventsOfStart(Accepted(run[..m]), Accepted(run[..k]));
  }

  lemma FlushedIsClosed(run: seq<Action>, f: nat)
    requires IsRun(run) && f in Reach(run).flushers && Reach(run).flushers[f] == Flushed
    ensures f in Reach(run).closed
  {
    RunKeeps(run);
  }

  lemma MarksOfPrefix(items: seq<Item>, n: nat)
    requires n <= |items|
    ensures Marks(items[..n]) <= Marks(items)
  {
  }

  lemma SentAfterBegun(run: seq<Action>, m: nat, k: nat, f: nat)
    requires IsRun(run) && m < |run| && k < |run| && Begins(run[m], f) && run[k] == SendMark(f)
    ensures m < k
  {
    hide Next, Reach;
    StepIsEnabled(run, m);
    StepIsEnabled(run, k);
    if k < m {
      assert run[..m][..k] == run[..k];
      FlushersStay(run[..m], k, f);
    }
  }

  // ----- Close -----------------------------------------------------------------------------------

  lemma {:induction false} StoppedStays(run: seq<Action>, k: nat)
    requires IsRun(run) && k <= |run| && IsRun(run[..k]) && IsStopped(Reach(run[..k]))
    ensures IsStopped(Reach(run))
  {
    if k < |run| {
      assert run[..|run| - 1][..k] == run[..k];
      StoppedStays(run[..|run| - 1], k);
    } else {
      assert run[..k] == run;
    }
  }

  lemma {:induction false} ExitedStays(run: seq<Action>, k: nat)
    requires IsRun(run) && k <= |run| && IsRun(run[..k]) && Reach(run[..k]).worker == Exited
    ensures Reach(run).worker == Exited
  {
    if k < |run| {
      assert run[..|run| - 1][..k] == run[..k];
      ExitedStays(run[..|run| - 1], k);
    } else {
      assert run[..k] == run;
    }
  }

  /** A worker that has returned did so at some step; what it processed and closed is exactly what
      had been accepted by then, and nothing since. */
  lemma {:induction false} ExitedProcessedAll(run: seq<Action>) returns (e: nat)
    requires IsRun(run) && Reach(run).worker == Exited
    ensures e < |run| && run[e] == Exit && IsRun(run[..e]) && IsStopped(Reach(run[..e]))
    ensures Reach(run).processed == Events(Accepted(run[..e]))
    ensures Reach(run).closed == Marks(Accepted(run[..e]))
  {
    hide Events, Marks, MarksOnce, Accepted;
    var n := |run| - 1;
    if run[n] == Exit {
      e := n;
      RunKeeps(run[..n]);
      var s, accepted, h := Reach(run[..n]), Accepted(run[..n]), Handled(run[..n]);
      assert InHand(s.worker) + s.queue == [];
      assert |accepted| == h && accepted[..h] == accepted;
    } else {
      e := ExitedProcessedAll(run[..n]);
      assert run[..n][..e] == run[..e];
    }
  }

  /** Once the worker has seen stop it only drains the queue and returns. */
  lemma DrainingGoesOn(s: State, a: Action)
    requires Enabled(s, a) && (s.worker.Draining? || s.worker.BusyDraining? || s.worker == Exited)
    ensures var t := Next(s, a);
            && (t.worker.Draining? || t.worker.BusyDraining? || t.worker == Exited)
            && (t.worker == Exited <==> s.worker == Exited || (a == Exit && s.queue == []))
  {
  }

  /** Every event accepted before stop was closed is processed before the worker returns. */
  lemma {:induction false} StopDrains(run: seq<Action>, k: nat)
    requires IsRun(run) && k < |run| && run[k] == CloseStop && Reach(run).worker == Exited
    ensures Events(Accepted(run[..k])) <= Reach(run).processed
  {
    hide Events, Marks, Accepted, Next, Reach;
    var e := ExitedProcessedAll(run);
    StepIsEnabled(run, k);
    if e <= k {
      assert run[..k][..e] == run[..e];
      StoppedStays(run[..k], e);
      assert false;
    }
    AcceptedPrefix(run[..e], k);
    assert run[..e][..k] == run[..k];
    EventsOfStart(Accepted(run[..k]), Accepted(run[..e]));
  }

  /** Stop is closed once, so the close never panics. */
  lemma StopIsClosedOnce(run: seq<Action>, j: nat, k: nat)
    requires IsRun(run) && j < |run| && k < |run| && run[j] == CloseStop && run[k] == CloseStop
    ensures j == k
  {
    if j < k {
      StopIsNotClosedAgain(run, j, k);
    } else if k < j {
      StopIsNotClosedAgain(run, k, j);
    }
  }

  lemma StopIsNotClosedAgain(run: seq<Action>, j: nat, k: nat)
    requires IsRun(run) && j < k < |run| && run[j] == CloseStop
    ensures run[k] != CloseStop
  {
    hide Reach;
    StepIsEnabled(run, j);
    StepIsEnabled(run, k);
    assert run[..k][..j + 1] == run[..j + 1];
    StoppedStays(run[..k], j + 1);
  }

  /** Once the sinks are closed nothing is processed any more. */
  lemma NothingAfterSinksClose(run: seq<Action>, j: nat, k: nat)
    requires IsRun(run) && j < k < |run| && run[j] == CloseSinks
    ensures run[k] != Finish
  {
    hide Reach;
    StepIsEnabled(run, j);
    StepIsEnabled(run, k);
    assert run[..k][..j + 1] == run[..j + 1];
    ExitedStays(run[..k], j + 1);
  }

  /** A flush called after the worker returned never comes back but by its timeout. */
  lemma LateFlushGivesUp(run: seq<Action>, e: nat, m: nat, f: nat)
    requires IsRun(run) && e < m < |run| && run[e] == Exit && Begins(run[m], f)
    ensures f in Reach(run).flushers ==> Reach(run).flushers[f] != Flushed
  {
    hide Events, Marks, MarksOnce, InBounds, Accepted, Next, Reach;
    StepIsEnabled(run, e);
    StepIsEnabled(run, m);
    ExitReturns(Reach(run[..e]));
    ExitedStays(run, e + 1);
    var x := ExitedProcessedAll(run);
    if f in Reach(run).flushers && Reach(run).flushers[f] == Flushed {
      FlushedIsClosed(run, f);
      var k := MarkWasSent(run[..x], f);
      SentAfterBegun(run, m, k, f);
      StepIsEnabled(run, x);
      ExitedStaysBetween(run, e, x);
    }
  }

  lemma ExitReturns(s: State)
    requires Enabled(s, Exit)
    ensures Next(s, Exit).worker == Exited
  {
  }

  lemma ExitedStaysBetween(run: seq<Action>, e: nat, x: nat)
    requires IsRun(run) && e < x < |run| && run[e] == Exit
    ensures run[x] != Exit
  {
    hide Reach;
    StepIsEnabled(run, e);
    StepIsEnabled(run, x);
    assert run[..x][..e + 1] == run[..e + 1];
    ExitedStays(run[..x], e + 1);
  }
}
