/** The outage lifecycle (internal/database/store_outages.go and
    internal/agent/monitor_connectivity.go): tracker, single open row, availability.

    Times and durations are microseconds. */
module Outages {
  import opened Wrappers
  import T = Connectivity

  datatype Outage = Outage(start: int, ended: Option<int>, durationMs: Option<nat>, cause: string, resolved: bool,
                           diagnostics: nat)

  /** The outages table; ids are handed out in order from 1 and never reused. */
  datatype Table = Table(rows: map<int, Outage>, nextId: int)

  const HEALTHY := "HEALTHY"

  // ----- Statements on the table --------------------------------------------------------

  function Unresolved(t: Table): set<int> {
    set id | id in t.rows && !t.rows[id].resolved
  }

  /** WHERE resolved = 0 ORDER BY started_at DESC LIMIT 1. */
  predicate IsCurrent(t: Table, cur: Option<int>) {
    if cur.None? then Unresolved(t) == {}
    else cur.value in Unresolved(t) && forall id :: id in Unresolved(t) ==> t.rows[id].start <= t.rows[cur.value].start
  }

  /** OpenOutage, given the outage that is already open, if any. */
  function Opened(t: Table, cur: Option<int>, start: int, cause: string): (Table, int)
    requires IsCurrent(t, cur)
  {
    if cur.Some? then
      var row := t.rows[cur.value];
      (t.(rows := t.rows[cur.value := row.(diagnostics := row.diagnostics + 1, cause := cause)]), cur.value)
    else
      (Table(t.rows[t.nextId := Outage(start, None, None, cause, false, 1)], t.nextId + 1), t.nextId)
  }

  /** Rounded to the millisecond, and never negative. */
  function DurationMs(start: int, end: int): nat {
    if end <= start then 0 else (end - start + 500) / 1000
  }

  function Closed(t: Table, id: int, end: int): Table {
    if id !in t.rows then t
    else
      var row := t.rows[id];
      var closed := row.(ended := Some(end), durationMs := Some(DurationMs(row.start, end)), resolved := true);
      t.(rows := t.rows[id := closed])
  }

  /** Retention: a resolved outage goes when it started too long ago, an open one never. */
  function Expired(t: Table, cutoff: int): Table {
    t.(rows := map id | id in t.rows && !(t.rows[id].resolved && t.rows[id].start < cutoff) :: t.rows[id])
  }

  lemma ExpiredSays(t: Table, cutoff: int)
    ensures var u := Expired(t, cutoff);
            && u.nextId == t.nextId
            && (forall id :: id in u.rows <==> id in t.rows && (t.rows[id].resolved ==> t.rows[id].start >= cutoff))
            && (forall id :: id in u.rows ==> u.rows[id] == t.rows[id])
            && Unresolved(u) == Unresolved(t) && forall cur :: IsCurrent(u, cur) <==> IsCurrent(t, cur)
  {
    assert Unresolved(Expired(t, cutoff)) == Unresolved(t);
  }

  lemma ExpiredIsLess(t: Table, cutoff: int, gone: set<int>)
    requires gone == set id | id in t.rows && t.rows[id].resolved && t.rows[id].start < cutoff
    ensures t.rows - gone == Expired(t, cutoff).rows && |t.rows - gone| == |t.rows| - |gone|
  {
    var left := t.rows - gone;
    assert t.rows.Keys == left.Keys + gone && left.Keys !! gone;
    assert |t.rows| == |t.rows.Keys| && |left| == |left.Keys|;
  }

  // ----- The monitor as a state machine ---------------------------------------------------

  datatype State = State(tracker: T.State, outageID: int, lastDiagnosis: string, table: Table)

  datatype Event =
    | Check(ok: bool, now: int, diagnosis: string, later: int)
    | Restart(failures: int, successes: int, now: int)
    | Retain(cutoff: int, now: int)

  function WithOpening(s: State, cur: Option<int>, diagnosis: string, later: int): State
    requires IsCurrent(s.table, cur)
  {
    if diagnosis == HEALTHY then
      s.(tracker := T.Record(s.tracker, true, later).0, lastDiagnosis := diagnosis)
    else
      var (table, id) := Opened(s.table, cur, s.tracker.openedAt, diagnosis);
      State(s.tracker.(cause := diagnosis), id, diagnosis, table)
  }

  function WithClosing(s: State, now: int): State {
    if s.outageID != 0 then s.(table := Closed(s.table, s.outageID, now), outageID := 0) else s
  }

  function Checked(s: State, cur: Option<int>, ok: bool, now: int, diagnosis: string, later: int): State
    requires IsCurrent(s.table, cur)
  {
    var (tracker, transition) := T.Record(s.tracker, ok, now);
    var s1 := s.(tracker := tracker);
    if transition == T.Open then WithOpening(s1, cur, diagnosis, later)
    else if transition == T.Close then WithClosing(s1, now)
    else if tracker.open && tracker.fail % 4 == 0 then s1.(lastDiagnosis := diagnosis)
    else s1
  }

  /** A new process: blank tracker and fields, then Restore adopts an open row. */
  function Restarted(t: Table, cur: Option<int>, failures: int, successes: int): State
    requires IsCurrent(t, cur)
  {
    var blank := T.Initial(failures, successes);
    if cur.None? then State(blank, 0, "", t)
    else State(T.Resume(blank, t.rows[cur.value].start, t.rows[cur.value].cause), cur.value, "", t)
  }

  function Applied(s: State, cur: Option<int>, e: Event): State
    requires IsCurrent(s.table, cur)
  {
    match e
    case Check(ok, now, diagnosis, later) => Checked(s, cur, ok, now, diagnosis, later)
    case Restart(failures, successes, _) => Restarted(s.table, cur, failures, successes)
    case Retain(cutoff, _) => s.(table := Expired(s.table, cutoff))
  }

  ghost predicate Next(s: State, e: Event, s': State) {
    exists cur :: IsCurrent(s.table, cur) && s' == Applied(s, cur, e)
  }

  // ----- The invariant ---------------------------------------------------------------------

  /** The rows are half-open intervals of which at most the last has no end yet. */
  predicate Before(a: Outage, b: Outage) {
    a.ended.Some? && a.ended.value <= b.start
  }

  ghost predicate Disjoint(rows: map<int, Outage>) {
    forall i, j :: i in rows && j in rows && i != j ==> Before(rows[i], rows[j]) || Before(rows[j], rows[i])
  }

  ghost predicate WellFormed(row: Outage, clock: int) {
    && row.start <= clock
    && (row.resolved <==> row.ended.Some?)
    && (row.ended.Some? ==> row.start <= row.ended.value <= clock)
  }

  ghost predicate Inv(s: State, clock: int) {
    && s.table.nextId >= 1
    && (forall id :: id in s.table.rows ==> 0 < id < s.table.nextId && WellFormed(s.table.rows[id], clock))
    && (forall id :: id in s.table.rows && !s.table.rows[id].resolved <==> id == s.outageID && s.outageID != 0)
    && (s.outageID != 0 ==> s.tracker.open)
    && (s.tracker.open ==> s.tracker.openedAt <= clock)
    && s.tracker.n >= 1 && s.tracker.m >= 1
    && Disjoint(s.table.rows)
  }

  ghost predicate Start(s: State) {
    && s.outageID == 0 && !s.tracker.open && s.tracker.n >= 1 && s.tracker.m >= 1
    && s.table == Table(map[], 1)
  }

  lemma UnresolvedIsTheOpenRow(s: State, clock: int)
    requires Inv(s, clock)
    ensures Unresolved(s.table) == if s.outageID == 0 then {} else {s.outageID}
  {
    forall id
      ensures id in Unresolved(s.table) <==> id == s.outageID && s.outageID != 0
    {
      assert id in Unresolved(s.table) <==> id in s.table.rows && !s.table.rows[id].resolved;
    }
  }

  lemma CurrentIsTheOpenRow(s: State, clock: int, cur: Option<int>)
    requires Inv(s, clock) && IsCurrent(s.table, cur)
    ensures cur == if s.outageID == 0 then None else Some(s.outageID)
  {
    UnresolvedIsTheOpenRow(s, clock);
    if s.outageID != 0 {
      assert s.outageID in Unresolved(s.table);
    }
  }

  /** Opening appends one row behind all others; it never lands on an existing one. */
  lemma OpeningInserts(s: State, clock: int, cur: Option<int>, now: int, diagnosis: string, later: int)
    requires Inv(s, clock) && clock <= now && IsCurrent(s.table, cur)
    requires T.Record(s.tracker, false, now).1 == T.Open && diagnosis != HEALTHY
    ensures var s' := Checked(s, cur, false, now, diagnosis, later);
            && s'.outageID == s.table.nextId && s'.outageID !in s.table.rows
            && s'.table.rows == s.table.rows[s'.outageID := Outage(now, None, None, diagnosis, false, 1)]
            && Inv(s', now)
  {
    CurrentIsTheOpenRow(s, clock, cur);
  }

  lemma ClosingResolves(s: State, clock: int, now: int)
    requires Inv(s.(tracker := s.tracker.(open := true)), clock) && clock <= now
    requires s.tracker.openedAt <= clock && !s.tracker.open
    ensures Inv(WithClosing(s, now), now) && WithClosing(s, now).outageID == 0
  {
    if s.outageID != 0 {
      var id, rows, rows' := s.outageID, s.table.rows, WithClosing(s, now).table.rows;
      assert id in rows && !rows[id].resolved;
      forall i, j | i in rows' && j in rows' && i != j
        ensures Before(rows'[i], rows'[j]) || Before(rows'[j], rows'[i])
      {
        assert Before(rows[i], rows[j]) || Before(rows[j], rows[i]);
      }
    }
  }

  /** What every step keeps. */
  lemma StepKeeps(s: State, clock: int, e: Event, s': State)
    requires Inv(s, clock) && clock <= e.now && Next(s, e, s')
    ensures Inv(s', e.now)
  {
    var cur :| IsCurrent(s.table, cur) && s' == Applied(s, cur, e);
    CurrentIsTheOpenRow(s, clock, cur);
    if e.Check? {
      var (tracker, transition) := T.Record(s.tracker, e.ok, e.now);
      if transition == T.Open && e.diagnosis != HEALTHY {
        OpeningInserts(s, clock, cur, e.now, e.diagnosis, e.later);
      } else if transition == T.Close {
        ClosingResolves(s.(tracker := tracker), clock, e.now);
      }
    }
  }

  ghost predicate IsRun(states: seq<State>, events: seq<Event>) {
    && |states| == |events| + 1
    && Start(states[0])
    && (forall i :: 0 <= i < |events| ==> Next(states[i], events[i], states[i + 1]))
    && (forall i, j :: 0 <= i <= j < |events| ==> events[i].now <= events[j].now)
  }

  /** Over every run of checks, restarts and retention with nondecreasing times. */
  lemma {:induction false} RunKeeps(states: seq<State>, events: seq<Event>, k: nat)
    requires IsRun(states, events) && k < |states|
    ensures Inv(states[k], ClockAt(events, k))
  {
    if k > 0 {
      RunKeeps(states, events, k - 1);
      StepKeeps(states[k - 1], ClockAt(events, k - 1), events[k - 1], states[k]);
    }
  }

  /** At most one row is unresolved, the monitor names it, it implies an open tracker, and the
      rows never overlap. */
  lemma RunIsSafe(states: seq<State>, events: seq<Event>, k: nat)
    requires IsRun(states, events) && k < |states|
    ensures var s := states[k];
            && Unresolved(s.table) == (if s.outageID == 0 then {} else {s.outageID})
            && (Unresolved(s.table) != {} ==> s.tracker.open)
            && Disjoint(s.table.rows)
  {
    RunKeeps(states, events, k);
    UnresolvedIsTheOpenRow(states[k], ClockAt(events, k));
  }

  /** The converse fails: a HEALTHY diagnosis leaves the tracker open with no row. */
  lemma HealthyDiagnosisLeavesNoRow()
    ensures var s := State(T.Initial(1, 2), 0, "", Table(map[], 1));
            var s' := Checked(s, None, false, 10, HEALTHY, 11);
            Start(s) && Next(s, Check(false, 10, HEALTHY, 11), s') && s'.tracker.open && Unresolved(s'.table) == {}
  {
    var s := State(T.Initial(1, 2), 0, "", Table(map[], 1));
    assert IsCurrent(s.table, None);
    assert Checked(s, None, false, 10, HEALTHY, 11) == Applied(s, None, Check(false, 10, HEALTHY, 11));
  }

  /** It holds again exactly when one success closes: then the healthy check itself closes it. */
  lemma OpeningLeavesARowIff(s: State, clock: int, cur: Option<int>, now: int, diagnosis: string, later: int)
    requires Inv(s, clock) && clock <= now && IsCurrent(s.table, cur)
    requires T.Record(s.tracker, false, now).1 == T.Open
    ensures var s' := Checked(s, cur, false, now, diagnosis, later);
            (s'.tracker.open ==> s'.outageID != 0) <==> diagnosis != HEALTHY || s.tracker.m == 1
  {
    CurrentIsTheOpenRow(s, clock, cur);
  }

  /** While an outage stays open a check diagnoses again at every fourth failure in a row, and at every
      success: its streak of failures is zero. */
  lemma OpenCheckDiagnosesIff(s: State, cur: Option<int>, ok: bool, now: int, diagnosis: string, later: int)
    requires IsCurrent(s.table, cur) && s.tracker.open && diagnosis != s.lastDiagnosis
    requires ok ==> s.tracker.ok + 1 < s.tracker.m
    ensures Checked(s, cur, ok, now, diagnosis, later).lastDiagnosis == diagnosis <==>
            ok || (s.tracker.fail + 1) % 4 == 0
  {
  }

  /** Each opening check is diagnosed as an outage, or one success closes it again. */
  ghost predicate OpeningsAreOutages(states: seq<State>, events: seq<Event>)
    requires |states| == |events| + 1
  {
    forall i :: 0 <= i < |events| ==> IsOutage(states[i], events[i])
  }

  predicate IsOutage(s: State, e: Event) {
    e.Check? && T.Record(s.tracker, e.ok, e.now).1 == T.Open ==> e.diagnosis != HEALTHY || s.tracker.m == 1
  }

  predicate OpenHasRow(s: State) {
    s.tracker.open ==> s.outageID != 0
  }

  lemma OpenHasRowStep(s: State, clock: int, e: Event, s': State)
    requires Inv(s, clock) && clock <= e.now && Next(s, e, s') && OpenHasRow(s)
    ensures OpenHasRow(s') <==> IsOutage(s, e)
  {
    var cur :| IsCurrent(s.table, cur) && s' == Applied(s, cur, e);
    CurrentIsTheOpenRow(s, clock, cur);
    if e.Check? && T.Record(s.tracker, e.ok, e.now).1 == T.Open {
      OpeningLeavesARowIff(s, clock, cur, e.now, e.diagnosis, e.later);
    } else if e.Restart? && cur.Some? {
      assert cur.value in s.table.rows;
    }
  }

  function ClockAt(events: seq<Event>, k: nat): int
    requires k <= |events|
  {
    if k > 0 then events[k - 1].now else if events == [] then 0 else events[0].now
  }

  /** Over a whole run an open tracker always has its row exactly when every opening check is
      diagnosed as an outage, or one success closes it again. */
  lemma OpenHasRowIff(states: seq<State>, events: seq<Event>)
    requires IsRun(states, events)
    ensures (forall k :: 0 <= k < |states| ==> OpenHasRow(states[k])) <==> OpeningsAreOutages(states, events)
  {
    hide Inv, Next, Start, IsOutage, OpenHasRow;
    if forall k :: 0 <= k < |states| ==> OpenHasRow(states[k]) {
      forall i | 0 <= i < |events| ensures IsOutage(states[i], events[i]) {
        RunKeeps(states, events, i);
        assert OpenHasRow(states[i]) && OpenHasRow(states[i + 1]);
        OpenHasRowStep(states[i], ClockAt(events, i), events[i], states[i + 1]);
      }
    }
    if OpeningsAreOutages(states, events) {
      forall k | 0 <= k < |states| ensures OpenHasRow(states[k]) {
        OutagesHaveRows(states, events, k);
      }
    }
  }

  lemma {:induction false} OutagesHaveRows(states: seq<State>, events: seq<Event>, k: nat)
    requires IsRun(states, events) && OpeningsAreOutages(states, events) && k < |states|
    ensures OpenHasRow(states[k])
  {
    hide Inv, Next, IsOutage;
    if k > 0 {
      OutagesHaveRows(states, events, k - 1);
      RunKeeps(states, events, k - 1);
      OpenHasRowStep(states[k - 1], ClockAt(events, k - 1), events[k - 1], states[k]);
    }
  }

  // ----- The store and the monitor as objects -------------------------------------------------

  /** cur starts last among the ids, if there are any. */
  predicate IsNewest(rows: map<int, Outage>, ids: set<int>, cur: Option<int>) {
    && ids <= rows.Keys
    && (cur.None? <==> ids == {})
    && (cur.Some? ==> cur.value in ids && forall id :: id in ids ==> rows[id].start <= rows[cur.value].start)
  }

  lemma NewestGrows(rows: map<int, Outage>, ids: set<int>, cur: Option<int>, id: int)
    requires IsNewest(rows, ids, cur) && id in rows
    ensures IsNewest(rows, ids + {id}, if cur.None? || rows[cur.value].start < rows[id].start then Some(id) else cur)
  {
    assert id in ids + {id};
  }

  class OutageStore {
    var rows: map<int, Outage>
    var nextId: int

    ghost function Contents(): Table
      reads this
    {
      Table(rows, nextId)
    }

    constructor ()
      ensures Contents() == Table(map[], 1)
    {
      rows, nextId := map[], 1;
    }

    method CurrentOutage() returns (cur: Option<int>)
      ensures IsCurrent(Contents(), cur)
    {
      cur := None;
      var todo := set id | id in rows && !rows[id].resolved;
      assert todo == Unresolved(Contents());
      while todo != {}
        invariant todo <= Unresolved(Contents())
        invariant IsNewest(rows, Unresolved(Contents()) - todo, cur)
        decreases |todo|
      {
        HasMember(todo);
        var id :| id in todo;
        NewestGrows(rows, Unresolved(Contents()) - todo, cur, id);
        assert Unresolved(Contents()) - (todo - {id}) == Unresolved(Contents()) - todo + {id};
        todo := todo - {id};
        if cur.None? || rows[cur.value].start < rows[id].start {
          cur := Some(id);
        }
      }
      assert Unresolved(Contents()) - todo == Unresolved(Contents());
    }

    method OpenOutage(start: int, cause: string) returns (id: int, ghost cur: Option<int>)
      modifies this
      ensures IsCurrent(old(Contents()), cur)
      ensures (Contents(), id) == Opened(old(Contents()), cur, start, cause)
      ensures id in rows && !rows[id].resolved && rows[id].cause == cause && rows == old(rows)[id := rows[id]]
      ensures if cur.Some? then id == cur.value && rows[id].start == old(rows)[id].start && nextId == old(nextId)
                                && rows[id].diagnostics == old(rows)[id].diagnostics + 1
              else id == old(nextId) && nextId == id + 1 && rows[id].start == start && rows[id].diagnostics == 1
    {
      var found := CurrentOutage();
      cur := found;
      if found.Some? {
        id := found.value;
        rows := rows[id := rows[id].(diagnostics := rows[id].diagnostics + 1, cause := cause)];
      } else {
        id := nextId;
        rows := rows[id := Outage(start, None, None, cause, false, 1)];
        nextId := nextId + 1;
      }
    }

    /** Resolves a row and returns its duration; an unknown id changes nothing. */
    method CloseOutage(id: int, end: int) returns (durationMs: nat)
      modifies this
      ensures Contents() == Closed(old(Contents()), id, end)
      ensures if id in old(rows) then rows[id].durationMs == Some(durationMs)
                && (if end <= old(rows)[id].start then durationMs == 0
                    else end - old(rows)[id].start - 500 < 1000 * durationMs <= end - old(rows)[id].start + 500)
              else durationMs == 0
      ensures if id in old(rows)
              then && rows[id].resolved && rows[id].ended == Some(end) && rows[id].start == old(rows)[id].start
                   && rows[id].cause == old(rows)[id].cause && rows == old(rows)[id := rows[id]]
              else rows == old(rows)
    {
      if id !in rows {
        return 0;
      }
      var row := rows[id];
      durationMs := DurationMs(row.start, end);
      rows := rows[id := row.(ended := Some(end), durationMs := Some(durationMs), resolved := true)];
    }

    /** Deletes the resolved outages that started before the cutoff: an unresolved one survives,
        however old, so what is unresolved and what is current stay as they were. */
    method PruneResolved(cutoff: int) returns (n: nat)
      modifies this`rows
      ensures forall id :: id in rows <==> id in old(rows) && (old(rows)[id].resolved ==> old(rows)[id].start >= cutoff)
      ensures forall id :: id in rows ==> rows[id] == old(rows)[id]
      ensures n == |old(rows)| - |rows|
      ensures Unresolved(Contents()) == Unresolved(old(Contents()))
      ensures forall cur :: IsCurrent(Contents(), cur) <==> IsCurrent(old(Contents()), cur)
      ensures Contents() == Expired(old(Contents()), cutoff)
    {
      hide Unresolved, IsCurrent, Expired;
      ExpiredSays(Contents(), cutoff);
      var gone := set id | id in rows && rows[id].resolved && rows[id].start < cutoff;
      ExpiredIsLess(Contents(), cutoff, gone);
      n := |gone|;
      rows := rows - gone;
    }

    /** Uptime over a window; rows come back in any order. Overlapping rows would count twice; of
        disjoint ones, as RunIsSafe keeps them, the downtime is the measure of their union. */
    method AvailabilitySince(since: int, until: int) returns (a: Availability)
      ensures a.window == until - since
      ensures a.downtime == |Moments(rows, Selected(rows, since, until), since, until)|
      ensures a.outages == |Selected(rows, since, until)|
      ensures forall c :: CountOf(a.byCause, c) == |WithCause(rows, Selected(rows, since, until), c)|
      ensures IsLongest(a.longest, rows, Selected(rows, since, until), since, until) && a.longest <= a.downtime
      ensures IsPercent(a.percent, a.window, a.downtime)
      ensures IsMtbf(a.mtbf, a.window, a.downtime, a.outages)
      ensures Disjoint(rows) ==> a.downtime == |DownInstants(rows, since, until)|
    {
      hide Disjoint, IsLongest, UnionOf, Selected, DownInstants, Moments, WithCause, Tally, TruncatedDiv;
      var window := until - since;
      var downtime: nat, longest: nat, outages: nat := 0, 0, 0;
      var byCause: map<string, nat> := map[];
      var todo := SelectedRows(since, until);
      ghost var done: set<int> := {};
      NothingTallied(rows, since, until);
      while todo != {}
        invariant done + todo == Selected(rows, since, until) && done !! todo && done + todo <= rows.Keys
        invariant Tally(downtime, longest, outages, rows, done, since, until)
        invariant forall c :: CountOf(byCause, c) == |WithCause(rows, done, c)|
        decreases |todo|
      {
        HasMember(todo);
        var id :| id in todo;
        var row := rows[id];
        var start := if row.start < since then since else row.start;
        var end := if row.ended.None? || row.ended.value > until then until else row.ended.value;
        TallyOne(downtime, longest, outages, rows, done, since, until, id);
        if end - start > 0 {
          downtime := downtime + (end - start);
          if end - start > longest {
            longest := end - start;
          }
        }
        outages := outages + 1;
        CauseCounts(rows, done, id);
        byCause := byCause[row.cause := CountOf(byCause, row.cause) + 1];
        todo, done := todo - {id}, done + {id};
      }
      assert done == Selected(rows, since, until);
      TallySays(downtime, longest, outages, rows, done, since, until);
      if Disjoint(rows) {
        DisjointMoments(rows, done, since, until);
        AllDowntimeIsSelected(rows, since, until);
      }
      var percent := Percent(window, downtime);
      var mtbf := 0;
      if outages > 0 {
        mtbf := TruncatedDiv(window - downtime, outages);
        DividesTruncating(window - downtime, outages);
      }
      hide IsPercent, IsMtbf;
      a := Availability(window, downtime, percent, outages, longest, mtbf, byCause);
    }

    method Percent(window: int, downtime: nat) returns (percent: real)
      ensures IsPercent(percent, window, downtime)
    {
      percent := 100.0;
      if window > 0 {
        var up := window - downtime;
        if up < 0 {
          up := 0;
        }
        percent := up as real / window as real * 100.0;
        Share(up as real, window as real);
      }
    }

    /** The rows that touch the window; one that only touches it still counts. */
    method SelectedRows(since: int, until: int) returns (ids: set<int>)
      ensures ids == Selected(rows, since, until) && ids <= rows.Keys
    {
      ids := set id | id in rows && (rows[id].ended.None? || rows[id].ended.value >= since) && rows[id].start <= until;
    }
  }

  class ConnectivityMonitor {
    var tracker: T.Tracker
    const db: OutageStore
    var outageID: int
    var lastDiagnosis: string

    ghost function Now(): State
      reads this, tracker, db
    {
      State(tracker.Now(), outageID, lastDiagnosis, db.Contents())
    }

    /** A new process over the stored rows; Restore adopts the one that is still open. */
    constructor (db: OutageStore, failures: int, successes: int)
      ensures this.db == db && fresh(tracker)
      ensures Now() == State(T.Initial(failures, successes), 0, "", db.Contents())
    {
      this.db, outageID, lastDiagnosis := db, 0, "";
      tracker := new T.Tracker(failures, successes);
    }

    method Restore() returns (ghost cur: Option<int>)
      requires outageID == 0
      modifies this, tracker
      ensures tracker == old(tracker) && IsCurrent(db.Contents(), cur)
      ensures forall n, m :: old(Now()) == State(T.Initial(n, m), 0, "", db.Contents()) ==>
          Now() == Restarted(db.Contents(), cur, n, m)
    {
      var found := db.CurrentOutage();
      cur := found;
      if found.None? {
        return;
      }
      outageID := found.value;
      tracker.ResumeOutage(db.rows[found.value].start, db.rows[found.value].cause);
    }

    /** One health check, with the outcome of the diagnosis it may trigger. */
    method RunCheck(ok: bool, now: int, diagnosis: string, later: int) returns (ghost cur: Option<int>)
      modifies this, tracker, db
      ensures tracker == old(tracker) && IsCurrent(old(db.Contents()), cur)
      ensures Now() == Checked(old(Now()), cur, ok, now, diagnosis, later)
    {
      var found := db.CurrentOutage();
      cur := found;
      var transition := tracker.RecordCheck(ok, now);
      if transition == T.Open {
        cur := StartOutage(diagnosis, later);
      } else if transition == T.Close {
        EndOutage(now);
      } else if tracker.open && tracker.consecutiveFail % 4 == 0 {
        lastDiagnosis := diagnosis;
      }
    }

    /** Escalates to the diagnosis; a HEALTHY one is no outage. */
    method StartOutage(diagnosis: string, later: int) returns (ghost cur: Option<int>)
      modifies this, tracker, db
      ensures tracker == old(tracker) && IsCurrent(old(db.Contents()), cur)
      ensures Now() == WithOpening(old(Now()), cur, diagnosis, later)
    {
      lastDiagnosis := diagnosis;
      var found := db.CurrentOutage();
      cur := found;
      if diagnosis == HEALTHY {
        var ignored := tracker.RecordCheck(true, later);
        return;
      }
      var id;
      id, cur := db.OpenOutage(tracker.openedAt, diagnosis);
      outageID := id;
      tracker.SetClassification(diagnosis);
    }

    method EndOutage(now: int)
      modifies this, db
      ensures tracker == old(tracker)
      ensures Now() == WithClosing(old(Now()), now)
    {
      if outageID != 0 {
        var duration := db.CloseOutage(outageID, now);
        outageID := 0;
      }
    }
  }

  // ----- Availability ----------------------------------------------------------------------------

  datatype Availability = Availability(window: int, downtime: nat, percent: real, outages: nat, longest: nat, mtbf: int,
                                       byCause: map<string, nat>)

  /** Go's integer division. */
  function TruncatedDiv(a: int, b: int): int
    requires b > 0
  {
    if a >= 0 then a / b else -(-a / b)
  }

  /** The share of the window that is not downtime, in percent; an empty window counts as all up. */
  ghost predicate IsPercent(percent: real, window: int, downtime: nat) {
    if window <= 0 then percent == 100.0
    else if downtime > window then percent == 0.0
    else percent * window as real == 100.0 * (window - downtime) as real
  }

  /** The time up for each outage, in whole microseconds toward zero; zero without outages. */
  ghost predicate IsMtbf(mtbf: int, window: int, downtime: nat, outages: nat) {
    if outages == 0 then mtbf == 0
    else if downtime <= window then outages * mtbf <= window - downtime < outages * (mtbf + 1)
    else outages * (mtbf - 1) < window - downtime <= outages * mtbf
  }

  lemma Share(up: real, window: real)
    requires window > 0.0
    ensures up / window * 100.0 * window == 100.0 * up
    ensures up == 0.0 ==> up / window * 100.0 == 0.0
  {
    assert up / window * window == up;
  }

  lemma DividesTruncating(a: int, b: int)
    requires b > 0
    ensures a >= 0 ==> b * TruncatedDiv(a, b) <= a < b * (TruncatedDiv(a, b) + 1)
    ensures a < 0 ==> b * (TruncatedDiv(a, b) - 1) < a <= b * TruncatedDiv(a, b)
  {
  }

  /** The row covers the microsecond that starts at t. */
  predicate Covers(row: Outage, t: int) {
    row.start <= t && (row.ended.None? || t < row.ended.value)
  }

  ghost predicate DownAt(rows: map<int, Outage>, ids: set<int>, t: int)
    requires ids <= rows.Keys
  {
    exists id :: id in ids && Covers(rows[id], t)
  }

  ghost function UnionOf(rows: map<int, Outage>, ids: set<int>, since: int, until: int): set<int>
    requires ids <= rows.Keys
  {
    set t | since <= t < until && DownAt(rows, ids, t)
  }

  /** The instants of the window at which some row says the connection was down. */
  ghost function DownInstants(rows: map<int, Outage>, since: int, until: int): set<int> {
    UnionOf(rows, rows.Keys, since, until)
  }

  ghost function Selected(rows: map<int, Outage>, since: int, until: int): (ids: set<int>)
    ensures ids <= rows.Keys
  {
    set id | id in rows && (rows[id].ended.None? || rows[id].ended.value >= since) && rows[id].start <= until
  }

  ghost function Instants(row: Outage, since: int, until: int): set<int> {
    set t | since <= t < until && Covers(row, t)
  }

  /** Each instant of each row, in the window: overlapping rows count twice. */
  datatype Moment = Moment(id: int, t: int)

  ghost function Moments(rows: map<int, Outage>, ids: set<int>, since: int, until: int): set<Moment>
    requires ids <= rows.Keys
  {
    set id, t | id in ids && t in Instants(rows[id], since, until) :: Moment(id, t)
  }

  function CountOf(counts: map<string, nat>, cause: string): nat {
    if cause in counts then counts[cause] else 0
  }

  ghost function WithCause(rows: map<int, Outage>, ids: set<int>, cause: string): set<int>
    requires ids <= rows.Keys
  {
    set id | id in ids && rows[id].cause == cause
  }

  lemma CauseCounts(rows: map<int, Outage>, done: set<int>, id: int)
    requires done <= rows.Keys && id in rows && id !in done
    ensures forall c ::
        |WithCause(rows, done + {id}, c)| == |WithCause(rows, done, c)| + if c == rows[id].cause then 1 else 0
    ensures forall c :: WithCause(rows, {}, c) == {}
  {
    forall c
      ensures |WithCause(rows, done + {id}, c)| == |WithCause(rows, done, c)| + if c == rows[id].cause then 1 else 0
    {
      if c == rows[id].cause {
        assert WithCause(rows, done + {id}, c) == WithCause(rows, done, c) + {id};
      } else {
        assert WithCause(rows, done + {id}, c) == WithCause(rows, done, c);
      }
    }
  }

  ghost predicate IsLongest(n: nat, rows: map<int, Outage>, ids: set<int>, since: int, until: int)
    requires ids <= rows.Keys
  {
    && (forall id :: id in ids ==> |Instants(rows[id], since, until)| <= n)
    && (n > 0 ==> exists id :: id in ids && |Instants(rows[id], since, until)| == n)
  }

  /** The running totals over the rows seen so far. */
  ghost predicate Tally(downtime: nat, longest: nat, outages: nat, rows: map<int, Outage>, done: set<int>,
                        since: int, until: int) {
    && done <= rows.Keys && outages == |done|
    && downtime == |Moments(rows, done, since, until)|
    && IsLongest(longest, rows, done, since, until) && longest <= downtime
  }

  lemma TallySays(downtime: nat, longest: nat, outages: nat, rows: map<int, Outage>, done: set<int>, since: int,
                  until: int)
    requires Tally(downtime, longest, outages, rows, done, since, until)
    ensures done <= rows.Keys && outages == |done| && downtime == |Moments(rows, done, since, until)|
    ensures IsLongest(longest, rows, done, since, until) && longest <= downtime
  {
  }

  predicate Within(t: int, a: int, b: int) {
    a <= t < b
  }

  ghost function Span(a: int, b: int): set<int> {
    set t | a <= t < b && Within(t, a, b)
  }

  lemma {:induction false} SpanSize(a: int, b: int)
    ensures |Span(a, b)| == if a < b then b - a else 0
    decreases b - a
  {
    if a < b {
      SpanSize(a + 1, b);
      assert Span(a, b) == {a} + Span(a + 1, b) by {
        assert forall t :: Within(t, a, b) <==> t == a || Within(t, a + 1, b);
      }
    } else {
      assert Span(a, b) == {};
    }
  }

  /** What is left of a row after clipping it to the window. */
  function ClippedLength(row: Outage, since: int, until: int): nat {
    var start := if row.start < since then since else row.start;
    var end := if row.ended.None? || row.ended.value > until then until else row.ended.value;
    if end - start > 0 then end - start else 0
  }

  lemma ClippedSize(row: Outage, since: int, until: int)
    ensures |Instants(row, since, until)| == ClippedLength(row, since, until)
  {
    var start := if row.start < since then since else row.start;
    var end := if row.ended.None? || row.ended.value > until then until else row.ended.value;
    assert Instants(row, since, until) == Span(start, end) by {
      assert forall t :: Within(t, start, end) <==> since <= t < until && Covers(row, t);
    }
    SpanSize(start, end);
  }

  lemma NothingTallied(rows: map<int, Outage>, since: int, until: int)
    ensures Tally(0, 0, 0, rows, {}, since, until)
    ensures forall c :: |WithCause(rows, {}, c)| == 0
  {
    assert Moments(rows, {}, since, until) == {};
    assert forall c :: WithCause(rows, {}, c) == {};
  }

  /** Disjoint rows add up: one more row adds exactly its own clipped length. */
  lemma UnionGrows(rows: map<int, Outage>, done: set<int>, since: int, until: int, id: int)
    requires Disjoint(rows) && done <= rows.Keys && id in rows && id !in done
    ensures |UnionOf(rows, done + {id}, since, until)|
        == |UnionOf(rows, done, since, until)| + ClippedLength(rows[id], since, until)
  {
    ClippedSize(rows[id], since, until);
    var union, more := UnionOf(rows, done, since, until), Instants(rows[id], since, until);
    forall t
      ensures DownAt(rows, done + {id}, t) <==> DownAt(rows, done, t) || Covers(rows[id], t)
    {
      if Covers(rows[id], t) {
        assert id in done + {id};
      }
    }
    assert UnionOf(rows, done + {id}, since, until) == union + more;
    forall t | t in union
      ensures t !in more
    {
      var other :| other in done && Covers(rows[other], t);
      assert Before(rows[other], rows[id]) || Before(rows[id], rows[other]);
    }
  }

  /** The instants of one row, as moments. */
  ghost function MomentsOf(id: int, ts: set<int>): set<Moment> {
    set t | t in ts :: Moment(id, t)
  }

  lemma {:induction false} AsManyMoments(id: int, ts: set<int>)
    ensures |MomentsOf(id, ts)| == |ts|
    decreases |ts|
  {
    if ts == {} {
      assert MomentsOf(id, ts) == {};
    } else {
      HasMember(ts);
      var t :| t in ts;
      AsManyMoments(id, ts - {t});
      assert MomentsOf(id, ts) == MomentsOf(id, ts - {t}) + {Moment(id, t)};
    }
  }

  /** One more row adds exactly its own clipped length, whether it overlaps or not. */
  lemma MomentsGrow(rows: map<int, Outage>, done: set<int>, since: int, until: int, id: int)
    requires done <= rows.Keys && id in rows && id !in done
    ensures |Moments(rows, done + {id}, since, until)|
         == |Moments(rows, done, since, until)| + ClippedLength(rows[id], since, until)
  {
    hide Instants;
    var more := MomentsOf(id, Instants(rows[id], since, until));
    AsManyMoments(id, Instants(rows[id], since, until));
    ClippedSize(rows[id], since, until);
    var was := Moments(rows, done, since, until);
    assert Moments(rows, done + {id}, since, until) == was + more;
    assert was !! more;
  }

  /** The moments of disjoint rows are the instants of their union. */
  lemma {:induction false} DisjointMoments(rows: map<int, Outage>, ids: set<int>, since: int, until: int)
    requires Disjoint(rows) && ids <= rows.Keys
    ensures |Moments(rows, ids, since, until)| == |UnionOf(rows, ids, since, until)|
    decreases |ids|
  {
    hide Disjoint;
    if ids == {} {
      assert Moments(rows, ids, since, until) == {} && UnionOf(rows, ids, since, until) == {};
    } else {
      HasMember(ids);
      var id :| id in ids;
      var rest := ids - {id};
      assert ids == rest + {id};
      DisjointMoments(rows, rest, since, until);
      MomentsGrow(rows, rest, since, until, id);
      UnionGrows(rows, rest, since, until, id);
    }
  }

  lemma TallyOne(
    downtime: nat, longest: nat, outages: nat, rows: map<int, Outage>, done: set<int>, since: int, until: int, id: int)
    requires id in rows && id !in done
    requires Tally(downtime, longest, outages, rows, done, since, until)
    ensures var d := ClippedLength(rows[id], since, until);
            Tally(downtime + d, if d > longest then d else longest, outages + 1, rows, done + {id}, since, until)
  {
    hide Moments;
    MomentsGrow(rows, done, since, until, id);
    ClippedSize(rows[id], since, until);
    var d := ClippedLength(rows[id], since, until);
    if d <= longest && longest > 0 {
      var k :| k in done && |Instants(rows[k], since, until)| == longest;
      assert k in done + {id};
    } else {
      assert id in done + {id};
    }
  }

  lemma AllDowntimeIsSelected(rows: map<int, Outage>, since: int, until: int)
    ensures UnionOf(rows, Selected(rows, since, until), since, until) == DownInstants(rows, since, until)
  {
    forall t | since <= t < until
      ensures DownAt(rows, rows.Keys, t) <==> DownAt(rows, Selected(rows, since, until), t)
    {
      if DownAt(rows, rows.Keys, t) {
        var id :| id in rows && Covers(rows[id], t);
        assert id in Selected(rows, since, until);
      }
    }
  }

  lemma DowntimeFits(rows: map<int, Outage>, since: int, until: int)
    ensures |DownInstants(rows, since, until)| <= if since <= until then until - since else 0
  {
    SpanSize(since, until);
    var down, all := DownInstants(rows, since, until), Span(since, until);
    forall t | t in down ensures t in all {
      assert Within(t, since, until);
    }
    assert all == down + (all - down);
  }

  /** On disjoint rows downtime fits the window, so the percentage is one, and MTBF is negative only
      for a window that starts in the future by at least as many microseconds as rows it selects. */
  lemma ReportIsSound(rows: map<int, Outage>, a: Availability, since: int, until: int)
    requires a.window == until - since && a.downtime == |DownInstants(rows, since, until)|
    requires a.outages == |Selected(rows, since, until)|
    requires IsPercent(a.percent, a.window, a.downtime) && IsMtbf(a.mtbf, a.window, a.downtime, a.outages)
    ensures a.downtime <= if since <= until then until - since else 0
    ensures 0.0 <= a.percent <= 100.0
    ensures a.mtbf >= 0 <==> Selected(rows, since, until) == {} || since - until < |Selected(rows, since, until)|
    ensures since <= until ==> a.downtime <= a.window && a.mtbf >= 0
  {
    hide IsPercent, IsMtbf, DownInstants, Selected;
    DowntimeFits(rows, since, until);
    PercentIsSound(a.percent, a.window, a.downtime);
    MtbfIsSound(a.mtbf, a.window, a.downtime, a.outages);
  }

  lemma PercentIsSound(percent: real, window: int, downtime: nat)
    requires IsPercent(percent, window, downtime) && (downtime <= window || downtime == 0)
    ensures 0.0 <= percent <= 100.0
  {
    if window > 0 {
      Ratio(percent, window as real, (window - downtime) as real);
    }
  }

  lemma Ratio(percent: real, window: real, up: real)
    requires percent * window == 100.0 * up && 0.0 <= up <= window && window > 0.0
    ensures 0.0 <= percent <= 100.0
  {
    assert (100.0 - percent) * window == 100.0 * (window - up);
  }

  lemma MtbfIsSound(mtbf: int, window: int, downtime: nat, outages: nat)
    requires IsMtbf(mtbf, window, downtime, outages) && (downtime <= window || downtime == 0)
    ensures mtbf >= 0 <==> outages == 0 || -window < outages
  {
    if outages > 0 && window < 0 {
      var n: int := outages;
      assert mtbf <= -1 ==> n * mtbf <= -n;
      assert mtbf >= 0 ==> n * (mtbf - 1) >= -n;
    }
  }
}
