/** Hysteresis on health checks (internal/connectivity/tracker.go). */
module Connectivity {

  datatype Transition = NoChange | Open | Close

  /** The state of a Tracker; n failures open an outage, m successes close it. */
  datatype State = State(n: nat, m: nat, fail: nat, ok: nat, open: bool, openedAt: int, cause: string)

  function Initial(n: int, m: int): State {
    State(if n < 1 then 1 else n, if m < 1 then 1 else m, 0, 0, false, 0, "")
  }

  function Record(s: State, ok: bool, now: int): (State, Transition) {
    if ok then
      if s.open && s.ok + 1 >= s.m then (s.(fail := 0, ok := 0, open := false), Close)
      else (s.(fail := 0, ok := s.ok + 1), NoChange)
    else if !s.open && s.fail + 1 >= s.n then (s.(fail := s.fail + 1, ok := 0, open := true, openedAt := now), Open)
    else (s.(fail := s.fail + 1, ok := 0), NoChange)
  }

  function Resume(s: State, openedAt: int, cause: string): State {
    s.(open := true, openedAt := openedAt, cause := cause, fail := s.n)
  }

  class Tracker {
    const failuresToOpen: nat
    const successesToClose: nat
    var consecutiveFail: nat
    var consecutiveOK: nat
    var open: bool
    var openedAt: int
    var lastClassification: string

    ghost function Now(): State
      reads this
    {
      State(failuresToOpen, successesToClose, consecutiveFail, consecutiveOK, open, openedAt, lastClassification)
    }

    constructor (failuresToOpen: int, successesToClose: int)
      ensures Now() == Initial(failuresToOpen, successesToClose)
    {
      this.failuresToOpen := if failuresToOpen < 1 then 1 else failuresToOpen;
      this.successesToClose := if successesToClose < 1 then 1 else successesToClose;
      consecutiveFail, consecutiveOK, open, openedAt, lastClassification := 0, 0, false, 0, "";
    }

    method RecordCheck(ok: bool, now: int) returns (t: Transition)
      modifies this
      ensures (Now(), t) == Record(old(Now()), ok, now)
    {
      if ok {
        consecutiveFail := 0;
        consecutiveOK := consecutiveOK + 1;
        if open && consecutiveOK >= successesToClose {
          open := false;
          consecutiveOK := 0;
          return Close;
        }
        return NoChange;
      }
      consecutiveOK := 0;
      consecutiveFail := consecutiveFail + 1;
      if !open && consecutiveFail >= failuresToOpen {
        open := true;
        openedAt := now;
        return Open;
      }
      return NoChange;
    }

    method ResumeOutage(at: int, cause: string)
      modifies this
      ensures Now() == Resume(old(Now()), at, cause)
    {
      open := true;
      openedAt := at;
      lastClassification := cause;
      consecutiveFail := failuresToOpen;
    }

    method SetClassification(cause: string)
      modifies this`lastClassification
      ensures Now() == old(Now()).(cause := cause)
    {
      lastClassification := cause;
    }
  }

  // ----- Meaning over a history of checks --------------------------------------------------

  /** The k checks from i on all came out as ok. */
  ghost predicate RunAt(h: seq<bool>, i: int, k: nat, ok: bool) {
    0 <= i && i + k <= |h| && forall j :: i <= j < i + k ==> h[j] == ok
  }

  ghost predicate FollowedByRecovery(h: seq<bool>, i: int, m: nat) {
    exists j :: i <= j && RunAt(h, j, m, true)
  }

  /** Some n consecutive failures have not been followed by m consecutive successes. */
  ghost predicate Down(h: seq<bool>, n: nat, m: nat) {
    exists i :: RunAt(h, i, n, false) && !FollowedByRecovery(h, i + n, m)
  }

  function Trailing(h: seq<bool>, ok: bool): nat {
    if h == [] || h[|h| - 1] != ok then 0 else Trailing(h[..|h| - 1], ok) + 1
  }

  lemma {:induction false} TrailingRun(h: seq<bool>, k: nat, ok: bool)
    ensures Trailing(h, ok) <= |h|
    ensures Trailing(h, ok) >= k <==> RunAt(h, |h| - k, k, ok)
  {
    if k > 0 && h != [] && h[|h| - 1] == ok {
      TrailingRun(h[..|h| - 1], k - 1, ok);
      if RunAt(h[..|h| - 1], |h| - k, k - 1, ok) {
        forall j | |h| - k <= j < |h| ensures h[j] == ok {
          assert j < |h| - 1 ==> h[..|h| - 1][j] == ok;
        }
      } else if RunAt(h, |h| - k, k, ok) {
        assert forall j :: |h| - k <= j < |h| - 1 ==> h[..|h| - 1][j] == h[j];
      }
    } else if k == 0 && h != [] && h[|h| - 1] == ok {
      TrailingRun(h[..|h| - 1], 0, ok);
    }
  }

  function After(s: State, h: seq<bool>, times: seq<int>): State
    requires |times| == |h|
  {
    if h == [] then s else Record(After(s, h[..|h| - 1], times[..|h| - 1]), h[|h| - 1], times[|h| - 1]).0
  }

  /** What one more check does to the runs in a history. */
  lemma AppendRuns(h: seq<bool>, ok: bool, i: int, k: nat, v: bool)
    requires k > 0
    ensures i + k <= |h| ==> (RunAt(h + [ok], i, k, v) <==> RunAt(h, i, k, v))
    ensures RunAt(h + [ok], i, k, v) && i + k == |h| + 1 ==> ok == v
  {
    var h' := h + [ok];
    assert forall j :: 0 <= j < |h| ==> h'[j] == h[j];
    if RunAt(h', i, k, v) && i + k == |h| + 1 {
      assert h'[i + k - 1] == v;
    }
    if i + k <= |h| && RunAt(h', i, k, v) {
      assert forall j :: i <= j < i + k ==> h[j] == h'[j];
    }
  }

  /** A recovery in the longer history is one in the shorter, or the last m checks. */
  lemma AppendRecovery(h: seq<bool>, ok: bool, i: int, m: nat)
    requires m > 0
    ensures FollowedByRecovery(h + [ok], i, m) <==>
            FollowedByRecovery(h, i, m) || (i <= |h| + 1 - m && RunAt(h + [ok], |h| + 1 - m, m, true))
  {
    if FollowedByRecovery(h + [ok], i, m) {
      var j :| i <= j && RunAt(h + [ok], j, m, true);
      AppendRuns(h, ok, j, m, true);
    }
    if FollowedByRecovery(h, i, m) {
      var j :| i <= j && RunAt(h, j, m, true);
      AppendRuns(h, ok, j, m, true);
    }
  }

  lemma DownAfterFailure(h: seq<bool>, n: nat, m: nat)
    requires n > 0 && m > 0
    ensures Down(h + [false], n, m) <==> Down(h, n, m) || Trailing(h + [false], false) >= n
  {
    var h' := h + [false];
    TrailingRun(h', n, false);
    AppendRuns(h, false, |h| + 1 - m, m, true);
    if Trailing(h', false) >= n {
      assert RunAt(h', |h'| - n, n, false) && !FollowedByRecovery(h', |h'| - n + n, m);
    }
    if Down(h, n, m) {
      var i :| RunAt(h, i, n, false) && !FollowedByRecovery(h, i + n, m);
      AppendRuns(h, false, i, n, false);
      AppendRecovery(h, false, i + n, m);
    }
    if Down(h', n, m) {
      var i :| RunAt(h', i, n, false) && !FollowedByRecovery(h', i + n, m);
      AppendRuns(h, false, i, n, false);
      AppendRecovery(h, false, i + n, m);
    }
  }

  lemma DownAfterSuccess(h: seq<bool>, n: nat, m: nat)
    requires n > 0 && m > 0
    ensures Down(h + [true], n, m) <==> Down(h, n, m) && Trailing(h + [true], true) < m
  {
    var h' := h + [true];
    TrailingRun(h', m, true);
    if Down(h', n, m) {
      var i :| RunAt(h', i, n, false) && !FollowedByRecovery(h', i + n, m);
      AppendRuns(h, true, i, n, false);
      AppendRecovery(h, true, i + n, m);
      assert RunAt(h, i, n, false) && !FollowedByRecovery(h, i + n, m);
      if Trailing(h', true) >= m {
        RunsAreApart(h', i, n, |h'| - m, m);
      }
    }
    if Down(h, n, m) && Trailing(h', true) < m {
      var i :| RunAt(h, i, n, false) && !FollowedByRecovery(h, i + n, m);
      AppendRuns(h, true, i, n, false);
      AppendRecovery(h, true, i + n, m);
    }
  }

  /** A run of failures and the final run of successes cannot overlap. */
  lemma RunsAreApart(h: seq<bool>, i: int, n: nat, j: int, m: nat)
    requires RunAt(h, i, n, false) && RunAt(h, j, m, true) && n > 0 && m > 0 && j + m == |h|
    ensures i + n <= j
  {
    assert !h[i + n - 1];
    assert forall k :: j <= k < |h| ==> h[k];
  }

  /** From a fresh start the two counters decide exactly Down. */
  lemma {:induction false} OpenIffDown(n: int, m: int, h: seq<bool>, times: seq<int>)
    requires |times| == |h|
    ensures var s := After(Initial(n, m), h, times);
            && s.n == Initial(n, m).n && s.m == Initial(n, m).m
            && (s.open <==> Down(h, s.n, s.m))
            && s.fail == Trailing(h, false) && (!s.open ==> s.fail < s.n)
            && (s.open ==> s.ok == Trailing(h, true) < s.m)
    decreases |h|
  {
    var s0 := Initial(n, m);
    if h != [] {
      var k := |h| - 1;
      OpenIffDown(n, m, h[..k], times[..k]);
      assert h == h[..k] + [h[k]];
      if h[k] {
        DownAfterSuccess(h[..k], s0.n, s0.m);
      } else {
        DownAfterFailure(h[..k], s0.n, s0.m);
      }
    }
  }

  // ----- Counting transitions, restarts included --------------------------------------------

  datatype Event = Checked(ok: bool, now: int) | Resumed(at: int, cause: string)

  function Apply(s: State, e: Event): State {
    match e
    case Checked(ok, now) => Record(s, ok, now).0
    case Resumed(at, cause) => Resume(s, at, cause)
  }

  function Run(s: State, es: seq<Event>): State {
    if es == [] then s else Apply(Run(s, es[..|es| - 1]), es[|es| - 1])
  }

  function TransitionOf(s: State, e: Event): Transition {
    match e
    case Checked(ok, now) => Record(s, ok, now).1
    case Resumed(_, _) => NoChange
  }

  function Count(s: State, es: seq<Event>, t: Transition): nat {
    if es == [] then 0
    else Count(s, es[..|es| - 1], t) + if TransitionOf(Run(s, es[..|es| - 1]), es[|es| - 1]) == t then 1 else 0
  }

  function Checks(es: seq<Event>): nat {
    if es == [] then 0 else Checks(es[..|es| - 1]) + if es[|es| - 1].Checked? then 1 else 0
  }

  /** Openings (true) and closings (false) in order; resuming a closed tracker opens it. */
  function Marks(s: State, es: seq<Event>): seq<bool> {
    if es == [] then []
    else
      var before, e := Run(s, es[..|es| - 1]), es[|es| - 1];
      Marks(s, es[..|es| - 1]) +
      if TransitionOf(before, e) == Open || (e.Resumed? && !before.open) then [true]
      else if TransitionOf(before, e) == Close then [false]
      else []
  }

  /** Openings and closings strictly alternate, starting with an opening. */
  lemma {:induction false} TransitionsAlternate(n: int, m: int, es: seq<Event>)
    ensures var marks := Marks(Initial(n, m), es);
            && (forall i :: 0 <= i < |marks| ==> marks[i] == (i % 2 == 0))
            && (Run(Initial(n, m), es).open <==> |marks| % 2 == 1)
  {
    if es != [] {
      TransitionsAlternate(n, m, es[..|es| - 1]);
    }
  }

  /** The checks counted towards the next transition. */
  function Credit(s: State): nat {
    s.ok + if s.open then 0 else s.fail
  }

  /** Every opening takes n failures and every closing m successes, none of them shared,
      whenever and however often the tracker is resumed. */
  lemma {:induction false} TransitionsAreEarned(n: int, m: int, es: seq<Event>)
    ensures var s := Run(Initial(n, m), es);
            && s.n == Initial(n, m).n && s.m == Initial(n, m).m
            && Count(Initial(n, m), es, Open) * s.n + Count(Initial(n, m), es, Close) * s.m + Credit(s) <= Checks(es)
  {
    if es != [] {
      TransitionsAreEarned(n, m, es[..|es| - 1]);
      var s0, init, e := Initial(n, m), es[..|es| - 1], es[|es| - 1];
      OneMore(Count(s0, init, Open), s0.n);
      OneMore(Count(s0, init, Close), s0.m);
    }
  }

  lemma OneMore(c: nat, k: nat)
    ensures (c + 1) * k == c * k + k
  {
  }

  function Successes(s: State, k: nat, now: int): State {
    if k == 0 then s else Record(Successes(s, k - 1, now), true, now).0
  }

  /** A resumed outage needs the full recovery streak exactly when no success had been counted
      before: Resume keeps the success counter, so earlier successes shorten the streak. */
  lemma {:induction false} ResumeClosesAfter(s: State, at: int, cause: string, k: nat, now: int)
    requires s.m >= 1
    ensures var r := Successes(Resume(s, at, cause), k, now);
            (k == 0 || k < s.m - s.ok <==> r.open) && (r.open ==> r.ok == s.ok + k && r.m == s.m)
    decreases k
  {
    if k > 0 {
      ResumeClosesAfter(s, at, cause, k - 1, now);
    }
  }

}
