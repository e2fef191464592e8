/** Report memos: a key may be reported once per interval, and old memos are dropped
    (shouldReport and the memo pruning of internal/lateral/detector.go and
    internal/destinations/analyzer.go). */
module Memos {

  /** now.Sub(last) < interval suppresses the report. */
  predicate Due<K>(memo: map<K, int>, key: K, now: int, interval: int) {
    key !in memo || now - memo[key] >= interval
  }

  function Asked<K>(memo: map<K, int>, key: K, now: int, interval: int): map<K, int> {
    if Due(memo, key, now, interval) then memo[key := now] else memo
  }

  /** Drops what was reported before now - horizon. */
  function Dropped<K>(memo: map<K, int>, now: int, horizon: int): map<K, int> {
    map k | k in memo && memo[k] >= now - horizon :: memo[k]
  }

  datatype Op<K> = Ask(key: K, now: int, interval: int) | Drop(now: int)

  function Step<K>(memo: map<K, int>, op: Op<K>, horizon: int, dropping: bool): map<K, int> {
    match op
    case Ask(key, now, interval) => Asked(memo, key, now, interval)
    case Drop(now) => if dropping then Dropped(memo, now, horizon) else memo
  }

  function Run<K>(ops: seq<Op<K>>, horizon: int, dropping: bool): map<K, int> {
    if ops == [] then map[] else Step(Run(ops[..|ops| - 1], horizon, dropping), ops[|ops| - 1], horizon, dropping)
  }

  /** The answers given to the questions of a run, in order. */
  function Answers<K(==)>(ops: seq<Op<K>>, horizon: int, dropping: bool): seq<bool> {
    if ops == [] then []
    else
      var init, op := ops[..|ops| - 1], ops[|ops| - 1];
      Answers(init, horizon, dropping) +
      if op.Ask? then [Due(Run(init, horizon, dropping), op.key, op.now, op.interval)] else []
  }

  ghost predicate Nondecreasing<K>(ops: seq<Op<K>>) {
    forall i, j :: 0 <= i <= j < |ops| ==> ops[i].now <= ops[j].now
  }

  /** Whatever the pruned memo lacks was reported longer than the horizon ago. */
  ghost predicate Agrees<K>(pruned: map<K, int>, full: map<K, int>, clock: int, horizon: int) {
    && (forall k :: k in pruned ==> k in full && full[k] == pruned[k])
    && (forall k :: k in full && k !in pruned ==> clock - full[k] > horizon)
  }

  lemma StepAgrees<K>(pruned: map<K, int>, full: map<K, int>, clock: int, op: Op<K>, horizon: int)
    requires Agrees(pruned, full, clock, horizon) && clock <= op.now
    requires op.Ask? ==> op.interval <= horizon + 1
    ensures Agrees(Step(pruned, op, horizon, true), Step(full, op, horizon, false), op.now, horizon)
    ensures op.Ask? ==> Due(pruned, op.key, op.now, op.interval) == Due(full, op.key, op.now, op.interval)
  {
  }

  ghost predicate WithIntervals<K>(ops: seq<Op<K>>, longest: int) {
    forall i :: 0 <= i < |ops| && ops[i].Ask? ==> ops[i].interval <= longest
  }

  lemma {:induction false} DroppingIsInvisible<K>(ops: seq<Op<K>>, horizon: int)
    requires Nondecreasing(ops) && WithIntervals(ops, horizon + 1)
    ensures Answers(ops, horizon, true) == Answers(ops, horizon, false)
    ensures ops != [] ==> Agrees(Run(ops, horizon, true), Run(ops, horizon, false), ops[|ops| - 1].now, horizon)
  {
    if ops != [] {
      var n := |ops| - 1;
      DroppingIsInvisible(ops[..n], horizon);
      var pruned, full := Run(ops[..n], horizon, true), Run(ops[..n], horizon, false);
      StepAgrees(pruned, full, if n == 0 then ops[n].now else ops[n - 1].now, ops[n], horizon);
    }
  }

  ghost predicate Invisible<K(!new)>(horizon: int, longest: int) {
    forall ops: seq<Op<K>> :: Nondecreasing(ops) && WithIntervals(ops, longest) ==>
      Answers(ops, horizon, true) == Answers(ops, horizon, false)
  }

  /** Two questions around a drop: the second one is answered differently. */
  function Witness<K>(key: K, horizon: int, interval: int): seq<Op<K>> {
    [Ask(key, 0, interval), Drop(horizon + 1), Ask(key, horizon + 1, interval)]
  }

  lemma LongerIntervalIsVisible<K>(key: K, horizon: int, interval: int)
    requires interval > horizon + 1 && horizon >= 0
    ensures var ops := Witness(key, horizon, interval);
            && Nondecreasing(ops) && WithIntervals(ops, interval)
            && Answers(ops, horizon, true) == [true, true] && Answers(ops, horizon, false) == [true, false]
  {
    var ops := Witness(key, horizon, interval);
    var a, d := ops[0], ops[1];
    assert ops[..2] == [a, d] && [a, d][..1] == [a] && [a][..0] == [];
    forall dropping: bool
      ensures Run([a], horizon, dropping) == map[key := 0] && Answers([a], horizon, dropping) == [true]
      ensures Run([a, d], horizon, dropping) == if dropping then map[] else map[key := 0]
      ensures Answers([a, d], horizon, dropping) == [true]
    {
      assert Run<K>([], horizon, dropping) == map[];
      assert Answers<K>([], horizon, dropping) == [];
      assert Dropped(map[key := 0], horizon + 1, horizon) == map[];
    }
  }

  /** Dropping memos is invisible exactly when no interval in use exceeds the horizon by more
      than the one tick that separates "before" from "not after". */
  lemma InvisibleIff<K(!new)>(key: K, horizon: int, longest: int)
    requires horizon >= 0
    ensures Invisible<K>(horizon, longest) <==> longest <= horizon + 1
  {
    if longest <= horizon + 1 {
      forall ops: seq<Op<K>> | Nondecreasing(ops) && WithIntervals(ops, longest)
        ensures Answers(ops, horizon, true) == Answers(ops, horizon, false)
      {
        DroppingIsInvisible(ops, horizon);
      }
    } else {
      LongerIntervalIsVisible(key, horizon, longest);
      var ops := Witness(key, horizon, longest);
      assert Answers(ops, horizon, true) != Answers(ops, horizon, false);
    }
  }
}
