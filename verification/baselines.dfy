/** The statistics of adaptive baselines (internal/baseline/engine.go).

    Statistics are over reals; times are microseconds, with 0 for the zero time. */
module Baselines {
  datatype Key = Key(metric: string, dimension: string, bucket: string)

  /** A float64 sample; NaN and the infinities are not folded in. */
  datatype Sample = Finite(value: real) | NotFinite

  /** One accumulated baseline. The same fields make up a stored row. */
  datatype Baseline = Baseline(samples: nat, mean: real, m2: real, min: real, max: real, ewma: real,
                               window: seq<real>, established: bool, firstSeen: int, updatedAt: int)

  datatype Config = Config(
    minObservations: int, timeBuckets: bool, bucketHours: int, windowSize: nat, alpha: real, maxAge: int)
  {
    predicate Valid() {
      && minObservations > 0 && bucketHours > 0 && 24 % bucketHours == 0
      && windowSize >= 16 && 0.0 < alpha <= 1.0 && maxAge > 0
    }
  }

  const THIRTY_DAYS := 30 * 24 * 3600 * 1_000_000

  /** Defaults for unset values. */
  function Effective(c: Config): (r: Config)
    ensures r.Valid() && (c.Valid() ==> r == c)
  {
    Config(if c.minObservations <= 0 then 30 else c.minObservations, c.timeBuckets,
           if c.bucketHours <= 0 || 24 % c.bucketHours != 0 then 1 else c.bucketHours,
           if c.windowSize < 16 then 256 else c.windowSize,
           if c.alpha <= 0.0 || c.alpha > 1.0 then 0.1 else c.alpha,
           if c.maxAge <= 0 then THIRTY_DAYS else c.maxAge)
  }

  // ----- Time buckets -------------------------------------------------------------------

  /** What the local calendar says of a time. */
  datatype Civil = Civil(weekend: bool, hour: nat)

  function Digit(n: nat): char
    requires n < 10
  {
    "0123456789"[n]
  }

  /** Two digits of a number below 100. */
  function TwoDigits(n: nat): string
    requires n < 100
  {
    [Digit(n / 10), Digit(n % 10)]
  }

  function BucketFor(cfg: Config, t: Civil): string {
    if !cfg.timeBuckets || cfg.bucketHours <= 0 || t.hour >= 24 then "all"
    else Label(t.weekend, StartOfGroup(t.hour, cfg.bucketHours))
  }

  function Label(weekend: bool, hour: nat): string
    requires hour < 100
  {
    (if weekend then "we" else "wd") + "-" + TwoDigits(hour)
  }

  /** The first hour of the group that an hour falls in. */
  function StartOfGroup(hour: nat, size: nat): nat
    requires size > 0
  {
    hour - hour % size
  }

  /** With time buckets, two times share a bucket exactly when both or neither are on a weekend and
      their hours are in the same group. */
  lemma SameBucketIff(cfg: Config, s: Civil, t: Civil)
    requires cfg.timeBuckets && cfg.bucketHours > 0 && s.hour < 24 && t.hour < 24
    ensures BucketFor(cfg, s) == BucketFor(cfg, t) <==>
            s.weekend == t.weekend && s.hour / cfg.bucketHours == t.hour / cfg.bucketHours
  {
    hide Label, StartOfGroup;
    GroupStartsBefore(s.hour, cfg.bucketHours);
    GroupStartsBefore(t.hour, cfg.bucketHours);
    LabelsTell(s.weekend, StartOfGroup(s.hour, cfg.bucketHours), t.weekend, StartOfGroup(t.hour, cfg.bucketHours));
    GroupsTell(s.hour, t.hour, cfg.bucketHours);
  }

  /** The label names the day class and the first hour of the group in two decimal digits. */
  lemma BucketSays(cfg: Config, t: Civil)
    requires cfg.bucketHours > 0 && t.hour < 24
    ensures !cfg.timeBuckets ==> BucketFor(cfg, t) == "all"
    ensures cfg.timeBuckets ==>
              var text := BucketFor(cfg, t);
              && |text| == 5 && text[..3] == (if t.weekend then "we-" else "wd-")
              && var first := 10 * (text[3] as int - '0' as int) + (text[4] as int - '0' as int);
                 '0' <= text[3] <= '2' && '0' <= text[4] <= '9'
                 && first % cfg.bucketHours == 0 && first <= t.hour < first + cfg.bucketHours
  {
    var first := StartOfGroup(t.hour, cfg.bucketHours);
    StartsGroup(t.hour, cfg.bucketHours);
    DigitSays(first / 10);
    DigitSays(first % 10);
    var text := Label(t.weekend, first);
    assert text[3..] == TwoDigits(first);
    assert text[3] == TwoDigits(first)[0] && text[4] == TwoDigits(first)[1];
  }

  lemma DigitSays(n: nat)
    requires n < 10
    ensures '0' <= Digit(n) <= '9' && Digit(n) as int - '0' as int == n
  {
  }

  lemma StartsGroup(hour: nat, size: nat)
    requires size > 0
    ensures var first := StartOfGroup(hour, size); first % size == 0 && first <= hour < first + size
  {
    MultipleOf(hour / size, size);
    assert hour == hour / size * size + hour % size;
  }

  lemma MultipleOf(k: nat, size: nat)
    requires size > 0
    ensures k * size % size == 0
  {
    var n := k * size;
    var q, r := n / size, n % size;
    assert n == size * q + r;
    assert r == size * (k - q);
    AtLeastSize(size, k - q);
  }

  lemma AtLeastSize(size: int, d: int)
    requires size > 0
    ensures d >= 1 ==> size * d >= size
    ensures d <= -1 ==> size * d <= -size
  {
    if d >= 1 {
      assert size * d == size + size * (d - 1);
    } else if d <= -1 {
      assert size * d == -size + size * (d + 1);
    }
  }

  lemma LabelsTell(v: bool, m: nat, w: bool, n: nat)
    requires m < 100 && n < 100
    ensures Label(v, m) == Label(w, n) <==> v == w && m == n
  {
    var a, b := Label(v, m), Label(w, n);
    assert a[1] == (if v then 'e' else 'd') && b[1] == (if w then 'e' else 'd');
    assert a[3..] == TwoDigits(m) && b[3..] == TwoDigits(n);
  }

  lemma GroupStartsBefore(hour: nat, size: nat)
    requires size > 0
    ensures StartOfGroup(hour, size) <= hour
  {
  }

  lemma GroupsTell(h: nat, g: nat, size: nat)
    requires size > 0
    ensures StartOfGroup(h, size) == StartOfGroup(g, size) <==> h / size == g / size
  {
    var i, j := h / size, g / size;
    assert StartOfGroup(h, size) == size * i && StartOfGroup(g, size) == size * j;
    if i < j {
    } else if j < i {
    }
  }

  // ----- Reference definitions ----------------------------------------------------------

  function Sum(xs: seq<real>): real {
    if xs == [] then 0.0 else Sum(xs[..|xs| - 1]) + xs[|xs| - 1]
  }

  function SumOfSquares(xs: seq<real>): real {
    if xs == [] then 0.0 else SumOfSquares(xs[..|xs| - 1]) + xs[|xs| - 1] * xs[|xs| - 1]
  }

  function Square(d: real): real {
    d * d
  }

  /** Sum of squared deviations from m. */
  function Deviations(xs: seq<real>, m: real): real {
    if xs == [] then 0.0 else Deviations(xs[..|xs| - 1], m) + Square(xs[|xs| - 1] - m)
  }

  function Last(xs: seq<real>, n: nat): seq<real> {
    if |xs| <= n then xs else xs[|xs| - n..]
  }

  /** m is the mean of n values that add up to s. */
  ghost predicate MeanOf(m: real, n: real, s: real) {
    m * n == s
  }

  ghost predicate IsMean(m: real, xs: seq<real>) {
    MeanOf(m, |xs| as real, Sum(xs))
  }

  ghost predicate IsLeast(m: real, xs: seq<real>) {
    m in xs && forall x :: x in xs ==> m <= x
  }

  ghost predicate IsGreatest(m: real, xs: seq<real>) {
    m in xs && forall x :: x in xs ==> x <= m
  }

  /** n samples with sum s and sum of squares q have this mean and sum of squared deviations. */
  ghost predicate ClosedForm(n: real, s: real, q: real, mean: real, m2: real) {
    MeanOf(mean, n, s) && m2 == q - mean * s
  }

  /** Count, mean and M2 are those of the history xs. */
  ghost predicate Moments(b: Baseline, xs: seq<real>) {
    b.samples == |xs| && ClosedForm(|xs| as real, Sum(xs), SumOfSquares(xs), b.mean, b.m2)
  }

  /** Extremes, window and readiness are those of the history xs. */
  ghost predicate Shape(b: Baseline, xs: seq<real>, cfg: Config) {
    && IsLeast(b.min, xs) && IsGreatest(b.max, xs)
    && b.window == Last(xs, |b.window|) && |b.window| <= cfg.windowSize
    && b.established == (|xs| >= cfg.minObservations)
  }

  ghost predicate Describes(b: Baseline, xs: seq<real>, cfg: Config) {
    xs != [] && Moments(b, xs) && Shape(b, xs, cfg)
  }

  // ----- Welford's step -------------------------------------------------------------------

  function Fresh(value: real, at: int): Baseline {
    Baseline(0, 0.0, 0.0, value, value, 0.0, [], false, at, 0)
  }

  function Quotient(a: real, b: real): (r: real)
    requires b > 0.0
    ensures r * b == a
  {
    a / b
  }

  function Add(cfg: Config, b: Baseline, value: real, at: int): Baseline {
    var n := b.samples + 1;
    var delta := value - b.mean;
    var mean := b.mean + Quotient(delta, n as real);
    var window := b.window + [value];
    Baseline(n, mean, b.m2 + delta * (value - mean),
             if n == 1 || value < b.min then value else b.min,
             if n == 1 || value > b.max then value else b.max,
             if n == 1 then value else cfg.alpha * value + (1.0 - cfg.alpha) * b.ewma,
             if |window| > cfg.windowSize then window[|window| - cfg.windowSize..] else window,
             n >= cfg.minObservations,
             if b.firstSeen == 0 then at else b.firstSeen, at)
  }

  /** Welford's update with the n-th sample v. */
  ghost predicate Update(n: real, v: real, mean: real, m2: real, mean': real, m2': real) {
    (mean' - mean) * n == v - mean && m2' == m2 + (v - mean) * (v - mean')
  }

  lemma AddUpdates(cfg: Config, b: Baseline, value: real, at: int)
    ensures var r := Add(cfg, b, value, at);
            Update((b.samples + 1) as real, value, b.mean, b.m2, r.mean, r.m2)
  {
    var r := Add(cfg, b, value, at);
    assert r.mean - b.mean == Quotient(value - b.mean, (b.samples + 1) as real);
  }

  lemma UpdateKeepsClosedForm(n: real, s: real, q: real, v: real, mean: real, m2: real, mean': real, m2': real)
    requires ClosedForm(n - 1.0, s, q, mean, m2) && Update(n, v, mean, m2, mean', m2')
    ensures ClosedForm(n, s + v, q + v * v, mean', m2')
  {
    assert mean' * n == mean * (n - 1.0) + v;
    assert mean' * s == mean' * (mean * (n - 1.0));
    assert mean * s + mean * v == mean * (s + v) == mean * (mean' * n);
  }

  lemma SumsAppend(xs: seq<real>, v: real)
    ensures Sum(xs + [v]) == Sum(xs) + v && SumOfSquares(xs + [v]) == SumOfSquares(xs) + v * v
  {
    assert (xs + [v])[..|xs|] == xs;
  }

  lemma {:induction false} AddKeepsMoments(cfg: Config, b: Baseline, xs: seq<real>, value: real, at: int)
    requires Moments(b, xs)
    ensures Moments(Add(cfg, b, value, at), xs + [value])
  {
    var r := Add(cfg, b, value, at);
    AddUpdates(cfg, b, value, at);
    SumsAppend(xs, value);
    assert |xs + [value]| as real == (b.samples + 1) as real;
    assert |xs| as real == |xs + [value]| as real - 1.0;
    UpdateKeepsClosedForm(|xs + [value]| as real, Sum(xs), SumOfSquares(xs), value, b.mean, b.m2, r.mean, r.m2);
  }

  // (x - m)^2 summed, expanded; around the mean this is the closed form.

  lemma {:induction false} DeviationsExpand(xs: seq<real>, m: real, n: real, s: real)
    requires n == |xs| as real && s == Sum(xs)
    ensures Deviations(xs, m) == Expansion(SumOfSquares(xs), m, n, s)
  {
    if xs != [] {
      var init, x := xs[..|xs| - 1], xs[|xs| - 1];
      DeviationsExpand(init, m, n - 1.0, s - x);
      ExpandStep(Deviations(init, m), SumOfSquares(init), x, m, n, s);
    }
  }

  function Expansion(q: real, m: real, n: real, s: real): real {
    q - 2.0 * m * s + n * m * m
  }

  lemma ExpandStep(d: real, q: real, x: real, m: real, n: real, s: real)
    requires d == Expansion(q, m, n - 1.0, s - x)
    ensures d + Square(x - m) == Expansion(q + x * x, m, n, s)
  {
    assert (n - 1.0) * m * m == n * m * m - m * m;
    assert 2.0 * m * (s - x) == 2.0 * m * s - 2.0 * m * x;
  }

  lemma MomentsAreDeviations(b: Baseline, xs: seq<real>)
    requires Moments(b, xs)
    ensures IsMean(b.mean, xs) && b.m2 == Deviations(xs, b.mean)
  {
    DeviationsExpand(xs, b.mean, |xs| as real, Sum(xs));
    MeanAlgebra(SumOfSquares(xs), b.mean, |xs| as real, Sum(xs), b.m2);
  }

  lemma MeanAlgebra(q: real, mean: real, n: real, s: real, m2: real)
    requires ClosedForm(n, s, q, mean, m2)
    ensures Expansion(q, mean, n, s) == m2
  {
    assert n * mean * mean == (mean * n) * mean;
  }

  lemma AddKeepsShape(cfg: Config, b: Baseline, xs: seq<real>, value: real, at: int)
    requires cfg.windowSize > 0 && b.samples == |xs|
    requires if xs == [] then b.window == [] else Shape(b, xs, cfg)
    ensures Shape(Add(cfg, b, value, at), xs + [value], cfg)
  {
    hide Quotient;
    LastAppend(xs, value, |b.window|, cfg.windowSize);
  }

  /** A window of the last WindowSize samples stays one. */
  lemma AddKeepsWindow(cfg: Config, b: Baseline, xs: seq<real>, value: real, at: int)
    requires cfg.windowSize > 0 && b.window == Last(xs, cfg.windowSize)
    ensures Add(cfg, b, value, at).window == Last(xs + [value], cfg.windowSize)
  {
    hide Quotient;
    LastAppend(xs, value, |b.window|, cfg.windowSize);
  }

  /** Folding in one sample keeps every statistic exact. */
  lemma {:induction false} AddDescribes(cfg: Config, b: Baseline, xs: seq<real>, value: real, at: int)
    requires cfg.windowSize > 0
    requires if xs == [] then Moments(b, xs) && b.window == [] else Describes(b, xs, cfg)
    ensures Describes(Add(cfg, b, value, at), xs + [value], cfg)
  {
    AddKeepsMoments(cfg, b, xs, value, at);
    AddKeepsShape(cfg, b, xs, value, at);
  }

  lemma LastAppend(xs: seq<real>, value: real, kept: nat, size: nat)
    requires kept <= |xs| && kept <= size && size > 0
    ensures Last(xs, kept) + [value] == Last(xs + [value], kept + 1)
    ensures kept + 1 > size ==> (Last(xs, kept) + [value])[kept + 1 - size..] == Last(xs + [value], size)
  {
  }

  function AddAll(cfg: Config, xs: seq<real>, at: seq<int>): Baseline
    requires |xs| == |at| > 0
  {
    var n := |xs| - 1;
    Add(cfg, if n == 0 then Fresh(xs[0], at[0]) else AddAll(cfg, xs[..n], at[..n]), xs[n], at[n])
  }

  /** After any observations: exact count, mean, M2, extremes, and the last samples in order. */
  lemma {:induction false} AnyHistoryIsDescribed(cfg: Config, xs: seq<real>, at: seq<int>)
    requires cfg.Valid() && |xs| == |at| > 0
    ensures Describes(AddAll(cfg, xs, at), xs, cfg)
    ensures AddAll(cfg, xs, at).window == Last(xs, cfg.windowSize)
    decreases |xs|
  {
    var n := |xs| - 1;
    assert xs == xs[..n] + [xs[n]];
    if n == 0 {
      AddDescribes(cfg, Fresh(xs[0], at[0]), [], xs[0], at[0]);
      AddKeepsWindow(cfg, Fresh(xs[0], at[0]), [], xs[0], at[0]);
    } else {
      AnyHistoryIsDescribed(cfg, xs[..n], at[..n]);
      AddDescribes(cfg, AddAll(cfg, xs[..n], at[..n]), xs[..n], xs[n], at[n]);
      AddKeepsWindow(cfg, AddAll(cfg, xs[..n], at[..n]), xs[..n], xs[n], at[n]);
    }
  }

  // ----- Pooling buckets -------------------------------------------------------------------

  /** Sum of f over the keys of an enumeration. */
  function Total(order: seq<Key>, f: map<Key, real>): real
    requires forall k :: k in order ==> k in f
  {
    if order == [] then 0.0 else Total(order[..|order| - 1], f) + f[order[|order| - 1]]
  }

  /** A bucket's sum. */
  function Mass(b: Baseline): real {
    b.mean * b.samples as real
  }

  /** How far a bucket's mean lies from m, weighted by its samples. */
  function Distance(b: Baseline, m: real): real {
    b.samples as real * Square(b.mean - m)
  }

  function Counts(bs: map<Key, Baseline>): map<Key, real> {
    map k | k in bs :: bs[k].samples as real
  }

  function Masses(bs: map<Key, Baseline>): map<Key, real> {
    map k | k in bs :: Mass(bs[k])
  }

  function Spreads(bs: map<Key, Baseline>): map<Key, real> {
    map k | k in bs :: bs[k].m2
  }

  function Between(bs: map<Key, Baseline>, m: real): map<Key, real> {
    map k | k in bs :: Distance(bs[k], m)
  }

  datatype Aggregate = Aggregate(samples: nat, mean: real, m2: real, min: real, max: real, established: bool)

  /** agg pools the buckets of order. */
  ghost predicate Pools(agg: Aggregate, order: seq<Key>, bs: map<Key, Baseline>, cfg: Config) {
    && order != [] && (forall k :: k in order ==> k in bs)
    && agg.samples as real == Total(order, Counts(bs))
    && MeanOf(agg.mean, agg.samples as real, Total(order, Masses(bs)))
    && agg.m2 == Total(order, Spreads(bs))
    && (forall k :: k in order ==> agg.min <= bs[k].min && bs[k].max <= agg.max)
    && (exists k :: k in order && agg.min == bs[k].min)
    && (exists k :: k in order && agg.max == bs[k].max)
    && agg.established == (agg.samples >= cfg.minObservations)
  }

  lemma {:induction false} TotalOrderFree(o1: seq<Key>, o2: seq<Key>, f: map<Key, real>)
    requires multiset(o1) == multiset(o2)
    requires (forall k :: k in o1 ==> k in f) && (forall k :: k in o2 ==> k in f)
    ensures Total(o1, f) == Total(o2, f)
    decreases |o1|
  {
    if o1 == [] {
      assert |multiset(o2)| == 0;
    } else {
      var n := |o1| - 1;
      var i := WhereIn(o2, o1[n]) by {
        assert o1[n] in multiset(o1);
      }
      var rest := o2[..i] + o2[i + 1..];
      RemoveOne(o1, n);
      RemoveOne(o2, i);
      assert o1[..n] + o1[n + 1..] == o1[..n];
      TotalRemove(o2, i, f);
      TotalOrderFree(o1[..n], rest, f);
    }
  }

  lemma RemoveOne(o: seq<Key>, i: nat)
    requires i < |o|
    ensures multiset(o[..i] + o[i + 1..]) == multiset(o) - multiset{o[i]}
  {
    assert o == o[..i] + [o[i]] + o[i + 1..];
  }

  ghost function WhereIn(o: seq<Key>, k: Key): (i: nat)
    requires k in multiset(o)
    ensures i < |o| && o[i] == k
  {
    var i :| 0 <= i < |o| && o[i] == k; i
  }

  lemma {:induction false} TotalRemove(o: seq<Key>, i: nat, f: map<Key, real>)
    requires i < |o| && forall k :: k in o ==> k in f
    ensures forall k :: k in o[..i] + o[i + 1..] ==> k in f
    ensures Total(o, f) == Total(o[..i] + o[i + 1..], f) + f[o[i]]
  {
    var n := |o| - 1;
    var rest := o[..i] + o[i + 1..];
    forall k | k in rest ensures k in f {
      assert k in o;
    }
    if i == n {
      assert rest == o[..n];
    } else {
      TotalRemove(o[..n], i, f);
      assert rest[..|rest| - 1] == o[..n][..i] + o[..n][i + 1..];
      assert rest[|rest| - 1] == o[n];
    }
  }

  /** Go iterates its map in any order; the pooled figures do not depend on it. */
  lemma PoolingIsOrderFree(a: Aggregate, b: Aggregate, o1: seq<Key>, o2: seq<Key>, bs: map<Key, Baseline>, cfg: Config)
    requires Pools(a, o1, bs, cfg) && Pools(b, o2, bs, cfg) && multiset(o1) == multiset(o2)
    requires a.samples > 0
    ensures a == b
  {
    hide MeanOf, Mass;
    forall k ensures k in o1 <==> k in o2 {
      assert k in o1 <==> k in multiset(o1);
      assert k in o2 <==> k in multiset(o2);
    }
    var counts, masses, spreads := Counts(bs), Masses(bs), Spreads(bs);
    TotalOrderFree(o1, o2, counts);
    TotalOrderFree(o1, o2, masses);
    TotalOrderFree(o1, o2, spreads);
    SameMean(a.mean, b.mean, a.samples as real, Total(o1, masses));
  }

  lemma SameMean(a: real, b: real, n: real, s: real)
    requires n > 0.0 && MeanOf(a, n, s) && MeanOf(b, n, s)
    ensures a == b
  {
    assert (a - b) * n == 0.0;
  }

  /** Every sample of the enumerated buckets. */
  function Pool(order: seq<Key>, past: map<Key, seq<real>>): seq<real>
    requires forall k :: k in order ==> k in past
  {
    if order == [] then [] else Pool(order[..|order| - 1], past) + past[order[|order| - 1]]
  }

  lemma {:induction false} SumConcat(xs: seq<real>, ys: seq<real>)
    ensures Sum(xs + ys) == Sum(xs) + Sum(ys)
  {
    if ys == [] {
      assert xs + ys == xs;
    } else {
      var n := |ys| - 1;
      assert (xs + ys)[..|xs + ys| - 1] == xs + ys[..n];
      SumConcat(xs, ys[..n]);
    }
  }

  lemma {:induction false} DeviationsConcat(xs: seq<real>, ys: seq<real>, m: real)
    ensures Deviations(xs + ys, m) == Deviations(xs, m) + Deviations(ys, m)
  {
    hide Square;
    if ys == [] {
      assert xs + ys == xs;
    } else {
      var n := |ys| - 1;
      assert (xs + ys)[..|xs + ys| - 1] == xs + ys[..n];
      DeviationsConcat(xs, ys[..n], m);
    }
  }

  /** One bucket seen from any centre m: its own spread plus its distance. */
  lemma BucketFrom(b: Baseline, xs: seq<real>, m: real)
    requires Moments(b, xs)
    ensures Mass(b) == Sum(xs) && Deviations(xs, m) == b.m2 + Distance(b, m)
  {
    hide Square, Expansion;
    DeviationsExpand(xs, m, |xs| as real, Sum(xs));
    BucketAlgebra(|xs| as real, Sum(xs), SumOfSquares(xs), b.mean, b.m2, m);
  }

  lemma BucketAlgebra(n: real, s: real, q: real, mean: real, m2: real, m: real)
    requires ClosedForm(n, s, q, mean, m2)
    ensures Expansion(q, m, n, s) == m2 + n * Square(mean - m)
  {
    assert n * Square(mean - m) == (mean * n) * mean - 2.0 * m * (mean * n) + n * m * m;
  }

  ghost predicate AllMoments(order: seq<Key>, bs: map<Key, Baseline>, past: map<Key, seq<real>>) {
    forall k :: k in order ==> k in bs && k in past && Moments(bs[k], past[k])
  }

  lemma {:induction false} PoolTotals(order: seq<Key>, past: map<Key, seq<real>>, counts: map<Key, real>,
                                      sums: map<Key, real>)
    requires forall k :: k in order ==> k in past && k in counts && k in sums
    requires forall k :: k in order ==> counts[k] == |past[k]| as real && sums[k] == Sum(past[k])
    ensures |Pool(order, past)| as real == Total(order, counts)
    ensures Sum(Pool(order, past)) == Total(order, sums)
  {
    if order != [] {
      var init, k := order[..|order| - 1], order[|order| - 1];
      PoolTotals(init, past, counts, sums);
      SumConcat(Pool(init, past), past[k]);
    }
  }

  lemma {:induction false} PoolDeviations(order: seq<Key>, past: map<Key, seq<real>>, m: real,
                                          within: map<Key, real>, between: map<Key, real>)
    requires forall k :: k in order ==> k in past && k in within && k in between
    requires forall k :: k in order ==> Deviations(past[k], m) == within[k] + between[k]
    ensures Deviations(Pool(order, past), m) == Total(order, within) + Total(order, between)
  {
    if order != [] {
      var init, k := order[..|order| - 1], order[|order| - 1];
      PoolDeviations(init, past, m, within, between);
      DeviationsConcat(Pool(init, past), past[k], m);
    }
  }

  /** The pooled samples: their count and sum, and their spread split into the spread within
      the buckets and the spread between the bucket means. */
  lemma TotalVariance(order: seq<Key>, bs: map<Key, Baseline>, past: map<Key, seq<real>>, m: real)
    requires AllMoments(order, bs, past)
    ensures |Pool(order, past)| as real == Total(order, Counts(bs))
    ensures Sum(Pool(order, past)) == Total(order, Masses(bs))
    ensures Deviations(Pool(order, past), m) == Total(order, Spreads(bs)) + Total(order, Between(bs, m))
  {
    hide Mass, Distance, ClosedForm;
    var counts, masses, within, between := Counts(bs), Masses(bs), Spreads(bs), Between(bs, m);
    forall k | k in order
      ensures counts[k] == |past[k]| as real && masses[k] == Sum(past[k])
      ensures Deviations(past[k], m) == within[k] + between[k]
    {
      BucketFrom(bs[k], past[k], m);
    }
    PoolTotals(order, past, counts, masses);
    PoolDeviations(order, past, m, within, between);
  }

  lemma {:induction false} BetweenIsNonnegative(order: seq<Key>, bs: map<Key, Baseline>, m: real)
    requires forall k :: k in order ==> k in bs
    ensures Total(order, Between(bs, m)) >= 0.0
  {
    if order != [] {
      var k := order[|order| - 1];
      BetweenIsNonnegative(order[..|order| - 1], bs, m);
      WeightedSquare(bs[k].samples as real, bs[k].mean - m);
    }
  }

  lemma WeightedSquare(n: real, d: real)
    requires n >= 0.0
    ensures n * Square(d) >= 0.0
  {
    assert Square(d) >= 0.0;
  }

  /** The aggregate's mean is the mean of all samples; its M2 falls short of their sum of
      squared deviations by exactly the spread between the bucket means. */
  lemma {:induction false} PoolingIsExactUpToBetween(agg: Aggregate, order: seq<Key>, bs: map<Key, Baseline>,
                                                     past: map<Key, seq<real>>, cfg: Config)
    requires Pools(agg, order, bs, cfg) && AllMoments(order, bs, past)
    ensures agg.samples == |Pool(order, past)| && IsMean(agg.mean, Pool(order, past))
    ensures agg.m2 + Total(order, Between(bs, agg.mean)) == Deviations(Pool(order, past), agg.mean)
    ensures agg.m2 <= Deviations(Pool(order, past), agg.mean)
  {
    hide MeanOf, Mass, Distance;
    TotalVariance(order, bs, past, agg.mean);
    BetweenIsNonnegative(order, bs, agg.mean);
    assert agg.samples as real == |Pool(order, past)| as real;
  }
}
