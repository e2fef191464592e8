/** The baseline engine and the table it is stored in (internal/baseline/engine.go,
    internal/database/store_baselines.go).

    The engine keeps one baseline for each metric, dimension and time bucket. Ghost histories hold
    every sample a baseline stands for; what Load brings in without a history stays usable, but is
    not described by one. The table keeps the same records by key, each with the time it was first
    seen. */
module BaselineEngine {
  import opened Wrappers
  import opened Baselines

  datatype Row = Row(key: Key, data: Baseline)

  const EMPTY := Baseline(0, 0.0, 0.0, 0.0, 0.0, 0.0, [], false, 0, 0)

  /** A copy of a baseline without its window. */
  ghost predicate IsSnapshot(copy: Baseline, b: Baseline) {
    && copy.samples == b.samples && copy.mean == b.mean && copy.m2 == b.m2 && copy.min == b.min && copy.max == b.max
    && copy.ewma == b.ewma && copy.window == [] && copy.established == b.established
    && copy.firstSeen == b.firstSeen && copy.updatedAt == b.updatedAt
  }

  /** The statistics a detector compares a value with are those of the samples xs. */
  ghost predicate IsAbout(b: Baseline, xs: seq<real>) {
    && b.samples == |xs| && IsMean(b.mean, xs) && b.m2 == Deviations(xs, b.mean)
    && IsLeast(b.min, xs) && IsGreatest(b.max, xs)
  }

  /** What the newest sample of a held baseline sets besides its moments and window. */
  ghost predicate IsTouched(b: Baseline, was: Baseline, value: real, at: int, alpha: real) {
    && b.ewma == (if was.samples == 0 then value else was.ewma + alpha * (value - was.ewma))
    && b.updatedAt == at && b.firstSeen == (if was.firstSeen == 0 then at else was.firstSeen)
  }

  /** The newest n entries of a stored window. */
  function Clip(window: seq<real>, n: nat): seq<real> {
    if |window| > n then window[|window| - n..] else window
  }

  /** What Load makes of a stored row: readiness is derived again from the configuration. */
  function Restored(cfg: Config, row: Baseline): Baseline {
    row.(window := Clip(row.window, cfg.windowSize), established := row.samples >= cfg.minObservations)
  }

  /** The baseline a sample is folded into. */
  function PriorTo(bs: map<Key, Baseline>, k: Key, value: real, at: int): Baseline {
    if k in bs then bs[k] else Fresh(value, at)
  }

  function PastOf(history: map<Key, seq<real>>, k: Key): seq<real> {
    if k in history then history[k] else []
  }

  // ----- The engine --------------------------------------------------------------------

  class Engine {
    const cfg: Config
    /** The local calendar: whether a time falls on a weekend, and its hour. */
    const civil: int -> Civil
    var baselines: map<Key, Baseline>
    var dirty: set<Key>
    var newlyEstablished: seq<Baseline>
    /** Every sample a held baseline stands for, in order. */
    ghost var history: map<Key, seq<real>>

    ghost predicate Valid()
      reads this
    {
      cfg.Valid() && dirty <= baselines.Keys
    }

    /** Every baseline held is that of its history; so it stays unless Load brings rows that are not. */
    ghost predicate Described()
      reads this
    {
      AllDescribed(baselines, history, cfg)
    }

    /** Every window is the last WindowSize samples; so it stays unless Load brings shorter ones. */
    ghost predicate ExactWindows()
      reads this
    {
      WindowsAreLast(baselines, history, cfg)
    }

    constructor (c: Config, civil: int -> Civil)
      ensures Valid() && Described() && ExactWindows() && cfg == Effective(c) && this.civil == civil
      ensures cfg.minObservations == (if c.minObservations > 0 then c.minObservations else 30)
      ensures cfg.timeBuckets == c.timeBuckets
      ensures cfg.bucketHours == (if c.bucketHours in {1, 2, 3, 4, 6, 8, 12, 24} then c.bucketHours else 1)
      ensures cfg.windowSize == (if c.windowSize >= 16 then c.windowSize else 256)
      ensures cfg.alpha == (if 0.0 < c.alpha <= 1.0 then c.alpha else 0.1)
      ensures cfg.maxAge == (if c.maxAge > 0 then c.maxAge else 2_592_000_000_000)
      ensures baselines == map[] && dirty == {} && newlyEstablished == []
    {
      cfg, this.civil := Effective(c), civil;
      baselines, dirty, newlyEstablished, history := map[], {}, [], map[];
    }

    /** Folds a sample in and returns the baseline as it was before: a detector compares a
        value with history, never with a baseline that already contains it. */
    method Observe(metric: string, dimension: string, sample: Sample, at: int)
      returns (before: Baseline, established: bool)
      requires Valid()
      modifies this
      ensures Valid()
      ensures old(Described()) ==> Described()
      ensures old(ExactWindows()) ==> ExactWindows()
      ensures sample == NotFinite ==> before == EMPTY && !established && unchanged(this)
      ensures sample.Finite? ==>
        var key := Key(metric, dimension, BucketFor(cfg, civil(at)));
        var prior := PriorTo(old(baselines), key, sample.value, at);
        && baselines == old(baselines)[key := Add(cfg, prior, sample.value, at)]
        && history == old(history)[key := PastOf(old(history), key) + [sample.value]]
        && dirty == old(dirty) + {key}
        && (established <==> baselines[key].established && !prior.established)
        && (old(Described()) ==>
            (baselines[key].established <==> |PastOf(old(history), key)| + 1 >= cfg.minObservations))
        && (if key in old(baselines)
            then IsSnapshot(before, old(baselines)[key])
                 && IsTouched(baselines[key], old(baselines)[key], sample.value, at, cfg.alpha)
            else before == Baseline(0, 0.0, 0.0, sample.value, sample.value, 0.0, [], false, at, 0)
                 && IsTouched(baselines[key], before, sample.value, at, cfg.alpha))
        && (old(Described()) && key in old(baselines) ==> IsAbout(before, old(history)[key]))
        && (old(Described()) ==> IsAbout(baselines[key], history[key]))
        && (if established
            then && |newlyEstablished| == |old(newlyEstablished)| + 1
                 && newlyEstablished[..|old(newlyEstablished)|] == old(newlyEstablished)
                 && IsSnapshot(newlyEstablished[|old(newlyEstablished)|], baselines[key])
            else newlyEstablished == old(newlyEstablished))
    {
      if sample == NotFinite {
        return EMPTY, false;
      }
      before, established := Fold(Key(metric, dimension, BucketFor(cfg, civil(at))), sample.value, at);
    }

    method Fold(key: Key, value: real, at: int) returns (before: Baseline, established: bool)
      requires Valid()
      modifies this
      ensures Valid()
      ensures old(Described()) ==> Described()
      ensures old(ExactWindows()) ==> ExactWindows()
      ensures baselines == old(baselines)[key := Add(cfg, PriorTo(old(baselines), key, value, at), value, at)]
      ensures history == old(history)[key := PastOf(old(history), key) + [value]]
      ensures if key in old(baselines)
              then IsSnapshot(before, old(baselines)[key])
                   && IsTouched(baselines[key], old(baselines)[key], value, at, cfg.alpha)
              else before == Baseline(0, 0.0, 0.0, value, value, 0.0, [], false, at, 0)
                   && IsTouched(baselines[key], before, value, at, cfg.alpha)
      ensures old(Described()) && key in old(baselines) ==> IsAbout(before, old(history)[key])
      ensures old(Described()) ==> IsAbout(baselines[key], history[key])
      ensures dirty == old(dirty) + {key}
      ensures established <==> baselines[key].established && !before.established
      ensures old(Described()) ==>
          (baselines[key].established <==> |PastOf(old(history), key)| + 1 >= cfg.minObservations)
      ensures if established
              then && |newlyEstablished| == |old(newlyEstablished)| + 1
                   && newlyEstablished[..|old(newlyEstablished)|] == old(newlyEstablished)
                   && IsSnapshot(newlyEstablished[|old(newlyEstablished)|], baselines[key])
              else newlyEstablished == old(newlyEstablished)
    {
      hide Add, AllDescribed, WindowsAreLast, IsAbout, IsTouched, Deviations, IsMean;
      AddTouches(cfg, PriorTo(baselines, key, value, at), value, at);
      var prior := Fresh(value, at);
      if key in baselines {
        prior := baselines[key];
      }
      if AllDescribed(baselines, history, cfg) {
        SampleDescribes(cfg, baselines, history, key, value, at);
        SampleIsAbout(cfg, baselines, history, key, value, at);
      }
      if WindowsAreLast(baselines, history, cfg) {
        SampleKeepsWindows(cfg, baselines, history, key, value, at);
      }
      before := prior.(window := []);
      var next := Add(cfg, prior, value, at);
      established := !prior.established && next.established;
      history := history[key := PastOf(history, key) + [value]];
      baselines := baselines[key := next];
      dirty := dirty + {key};
      if established {
        newlyEstablished := newlyEstablished + [next.(window := [])];
      }
    }

    /** Combines every bucket of a metric, visiting the map in whatever order it yields. */
    method GetAggregate(metric: string, dimension: string) returns (agg: Option<Aggregate>)
      requires Valid()
      ensures Described() ==> IsAggregate(agg, Buckets(baselines.Keys, metric, dimension), baselines, history, cfg)
    {
      hide Pooling, IsPooled, Enumerates, AllDescribed, WeightedMean;
      ghost var described := AllDescribed(baselines, history, cfg);
      var samples: nat, mean, m2, least, greatest := 0, 0.0, 0.0, 0.0, 0.0;
      ghost var order: seq<Key> := [];
      var todo := baselines.Keys;
      PooledNone(baselines, metric, dimension);
      while todo != {}
        invariant todo <= baselines.Keys
        invariant Enumerates(order, Buckets(baselines.Keys - todo, metric, dimension))
        invariant described ==> Pooling(samples, mean, m2, least, greatest, order, baselines)
        decreases |todo|
      {
        var key :| key in todo;
        ghost var seen := baselines.Keys - todo;
        EnumeratesMore(order, seen, metric, dimension, key);
        todo := todo - {key};
        assert baselines.Keys - todo == seen + {key};
        if key.metric != metric || key.dimension != dimension {
          continue;
        }
        var b := baselines[key];
        if described {
          PoolOne(samples, mean, m2, least, greatest, order, baselines, key, history, cfg);
        }
        if samples == 0 {
          least, greatest := b.min, b.max;
        }
        if samples + b.samples > 0 {
          mean := WeightedMean(mean, samples, b);
        }
        samples := samples + b.samples;
        m2 := m2 + b.m2;
        if b.min < least {
          least := b.min;
        }
        if b.max > greatest {
          greatest := b.max;
        }
        order := order + [key];
      }
      assert baselines.Keys - todo == baselines.Keys;
      var found := Aggregate(samples, mean, m2, least, greatest, samples >= cfg.minObservations);
      agg := if samples == 0 then None else Some(found);
      if described {
        PoolingEnds(found, order, Buckets(baselines.Keys, metric, dimension), baselines, history, cfg);
        assert IsPooled(agg, order, Buckets(baselines.Keys, metric, dimension), baselines, history, cfg);
      }
    }

    /** The changed baselines, each once; nothing counts as changed afterwards. */
    method TakeDirty() returns (rows: seq<Row>)
      requires Valid()
      modifies this`dirty
      ensures Valid() && dirty == {}
      ensures old(Described()) ==> Described()
      ensures RowsOf(rows, old(dirty), baselines)
    {
      rows := [];
      var todo := dirty;
      hide AllDescribed;
      while todo != {}
        invariant dirty == old(dirty) && todo <= dirty
        invariant RowsOf(rows, dirty - todo, baselines)
        decreases |todo|
      {
        var key :| key in todo;
        RowsOfMore(rows, dirty - todo, baselines, key);
        assert dirty - (todo - {key}) == dirty - todo + {key};
        rows := rows + [Row(key, baselines[key])];
        todo := todo - {key};
      }
      assert dirty - todo == dirty;
      dirty := {};
    }

    /** Restores stored rows, the last one of a key winning; past holds the samples that rows were
        built from, where it is known. */
    method Load(rows: seq<Row>, ghost past: map<Key, seq<real>>)
      requires Valid()
      modifies this`baselines, this`history
      ensures Valid()
      ensures Loaded(cfg, old(baselines), baselines, rows)
      ensures old(Described()) && RowsDescribed(rows, past) ==> Described()
      ensures old(ExactWindows()) && RowsAreFull(rows, past, cfg) ==> ExactWindows()
    {
      hide RowDescribes, AllDescribed, WindowsAreLast, Loaded;
      LoadedNone(cfg, baselines, rows[..0]);
      for i := 0 to |rows|
        invariant Valid()
        invariant Loaded(cfg, old(baselines), baselines, rows[..i])
        invariant old(Described()) && RowsDescribed(rows, past) ==> AllDescribed(baselines, history, cfg)
        invariant old(ExactWindows()) && RowsAreFull(rows, past, cfg) ==> WindowsAreLast(baselines, history, cfg)
      {
        var r := rows[i];
        var window := r.data.window;
        if |window| > cfg.windowSize {
          window := window[|window| - cfg.windowSize..];
        }
        LoadedMore(cfg, old(baselines), baselines, rows, i);
        ghost var xs := PastOf(past, r.key);
        if AllDescribed(baselines, history, cfg) && RowsDescribed(rows, past) {
          RestoredDescribes(cfg, baselines, history, r, xs);
        }
        if WindowsAreLast(baselines, history, cfg) && RowsAreFull(rows, past, cfg) {
          RestoredIsLast(cfg, baselines, history, r, xs);
        }
        var b := r.data.(window := window, established := r.data.samples >= cfg.minObservations);
        baselines := baselines[r.key := b];
        history := history[r.key := xs];
      }
      assert rows[..|rows|] == rows;
    }

    /** Drops baselines untouched since before now - MaxAge, changed or not. */
    method Prune(now: int) returns (removed: nat)
      requires Valid()
      modifies this
      ensures Valid()
      ensures old(Described()) ==> Described()
      ensures old(ExactWindows()) ==> ExactWindows()
      ensures baselines == Kept(old(baselines), now - cfg.maxAge)
      ensures dirty == old(dirty) * baselines.Keys
      ensures removed == |old(baselines)| - |baselines|
      ensures newlyEstablished == old(newlyEstablished)
    {
      hide AllDescribed, WindowsAreLast, Pruning;
      PruningStarts(baselines, now - cfg.maxAge);
      var cutoff := now - cfg.maxAge;
      removed := 0;
      var todo := baselines.Keys;
      while todo != {}
        invariant todo <= baselines.Keys
        invariant Pruning(old(baselines), baselines, todo, cutoff)
        invariant dirty == old(dirty) * baselines.Keys
        invariant old(Described()) ==> AllDescribed(baselines, history, cfg)
        invariant old(ExactWindows()) ==> WindowsAreLast(baselines, history, cfg)
        invariant removed == |old(baselines)| - |baselines|
        invariant newlyEstablished == old(newlyEstablished)
        decreases |todo|
      {
        var key :| key in todo;
        assert todo == todo - {key} + {key};
        todo := todo - {key};
        if baselines[key].updatedAt < cutoff {
          OneFewer(baselines, history, key, cfg);
          PruneOne(old(baselines), baselines, todo, cutoff, key);
          baselines := baselines - {key};
          history := history - {key};
          dirty := dirty - {key};
          removed := removed + 1;
        } else {
          PruneOne(old(baselines), baselines, todo, cutoff, key);
        }
      }
      PruningEnds(old(baselines), baselines, cutoff);
    }
  }

  lemma OneFewer(bs: map<Key, Baseline>, history: map<Key, seq<real>>, key: Key, cfg: Config)
    requires key in bs
    ensures |bs - {key}| == |bs| - 1
    ensures AllDescribed(bs, history, cfg) ==> AllDescribed(bs - {key}, history - {key}, cfg)
    ensures WindowsAreLast(bs, history, cfg) ==> WindowsAreLast(bs - {key}, history - {key}, cfg)
  {
    assert (bs - {key}).Keys == bs.Keys - {key};
    assert |bs| == |bs.Keys| && |bs - {key}| == |(bs - {key}).Keys|;
  }

  /** The sweep so far: what is gone was too old, what is left is to do or young enough. */
  ghost predicate Pruning(before: map<Key, Baseline>, bs: map<Key, Baseline>, todo: set<Key>, cutoff: int) {
    && (forall k :: k in bs ==> k in before && bs[k] == before[k])
    && (forall k :: k in before ==> (k in bs <==> k in todo || before[k].updatedAt >= cutoff))
  }

  lemma PruningStarts(bs: map<Key, Baseline>, cutoff: int)
    ensures Pruning(bs, bs, bs.Keys, cutoff)
  {
  }

  lemma PruneOne(before: map<Key, Baseline>, bs: map<Key, Baseline>, todo: set<Key>, cutoff: int, key: Key)
    requires Pruning(before, bs, todo + {key}, cutoff) && key in bs && key !in todo
    ensures Pruning(before, if bs[key].updatedAt < cutoff then bs - {key} else bs, todo, cutoff)
  {
  }

  lemma PruningEnds(before: map<Key, Baseline>, bs: map<Key, Baseline>, cutoff: int)
    requires Pruning(before, bs, {}, cutoff)
    ensures bs == Kept(before, cutoff)
  {
  }

  /** Baselines last touched at or after the cutoff. */
  function Kept(bs: map<Key, Baseline>, cutoff: int): map<Key, Baseline> {
    map k | k in bs && bs[k].updatedAt >= cutoff :: bs[k]
  }

  /** One row for each changed key, holding the present baseline. */
  ghost predicate RowsOf(rows: seq<Row>, keys: set<Key>, bs: map<Key, Baseline>) {
    && (forall r :: r in rows ==> r.key in keys && r.key in bs && r.data == bs[r.key])
    && (forall k :: k in keys ==> HasRow(rows, k))
    && Distinct(rows)
  }

  lemma RowsOfMore(rows: seq<Row>, keys: set<Key>, bs: map<Key, Baseline>, key: Key)
    requires RowsOf(rows, keys, bs) && key !in keys && key in bs
    ensures RowsOf(rows + [Row(key, bs[key])], keys + {key}, bs)
  {
    var more := rows + [Row(key, bs[key])];
    assert more[|rows|].key == key;
    forall k | k in keys
      ensures HasRow(more, k)
    {
      var i :| 0 <= i < |rows| && rows[i].key == k;
      assert more[i].key == k;
    }
    forall i | 0 <= i < |rows| ensures rows[i].key != key {
      assert rows[i] in rows;
    }
  }

  /** What a row claims about the samples it was built from. */
  ghost predicate RowDescribes(b: Baseline, xs: seq<real>) {
    && xs != [] && Moments(b, xs) && IsLeast(b.min, xs) && IsGreatest(b.max, xs)
    && |b.window| <= |xs| && b.window == Last(xs, |b.window|)
  }

  ghost predicate RowsDescribed(rows: seq<Row>, past: map<Key, seq<real>>) {
    forall i :: 0 <= i < |rows| ==> rows[i].key in past && RowDescribes(rows[i].data, past[rows[i].key])
  }

  lemma RestoredDescribes(cfg: Config, bs: map<Key, Baseline>, history: map<Key, seq<real>>, row: Row, xs: seq<real>)
    requires AllDescribed(bs, history, cfg) && RowDescribes(row.data, xs)
    ensures AllDescribed(bs[row.key := Restored(cfg, row.data)], history[row.key := xs], cfg)
  {
    hide AllDescribed, Moments;
    var w := Clip(row.data.window, cfg.windowSize);
    assert w == Last(xs, |w|);
    MomentsOfRestored(cfg, row.data, xs);
    ReplacedDescribes(cfg, bs, history, row.key, Restored(cfg, row.data), xs);
  }

  lemma MomentsOfRestored(cfg: Config, b: Baseline, xs: seq<real>)
    requires Moments(b, xs)
    ensures Moments(Restored(cfg, b), xs) && b.samples == |xs|
  {
    hide ClosedForm;
  }

  /** Every baseline held describes the samples recorded for it. */
  ghost predicate AllDescribed(bs: map<Key, Baseline>, history: map<Key, seq<real>>, cfg: Config) {
    bs.Keys == history.Keys && forall k :: k in bs ==> Describes(bs[k], history[k], cfg)
  }

  /** Every window is the last WindowSize samples of its history, or all when there are fewer. */
  ghost predicate WindowsAreLast(bs: map<Key, Baseline>, history: map<Key, seq<real>>, cfg: Config) {
    bs.Keys == history.Keys && forall k :: k in bs ==> bs[k].window == Last(history[k], cfg.windowSize)
  }

  /** The stored windows are no shorter than this configuration wants. */
  ghost predicate RowsAreFull(rows: seq<Row>, past: map<Key, seq<real>>, cfg: Config) {
    forall i :: 0 <= i < |rows| ==>
      var w := rows[i].data.window;
      rows[i].key in past && w == Last(past[rows[i].key], |w|)
      && |w| >= |Last(past[rows[i].key], cfg.windowSize)|
  }

  lemma RestoredIsLast(cfg: Config, bs: map<Key, Baseline>, history: map<Key, seq<real>>, row: Row, xs: seq<real>)
    requires WindowsAreLast(bs, history, cfg)
    requires row.data.window == Last(xs, |row.data.window|) && |row.data.window| >= |Last(xs, cfg.windowSize)|
    ensures WindowsAreLast(bs[row.key := Restored(cfg, row.data)], history[row.key := xs], cfg)
  {
    var w := row.data.window;
    assert Clip(w, cfg.windowSize) == Last(xs, cfg.windowSize);
  }

  lemma DescribedAt(bs: map<Key, Baseline>, history: map<Key, seq<real>>, cfg: Config, k: Key)
    requires AllDescribed(bs, history, cfg) && k in bs
    ensures bs[k].samples > 0
  {
  }

  lemma AllDescribedHaveMoments(bs: map<Key, Baseline>, history: map<Key, seq<real>>, cfg: Config,
                                order: seq<Key>, least: real, greatest: real)
    requires AllDescribed(bs, history, cfg) && PooledExtremes(least, greatest, order, bs)
    ensures AllMoments(order, bs, history)
  {
    forall k | k in order
      ensures k in bs && k in history && Moments(bs[k], history[k])
    {
      assert Describes(bs[k], history[k], cfg);
    }
  }

  lemma SampleDescribes(
    cfg: Config, bs: map<Key, Baseline>, history: map<Key, seq<real>>, k: Key, value: real, at: int)
    requires cfg.Valid() && AllDescribed(bs, history, cfg)
    ensures AllDescribed(bs[k := Add(cfg, PriorTo(bs, k, value, at), value, at)],
                         history[k := PastOf(history, k) + [value]], cfg)
    ensures Add(cfg, PriorTo(bs, k, value, at), value, at).established <==>
        |PastOf(history, k)| + 1 >= cfg.minObservations
  {
    hide Add, Moments, Shape, AllDescribed;
    PriorDescribes(cfg, bs, history, k, value, at);
    AddDescribes(cfg, PriorTo(bs, k, value, at), PastOf(history, k), value, at);
    var next, xs := Add(cfg, PriorTo(bs, k, value, at), value, at), PastOf(history, k) + [value];
    ShapeSaysReady(next, xs, cfg);
    ReplacedDescribes(cfg, bs, history, k, next, xs);
  }

  lemma DescribedIsAbout(b: Baseline, xs: seq<real>, cfg: Config)
    requires Describes(b, xs, cfg)
    ensures IsAbout(b, xs) && IsAbout(b.(window := []), xs)
  {
    hide IsMean, Deviations, ClosedForm;
    MomentsAreDeviations(b, xs);
  }

  lemma SampleIsAbout(
    cfg: Config, bs: map<Key, Baseline>, history: map<Key, seq<real>>, k: Key, value: real, at: int)
    requires cfg.Valid() && AllDescribed(bs, history, cfg)
    ensures IsAbout(Add(cfg, PriorTo(bs, k, value, at), value, at), PastOf(history, k) + [value])
    ensures k in bs ==> IsAbout(bs[k].(window := []), history[k])
  {
    hide Add, Moments, Shape, Describes, IsAbout;
    PriorDescribes(cfg, bs, history, k, value, at);
    AddDescribes(cfg, PriorTo(bs, k, value, at), PastOf(history, k), value, at);
    DescribedIsAbout(Add(cfg, PriorTo(bs, k, value, at), value, at), PastOf(history, k) + [value], cfg);
    if k in bs {
      DescribedIsAbout(bs[k], history[k], cfg);
    }
  }

  lemma AddTouches(cfg: Config, b: Baseline, value: real, at: int)
    ensures IsTouched(Add(cfg, b, value, at), b, value, at, cfg.alpha)
  {
    hide Quotient;
    assert cfg.alpha * value + (1.0 - cfg.alpha) * b.ewma == b.ewma + cfg.alpha * (value - b.ewma);
  }

  lemma PriorDescribes(
    cfg: Config, bs: map<Key, Baseline>, history: map<Key, seq<real>>, k: Key, value: real, at: int)
    requires AllDescribed(bs, history, cfg)
    ensures var b, xs := PriorTo(bs, k, value, at), PastOf(history, k);
            if xs == [] then Moments(b, xs) && b.window == [] else Describes(b, xs, cfg)
  {
    if k in bs {
      assert Describes(bs[k], history[k], cfg);
    }
  }

  lemma ShapeSaysReady(b: Baseline, xs: seq<real>, cfg: Config)
    requires Shape(b, xs, cfg)
    ensures b.established == (|xs| >= cfg.minObservations)
  {
  }

  lemma ReplacedDescribes(
    cfg: Config, bs: map<Key, Baseline>, history: map<Key, seq<real>>, k: Key, b: Baseline, xs: seq<real>)
    requires AllDescribed(bs, history, cfg) && Describes(b, xs, cfg)
    ensures AllDescribed(bs[k := b], history[k := xs], cfg)
  {
    hide Describes;
  }

  lemma SampleKeepsWindows(cfg: Config, bs: map<Key, Baseline>, history: map<Key, seq<real>>, k: Key, value: real,
                           at: int)
    requires cfg.Valid() && WindowsAreLast(bs, history, cfg)
    ensures WindowsAreLast(bs[k := Add(cfg, PriorTo(bs, k, value, at), value, at)],
                           history[k := PastOf(history, k) + [value]], cfg)
  {
    hide Add;
    AddKeepsWindow(cfg, PriorTo(bs, k, value, at), PastOf(history, k), value, at);
  }

  /** The last row of a key. */
  function LatestRow(rows: seq<Row>, k: Key): Option<Baseline> {
    if rows == [] then None
    else if rows[|rows| - 1].key == k then Some(rows[|rows| - 1].data)
    else LatestRow(rows[..|rows| - 1], k)
  }

  /** The baselines after loading rows over those before. */
  ghost predicate Loaded(cfg: Config, before: map<Key, Baseline>, after: map<Key, Baseline>, rows: seq<Row>) {
    forall k ::
      && (k in after <==> k in before || LatestRow(rows, k).Some?)
      && (k in after ==> after[k] == match LatestRow(rows, k)
                                     case None => before[k]
                                     case Some(data) => Restored(cfg, data))
  }

  lemma LoadedNone(cfg: Config, bs: map<Key, Baseline>, rows: seq<Row>)
    requires rows == []
    ensures Loaded(cfg, bs, bs, rows)
  {
  }

  ghost predicate HasRow(rows: seq<Row>, k: Key) {
    exists i :: 0 <= i < |rows| && rows[i].key == k
  }

  lemma LoadedMore(cfg: Config, before: map<Key, Baseline>, after: map<Key, Baseline>, rows: seq<Row>, i: nat)
    requires i < |rows| && Loaded(cfg, before, after, rows[..i])
    ensures Loaded(cfg, before, after[rows[i].key := Restored(cfg, rows[i].data)], rows[..i + 1])
  {
    assert rows[..i + 1][..i] == rows[..i];
  }

  /** A key whose rows all say the same. */
  lemma {:induction false} LatestOfEqual(rows: seq<Row>, k: Key, data: Baseline)
    requires forall i :: 0 <= i < |rows| && rows[i].key == k ==> rows[i].data == data
    ensures LatestRow(rows, k) == if HasRow(rows, k) then Some(data) else None
  {
    if rows != [] {
      var n := |rows| - 1;
      LatestOfEqual(rows[..n], k, data);
      if HasRow(rows, k) && rows[n].key != k {
        var i :| 0 <= i < |rows| && rows[i].key == k;
        assert rows[..n][i].key == k;
      }
      if HasRow(rows[..n], k) {
        var i :| 0 <= i < n && rows[..n][i].key == k;
        assert rows[i].key == k;
      }
    }
  }

  // ----- Enumerating buckets -------------------------------------------------------------------

  function Buckets(keys: set<Key>, metric: string, dimension: string): set<Key> {
    set k | k in keys && k.metric == metric && k.dimension == dimension
  }

  /** Each of the keys once, in some order. */
  ghost predicate Enumerates(order: seq<Key>, keys: set<Key>) {
    && (forall k :: k in order <==> k in keys)
    && (forall i, j :: 0 <= i < j < |order| ==> order[i] != order[j])
  }

  /** The pooled figures of the keys' baselines in one order, or none when there is no key. */
  ghost predicate IsPooled(agg: Option<Aggregate>, order: seq<Key>, keys: set<Key>, bs: map<Key, Baseline>,
                           history: map<Key, seq<real>>, cfg: Config)
  {
    && Enumerates(order, keys) && (agg.None? <==> order == [])
    && (agg.Some? ==> agg.value.samples > 0 && Pools(agg.value, order, bs, cfg) && AllMoments(order, bs, history))
  }

  ghost predicate IsAggregate(agg: Option<Aggregate>, keys: set<Key>, bs: map<Key, Baseline>,
                              history: map<Key, seq<real>>, cfg: Config)
  {
    exists order :: IsPooled(agg, order, keys, bs, history, cfg)
  }

  lemma EnumeratesMore(order: seq<Key>, keys: set<Key>, metric: string, dimension: string, key: Key)
    requires Enumerates(order, Buckets(keys, metric, dimension)) && key !in keys
    ensures if key.metric == metric && key.dimension == dimension
            then Enumerates(order + [key], Buckets(keys + {key}, metric, dimension))
            else Enumerates(order, Buckets(keys + {key}, metric, dimension))
  {
    if key.metric == metric && key.dimension == dimension {
      assert Buckets(keys + {key}, metric, dimension) == Buckets(keys, metric, dimension) + {key};
      forall i | 0 <= i < |order| ensures order[i] != key {
        assert order[i] in order;
      }
    } else {
      assert Buckets(keys + {key}, metric, dimension) == Buckets(keys, metric, dimension);
    }
  }

  lemma {:induction false} EnumerationsArePermutations(o1: seq<Key>, o2: seq<Key>, keys: set<Key>)
    requires Enumerates(o1, keys) && Enumerates(o2, keys)
    ensures multiset(o1) == multiset(o2)
  {
    EachOnce(o1, keys);
    EachOnce(o2, keys);
  }

  lemma {:induction false} EachOnce(order: seq<Key>, keys: set<Key>)
    requires Enumerates(order, keys)
    ensures multiset(order) == multiset(keys)
  {
    if order == [] {
      assert keys == {};
    } else {
      var n := |order| - 1;
      assert order == order[..n] + [order[n]];
      forall k ensures k in order[..n] <==> k in keys - {order[n]} {
        if k in order[..n] {
          var i :| 0 <= i < n && order[..n][i] == k;
          assert order[i] != order[n] && order[i] in order;
        }
      }
      EachOnce(order[..n], keys - {order[n]});
      assert order[n] in order;
      assert multiset(keys) == multiset(keys - {order[n]}) + multiset{order[n]};
    }
  }

  // ----- Pooling loop ------------------------------------------------------------------------

  ghost predicate PooledSums(samples: nat, mean: real, m2: real, order: seq<Key>, bs: map<Key, Baseline>) {
    && (forall k :: k in order ==> k in bs)
    && samples as real == Total(order, Counts(bs))
    && MeanOf(mean, samples as real, Total(order, Masses(bs)))
    && m2 == Total(order, Spreads(bs))
  }

  ghost predicate PooledExtremes(least: real, greatest: real, order: seq<Key>, bs: map<Key, Baseline>) {
    && (forall k :: k in order ==> k in bs && least <= bs[k].min && bs[k].max <= greatest)
    && (order != [] ==> exists k :: k in order && least == bs[k].min)
    && (order != [] ==> exists k :: k in order && greatest == bs[k].max)
  }

  /** The loop's variables stand for the buckets of order. */
  ghost predicate Pooling(samples: nat, mean: real, m2: real, least: real, greatest: real, order: seq<Key>,
                          bs: map<Key, Baseline>)
  {
    && PooledSums(samples, mean, m2, order, bs) && PooledExtremes(least, greatest, order, bs)
    && (samples == 0 <==> order == [])
  }

  lemma PoolOne(samples: nat, mean: real, m2: real, least: real, greatest: real, order: seq<Key>,
                bs: map<Key, Baseline>, key: Key, history: map<Key, seq<real>>, cfg: Config)
    requires Pooling(samples, mean, m2, least, greatest, order, bs)
    requires AllDescribed(bs, history, cfg) && key in bs
    ensures bs[key].samples > 0
    ensures var b := bs[key];
            Pooling(samples + b.samples, WeightedMean(mean, samples, b), m2 + b.m2,
                    if samples == 0 || b.min < least then b.min else least,
                    if samples == 0 || b.max > greatest then b.max else greatest, order + [key], bs)
  {
    hide AllDescribed, PooledSums, PooledExtremes, WeightedMean;
    DescribedAt(bs, history, cfg, key);
    PoolOneSums(samples, mean, m2, order, bs, key);
    PoolOneExtremes(least, greatest, order, bs, key);
  }

  lemma PoolingEnds(agg: Aggregate, order: seq<Key>, keys: set<Key>, bs: map<Key, Baseline>,
                    history: map<Key, seq<real>>, cfg: Config)
    requires Pooling(agg.samples, agg.mean, agg.m2, agg.min, agg.max, order, bs) && Enumerates(order, keys)
    requires AllDescribed(bs, history, cfg) && agg.established == (agg.samples >= cfg.minObservations)
    ensures IsPooled(if agg.samples == 0 then None else Some(agg), order, keys, bs, history, cfg)
  {
    hide AllDescribed, PooledSums, PooledExtremes, Enumerates, Pools, AllMoments;
    if agg.samples > 0 {
      PooledAll(agg, order, bs, cfg);
      AllDescribedHaveMoments(bs, history, cfg, order, agg.min, agg.max);
    }
  }

  lemma PooledNone(bs: map<Key, Baseline>, metric: string, dimension: string)
    ensures Pooling(0, 0.0, 0.0, 0.0, 0.0, [], bs)
    ensures Enumerates([], Buckets(bs.Keys - bs.Keys, metric, dimension))
  {
  }

  lemma PoolOneSums(samples: nat, mean: real, m2: real, order: seq<Key>, bs: map<Key, Baseline>, key: Key)
    requires key in bs && bs[key].samples > 0
    requires PooledSums(samples, mean, m2, order, bs)
    ensures var b := bs[key];
            PooledSums(samples + b.samples, WeightedMean(mean, samples, b), m2 + b.m2, order + [key], bs)
  {
    hide MeanOf, Mass;
    var b := bs[key];
    TotalAppend(order, key, Counts(bs));
    TotalAppend(order, key, Masses(bs));
    TotalAppend(order, key, Spreads(bs));
    PoolMean(mean, samples, b, Total(order, Masses(bs)));
    assert (samples + b.samples) as real == Total(order + [key], Counts(bs));
    assert Total(order + [key], Masses(bs)) == Total(order, Masses(bs)) + Mass(b);
  }

  lemma TotalAppend(order: seq<Key>, key: Key, f: map<Key, real>)
    requires key in f && forall k :: k in order ==> k in f
    ensures forall k :: k in order + [key] ==> k in f
    ensures Total(order + [key], f) == Total(order, f) + f[key]
  {
    assert (order + [key])[..|order|] == order;
  }

  function WeightedMean(mean: real, samples: nat, b: Baseline): real
    requires samples + b.samples > 0
  {
    Quotient(mean * samples as real + b.mean * b.samples as real, (samples + b.samples) as real)
  }

  lemma PoolOneExtremes(least: real, greatest: real, order: seq<Key>, bs: map<Key, Baseline>, key: Key)
    requires key in bs && PooledExtremes(least, greatest, order, bs)
    ensures var b := bs[key];
            PooledExtremes(if order == [] || b.min < least then b.min else least,
                           if order == [] || b.max > greatest then b.max else greatest, order + [key], bs)
  {
    var all := order + [key];
    assert all[|order|] == key;
    assert forall k :: k in all <==> k in order || k == key;
    if order != [] {
      var k :| k in order && least == bs[k].min;
      assert k in all;
      var k' :| k' in order && greatest == bs[k'].max;
      assert k' in all;
    }
  }

  lemma PoolMean(mean: real, samples: nat, b: Baseline, sum: real)
    requires b.samples > 0 && MeanOf(mean, samples as real, sum)
    ensures MeanOf(WeightedMean(mean, samples, b), (samples + b.samples) as real, sum + Mass(b))
  {
  }

  lemma PooledAll(agg: Aggregate, order: seq<Key>, bs: map<Key, Baseline>, cfg: Config)
    requires order != []
    requires PooledSums(agg.samples, agg.mean, agg.m2, order, bs) && PooledExtremes(agg.min, agg.max, order, bs)
    requires agg.established == (agg.samples >= cfg.minObservations)
    ensures Pools(agg, order, bs, cfg)
  {
    hide MeanOf, Mass;
  }

  // ----- The table ---------------------------------------------------------------------------

  class BaselineTable {
    var rows: map<Key, Baseline>

    constructor ()
      ensures rows == map[]
    {
      rows := map[];
    }

    /** One transaction of upserts; a conflict keeps the stored first_seen. */
    method Save(batch: seq<Row>)
      requires Distinct(batch)
      modifies this
      ensures SavedBatch(old(rows), rows, batch)
    {
      var table := rows;
      for i := 0 to |batch|
        invariant SavedBatch(old(rows), table, batch[..i])
      {
        var r := batch[i];
        SavedMore(old(rows), table, batch, i);
        if r.key in table {
          table := table[r.key := r.data.(firstSeen := table[r.key].firstSeen)];
        } else {
          table := table[r.key := r.data];
        }
      }
      assert batch[..|batch|] == batch;
      rows := table;
    }

    method LoadAll() returns (out: seq<Row>)
      ensures RowsOf(out, rows.Keys, rows)
    {
      out := [];
      var todo := rows.Keys;
      while todo != {}
        invariant todo <= rows.Keys
        invariant RowsOf(out, rows.Keys - todo, rows)
        decreases |todo|
      {
        var key :| key in todo;
        RowsOfMore(out, rows.Keys - todo, rows, key);
        assert rows.Keys - (todo - {key}) == rows.Keys - todo + {key};
        out := out + [Row(key, rows[key])];
        todo := todo - {key};
      }
      assert rows.Keys - todo == rows.Keys;
    }

    method Prune(olderThan: int) returns (n: nat)
      modifies this
      ensures rows == Kept(old(rows), olderThan) && n == |old(rows)| - |rows|
    {
      ghost var before := rows;
      var gone := set k | k in rows && rows[k].updatedAt < olderThan;
      n := |gone|;
      rows := rows - gone;
      assert rows.Keys == before.Keys - gone;
      assert |before.Keys| == |rows.Keys| + |gone| by {
        assert before.Keys == rows.Keys + gone;
      }
    }
  }

  ghost predicate Distinct(rows: seq<Row>) {
    forall i, j :: 0 <= i < j < |rows| ==> rows[i].key != rows[j].key
  }

  /** The table after upserting a batch of rows with distinct keys. */
  ghost predicate SavedBatch(before: map<Key, Baseline>, after: map<Key, Baseline>, batch: seq<Row>) {
    && (forall k :: k in after <==> k in before || HasRow(batch, k))
    && (forall i :: 0 <= i < |batch| ==> batch[i].key in after && after[batch[i].key] == Upserted(before, batch[i]))
    && (forall k :: k in before && !HasRow(batch, k) ==> k in after && after[k] == before[k])
  }

  lemma SavedMore(before: map<Key, Baseline>, after: map<Key, Baseline>, batch: seq<Row>, i: nat)
    requires i < |batch| && Distinct(batch) && SavedBatch(before, after, batch[..i])
    ensures SavedBatch(before, after[batch[i].key := Upserted(after, batch[i])], batch[..i + 1])
    ensures !HasRow(batch[..i], batch[i].key)
  {
    var r := batch[i];
    assert batch[..i + 1] == batch[..i] + [r];
    assert !HasRow(batch[..i], r.key);
    forall k
      ensures HasRow(batch[..i + 1], k) <==> HasRow(batch[..i], k) || k == r.key
    {
    }
    var after' := after[r.key := Upserted(after, r)];
    forall j {:trigger batch[j]} | 0 <= j < i + 1
      ensures batch[..i + 1][j].key in after' && after'[batch[..i + 1][j].key] == Upserted(before, batch[..i + 1][j])
    {
      if j < i {
        assert batch[..i][j] == batch[j];
      }
    }
  }

  function Upserted(table: map<Key, Baseline>, r: Row): Baseline {
    if r.key in table then r.data.(firstSeen := table[r.key].firstSeen) else r.data
  }

  // ----- What an aggregate is ----------------------------------------------------------------

  /** Whatever order the map yields, pooling the same buckets gives the same figures. */
  lemma {:induction false} AggregateIsDetermined(a: Option<Aggregate>, b: Option<Aggregate>, keys: set<Key>,
                              bs: map<Key, Baseline>, history: map<Key, seq<real>>, cfg: Config)
    requires IsAggregate(a, keys, bs, history, cfg) && IsAggregate(b, keys, bs, history, cfg)
    ensures a == b
  {
    hide Pools, AllMoments, Enumerates;
    var o1 :| IsPooled(a, o1, keys, bs, history, cfg);
    var o2 :| IsPooled(b, o2, keys, bs, history, cfg);
    EnumerationsArePermutations(o1, o2, keys);
    assert |o1| == |multiset(o1)| == |multiset(o2)| == |o2|;
    if a.Some? {
      PoolingIsOrderFree(a.value, b.value, o1, o2, bs, cfg);
    }
  }

  /** The aggregate is that of all samples of the metric's buckets, laid end to end: their mean, and
      no more than their sum of squared deviations. */
  lemma {:induction false} AggregateIsOfAllSamples(a: Aggregate, keys: set<Key>, bs: map<Key, Baseline>,
                                                   history: map<Key, seq<real>>, cfg: Config)
    returns (order: seq<Key>)
    requires IsAggregate(Some(a), keys, bs, history, cfg)
    ensures Enumerates(order, keys) && AllMoments(order, bs, history)
    ensures a.samples == |Pool(order, history)| && IsMean(a.mean, Pool(order, history))
    ensures a.m2 <= Deviations(Pool(order, history), a.mean)
  {
    hide Pools, AllMoments, Enumerates;
    order :| IsPooled(Some(a), order, keys, bs, history, cfg);
    PoolingIsExactUpToBetween(a, order, bs, history, cfg);
  }
}
