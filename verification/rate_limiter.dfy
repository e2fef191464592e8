/** The API rate limiter (rateLimiter in internal/api/api.go).

    Each key has a slice: a length over a buffer that is compacted in place and grown by
    append. The limiter is proved against the complete list of accepted requests. */
module RateLimiter {
  import opened Wrappers

  datatype Slice = Slice(buf: array<int>, len: nat)

  // ----- Accepted requests of one key ---------------------------------------------------

  /** The times after the cutoff, in order. */
  function After(ts: seq<int>, cutoff: int): seq<int> {
    Filter(LaterThan(cutoff), ts)
  }

  function LaterThan(cutoff: int): int -> bool {
    t => t > cutoff
  }

  ghost predicate Sorted(ts: seq<int>) {
    forall i, j :: 0 <= i <= j < |ts| ==> ts[i] <= ts[j]
  }

  lemma AfterTwice(ts: seq<int>, c: int, d: int)
    requires c <= d
    ensures After(After(ts, c), d) == After(ts, d)
  {
    FilterTwice(LaterThan(c), LaterThan(d), ts);
  }

  lemma AfterAppend(ts: seq<int>, t: int, c: int)
    ensures After(ts + [t], c) == if t > c then After(ts, c) + [t] else After(ts, c)
  {
    FilterAppend(LaterThan(c), ts, t);
  }

  /** How many leading times are not after the cutoff, when they are in order. */
  function Expired(ts: seq<int>, c: int): (k: nat)
    ensures k <= |ts|
  {
    if ts == [] then 0
    else if ts[|ts| - 1] > c then Expired(ts[..|ts| - 1], c)
    else |ts|
  }

  /** In time order, what is after the cutoff is a tail. */
  lemma {:induction false} AfterIsTail(ts: seq<int>, c: int)
    requires Sorted(ts)
    ensures After(ts, c) == ts[Expired(ts, c)..]
    ensures forall i :: 0 <= i < |ts| ==> (i < Expired(ts, c) <==> ts[i] <= c)
  {
    hide Sorted, After;
    if ts == [] {
      NoneAfter(ts, c);
    } else {
      var n := |ts| - 1;
      var init := ts[..n];
      SortedInit(ts);
      AfterIsTail(init, c);
      assert ts == init + [ts[n]];
      AfterAppend(init, ts[n], c);
      assert forall i :: 0 <= i < n ==> ts[i] == init[i];
      if ts[n] > c {
        var k := Expired(init, c);
        assert init[k..] + [ts[n]] == ts[k..];
      } else {
        NoneAfter(init, c);
      }
    }
  }

  lemma SortedInit(ts: seq<int>)
    requires Sorted(ts) && ts != []
    ensures Sorted(ts[..|ts| - 1])
    ensures forall i :: 0 <= i < |ts| ==> ts[i] <= ts[|ts| - 1]
  {
  }

  lemma {:induction false} NoneAfter(ts: seq<int>, c: int)
    requires forall i :: 0 <= i < |ts| ==> ts[i] <= c
    ensures After(ts, c) == []
  {
    if ts != [] {
      NoneAfter(ts[..|ts| - 1], c);
    }
  }

  /** Every limit + 1 consecutive accepts span at least the window. */
  ghost predicate Spaced(ts: seq<int>, limit: nat, window: int) {
    forall i :: 0 <= i && i + limit < |ts| ==> ts[i + limit] - ts[i] >= window
  }

  function CountIn(ts: seq<int>, from: int, until: int): nat {
    if ts == [] then 0
    else CountIn(ts[..|ts| - 1], from, until) + if from <= ts[|ts| - 1] < until then 1 else 0
  }

  /** In time order, the accepts of an interval are consecutive. */
  lemma {:induction false} CountIsSlice(ts: seq<int>, from: int, until: int) returns (a: nat, b: nat)
    requires Sorted(ts)
    ensures a <= b <= |ts| && CountIn(ts, from, until) == b - a
    ensures forall i :: a <= i < b ==> from <= ts[i] < until
    ensures b < |ts| ==> ts[b] >= until || a == b
    ensures forall i :: 0 <= i < |ts| && from <= ts[i] < until ==> a <= i < b
  {
    if ts == [] {
      a, b := 0, 0;
    } else {
      var n := |ts| - 1;
      a, b := CountIsSlice(ts[..n], from, until);
      if from <= ts[n] < until {
        if a == b {
          a, b := n, n + 1;
        } else {
          assert forall i :: 0 <= i < n ==> ts[..n][i] == ts[i] <= ts[n];
          b := n + 1;
        }
      }
    }
  }

  ghost predicate HoldsAtMost(ts: seq<int>, from: int, window: int, limit: nat) {
    CountIn(ts, from, from + window) <= limit
  }

  ghost predicate Apart(ts: seq<int>, i: int, j: int, window: int) {
    0 <= i < |ts| && 0 <= j < |ts| && ts[j] - ts[i] >= window
  }

  lemma TooManyAreTooClose(ts: seq<int>, limit: nat, window: int, a: nat, b: nat)
    requires Spaced(ts, limit, window) && a <= b <= |ts|
    requires forall i, j :: a <= i < b && a <= j < b ==> ts[j] - ts[i] < window
    ensures b - a <= limit
  {
    var last := a + limit;
    assert last < b ==> Apart(ts, a, last, window);
  }

  /** Spacing says exactly that no window-long interval holds more than limit accepts. */
  lemma SpacedIff(ts: seq<int>, limit: nat, window: int)
    requires Sorted(ts) && window > 0
    ensures Spaced(ts, limit, window) <==> forall t :: HoldsAtMost(ts, t, window, limit)
  {
    if Spaced(ts, limit, window) {
      forall t
        ensures HoldsAtMost(ts, t, window, limit)
      {
        var a, b := CountIsSlice(ts, t, t + window);
        assert forall i :: 0 <= i && i + limit < |ts| ==> ts[i + limit] - ts[i] >= window;
        TooManyAreTooClose(ts, limit, window, a, b);
      }
    }
    if forall t :: HoldsAtMost(ts, t, window, limit) {
      forall i | 0 <= i && i + limit < |ts|
        ensures ts[i + limit] - ts[i] >= window
      {
        var a, b := CountIsSlice(ts, ts[i], ts[i] + window);
        assert HoldsAtMost(ts, ts[i], window, limit);
        assert a <= i < b;
        assert ts[i] <= ts[i + limit];
        assert ts[i + limit] < ts[i] + window ==> i + limit < b;
      }
    }
  }

  /** A retry after d, with nothing accepted in between, is let through exactly from the
      returned wait on. */
  lemma WaitIsLeast(ts: seq<int>, limit: nat, window: int, now: int, d: nat)
    requires Sorted(ts) && limit > 0
    requires |After(ts, now - window)| == limit
    ensures var wait := After(ts, now - window)[0] + window - now;
            wait > 0 && (|After(ts, now + d - window)| < limit <==> d >= wait)
  {
    hide After;
    AfterIsSorted(ts, now - window);
    AfterTwice(ts, now - window, now + d - window);
    FirstDecides(After(ts, now - window), now + d - window);
  }

  lemma {:induction false} AfterIsSorted(ts: seq<int>, c: int)
    requires Sorted(ts)
    ensures Sorted(After(ts, c))
    ensures forall i :: 0 <= i < |After(ts, c)| ==> After(ts, c)[i] > c && After(ts, c)[i] in ts
  {
    if ts != [] {
      var n := |ts| - 1;
      AfterIsSorted(ts[..n], c);
      var w := After(ts[..n], c);
      forall i | 0 <= i < |w| ensures w[i] in ts && w[i] <= ts[n] {
        var j :| 0 <= j < n && ts[..n][j] == w[i];
        assert ts[j] == w[i];
      }
    }
  }

  lemma FirstDecides(ts: seq<int>, c: int)
    requires Sorted(ts) && ts != []
    ensures |After(ts, c)| < |ts| <==> ts[0] <= c
  {
    hide After;
    AfterIsTail(ts, c);
  }

  // ----- The limiter -----------------------------------------------------------------------

  /** The compacting loop: what is after the cutoff moves to the front of the buffer. */
  method Compact(buf: array<int>, len: nat, cutoff: int) returns (n: nat)
    requires len <= buf.Length
    modifies buf
    ensures n <= len && buf[..n] == After(old(buf[..len]), cutoff)
    ensures n == len ==> buf[..] == old(buf[..])
  {
    n := 0;
    for i := 0 to len
      invariant n <= i && buf[..n] == After(old(buf[..])[..i], cutoff)
      invariant forall j :: i <= j < buf.Length ==> buf[j] == old(buf[j])
      invariant n == i ==> buf[..] == old(buf[..])
    {
      assert old(buf[..])[..i + 1] == old(buf[..])[..i] + [buf[i]];
      AfterAppend(old(buf[..])[..i], buf[i], cutoff);
      if buf[i] > cutoff {
        buf[n] := buf[i];
        n := n + 1;
      }
    }
    assert old(buf[..])[..len] == old(buf[..len]);
  }

  /** append: in place while the buffer has room, into a larger copy otherwise. */
  method Append(s: Slice, t: int) returns (r: Slice)
    requires s.len <= s.buf.Length
    modifies s.buf
    ensures r.len == s.len + 1 <= r.buf.Length
    ensures r.buf[..r.len] == old(s.buf[..s.len]) + [t]
    ensures r.buf == s.buf || fresh(r.buf)
  {
    if s.len < s.buf.Length {
      s.buf[s.len] := t;
      assert s.buf[..s.len + 1] == old(s.buf[..s.len]) + [t];
      return Slice(s.buf, s.len + 1);
    }
    var bigger := new int[2 * s.len + 1];
    for i := 0 to s.len
      invariant s.buf[..] == old(s.buf[..]) && bigger[..i] == s.buf[..i]
    {
      bigger[i] := s.buf[i];
    }
    bigger[s.len] := t;
    assert bigger[..s.len + 1] == s.buf[..s.len] + [t];
    r := Slice(bigger, s.len + 1);
  }

  ghost function Times(accepted: map<string, seq<int>>, key: string): seq<int> {
    if key in accepted then accepted[key] else []
  }

  class Limiter {
    const limit: nat
    const window: int
    var hits: map<string, Slice>
    /** What the slices hold, every request ever accepted, and the time of the latest call. */
    ghost var lists: map<string, seq<int>>
    ghost var accepted: map<string, seq<int>>
    ghost var clock: int

    ghost function Buffers(): set<array<int>>
      reads this`hits
    {
      set k | k in hits :: hits[k].buf
    }

    /** No two keys share a buffer, and every slice but perhaps one holds its list. */
    ghost predicate HoldBut(except: set<string>)
      reads this`hits, this`lists, Buffers()
    {
      && lists.Keys == hits.Keys
      && (forall k :: k in hits ==> hits[k].len <= hits[k].buf.Length)
      && (forall j, k :: j in hits && k in hits && j != k ==> hits[j].buf != hits[k].buf)
      && (forall k :: k in hits && k !in except ==> hits[k].buf[..hits[k].len] == lists[k])
    }

    ghost predicate Valid()
      reads this, Buffers()
    {
      limit > 0 && HoldBut({}) && Sound(lists, accepted, limit, window, clock)
    }

    constructor (limit: int, window: int, ghost start: int)
      ensures Valid() && this.limit == (if limit <= 0 then 10 else limit) && this.window == window
      ensures hits == map[] && accepted == map[] && clock == start
    {
      this.limit := if limit <= 0 then 10 else limit;
      this.window, hits, lists, accepted, clock := window, map[], map[], map[], start;
    }

    /** Accepts iff fewer than limit requests of this key were accepted in (now - window, now];
        a denial leaves every stored list as it was. */
    method Allow(key: string, now: int) returns (ok: bool, wait: int)
      requires Valid() && clock <= now
      modifies this, Buffers()
      ensures Valid() && clock == now
      ensures ok <==> |After(Times(old(accepted), key), now - window)| < limit
      ensures accepted == if ok then old(accepted)[key := Times(old(accepted), key) + [now]] else old(accepted)
      ensures ok ==> wait == 0 && IsTidy(lists, now - window)
      ensures !ok ==> |After(Times(accepted, key), now - window)| == limit
      ensures !ok ==> wait == After(Times(accepted, key), now - window)[0] + window - now
      ensures !ok ==> hits == old(hits) && lists == old(lists)
    {
      hide Sound, After, HoldBut;
      SoundKept(lists, accepted, limit, window, clock, now, key);
      var kept := Keep(key, now - window);
      if kept.len >= limit {
        SoundLater(lists, accepted, limit, window, clock, now);
        clock := now;
        return false, kept.buf[0] + window - now;
      }
      Accept(key, kept, now);
      return true, 0;
    }

    /** Compacts a key's list in place; an unknown key starts with an empty one. */
    method Keep(key: string, cutoff: int) returns (kept: Slice)
      requires HoldBut({})
      modifies if key in hits then {hits[key].buf} else {}
      ensures HoldBut({key}) && kept.len <= kept.buf.Length
      ensures if key in hits then kept.buf == hits[key].buf else fresh(kept.buf)
      ensures forall k :: k in hits && k != key ==> hits[k].buf != kept.buf
      ensures kept.buf[..kept.len] == After(Times(lists, key), cutoff)
      ensures kept.len == |Times(lists, key)| ==> HoldBut({})
    {
      hide After;
      if key in hits {
        var n := Compact(hits[key].buf, hits[key].len, cutoff);
        kept := Slice(hits[key].buf, n);
      } else {
        NoneAfter([], cutoff);
        var none := new int[0];
        kept := Slice(none, 0);
      }
    }

    /** Records an accepted request behind what was kept of the key's list, then bounds the map. */
    method Accept(key: string, kept: Slice, now: int)
      requires limit > 0 && HoldBut({key}) && clock <= now && kept.len <= kept.buf.Length
      requires forall k :: k in hits && k != key ==> hits[k].buf != kept.buf
      requires Sound(lists, accepted, limit, window, clock)
      requires kept.buf[..kept.len] == After(Times(lists, key), now - window)
          == After(Times(accepted, key), now - window)
      requires |After(Times(accepted, key), now - window)| < limit
      modifies this, kept.buf
      ensures Valid() && clock == now
      ensures accepted == old(accepted)[key := Times(old(accepted), key) + [now]]
      ensures IsTidy(lists, now - window)
    {
      hide Sound, After, HoldBut;
      SoundAccepted(lists, accepted, limit, window, clock, now, key);
      Put(key, kept, now);
      BoundMap(now - window);
    }

    /** Cleans a large map up. */
    method BoundMap(cutoff: int)
      requires Valid() && cutoff == clock - window
      modifies this`hits, this`lists
      ensures Valid() && IsTidy(lists, cutoff)
    {
      hide Sound, HoldBut;
      HeldKeys();
      assert |lists| == |lists.Keys| && |hits| == |hits.Keys|;
      if |hits| > 1024 {
        CleanUp(cutoff);
      }
    }

    method Put(key: string, kept: Slice, now: int)
      requires HoldBut({key}) && kept.len <= kept.buf.Length
      requires forall k :: k in hits && k != key ==> hits[k].buf != kept.buf
      modifies this, kept.buf
      ensures HoldBut({}) && clock == now
      ensures lists == old(lists)[key := old(kept.buf[..kept.len]) + [now]]
      ensures accepted == old(accepted)[key := Times(old(accepted), key) + [now]]
    {
      lists := lists[key := kept.buf[..kept.len] + [now]];
      var longer := Append(kept, now);
      hits := hits[key := longer];
      accepted := accepted[key := Times(accepted, key) + [now]];
      clock := now;
    }

    /** Bounds the map: drops the keys whose last accept is out of the window. */
    method CleanUp(cutoff: int)
      requires Valid() && cutoff == clock - window
      modifies this`hits, this`lists
      ensures Valid()
      ensures forall k :: k in lists <==> k in old(lists) && !IsStale(old(lists)[k], cutoff)
      ensures forall k :: k in lists ==> lists[k] == old(lists)[k]
    {
      hide Sound, HoldBut, IsStale;
      HeldKeys();
      var gone: set<string> := {};
      var todo := hits.Keys;
      while todo != {}
        invariant HoldBut({}) && todo <= hits.Keys
        invariant forall k :: k in gone <==> k in lists && k !in todo && IsStale(lists[k], cutoff)
        decreases |todo|
        modifies {}
      {
        var k :| k in todo;
        todo := todo - {k};
        var v := hits[k];
        Held(k);
        StaleIs(v.buf[..v.len], cutoff);
        if v.len == 0 || v.buf[v.len - 1] < cutoff {
          gone := gone + {k};
        }
      }
      SoundDropped(lists, accepted, limit, window, clock, gone);
      Drop(gone);
    }

    method Drop(gone: set<string>)
      requires HoldBut({})
      modifies this`hits, this`lists
      ensures HoldBut({}) && hits == old(hits) - gone && lists == old(lists) - gone
    {
      hits, lists := hits - gone, lists - gone;
    }

    lemma HeldKeys()
      requires HoldBut({})
      ensures lists.Keys == hits.Keys
    {
    }

    lemma Held(key: string)
      requires HoldBut({}) && key in hits
      ensures hits[key].len <= hits[key].buf.Length && key in lists
      ensures hits[key].buf[..hits[key].len] == lists[key]
    {
    }
  }

  /** Empty, or the last time is before the cutoff. */
  predicate IsStale(list: seq<int>, cutoff: int) {
    list == [] || list[|list| - 1] < cutoff
  }

  lemma StaleIs(list: seq<int>, cutoff: int)
    ensures IsStale(list, cutoff) <==> list == [] || list[|list| - 1] < cutoff
  {
  }

  /** A map of more than 1024 keys holds only what was accepted in the last window. */
  ghost predicate IsTidy(lists: map<string, seq<int>>, cutoff: int) {
    |lists| > 1024 ==> forall k :: k in lists ==> lists[k] != [] && lists[k][|lists[k]| - 1] >= cutoff
  }

  /** The stored lists against the complete lists of accepts: every key's accepts are in order
      and spaced, and what is stored has, within the limit, everything that can still count. */
  ghost predicate Sound(lists: map<string, seq<int>>, accepted: map<string, seq<int>>, limit: nat, window: int,
                        clock: int) {
    && (forall k :: k in accepted ==> WellAccepted(accepted[k], limit, window, clock))
    && (forall k :: k in lists ==> |lists[k]| <= limit && Stores(lists[k], Times(accepted, k), clock - window))
    && (forall k :: k in accepted && k !in lists ==> After(accepted[k], clock - window) == [])
  }

  /** One key's accepts: in order, none in the future, properly spaced. */
  ghost predicate WellAccepted(ts: seq<int>, limit: nat, window: int, clock: int) {
    Sorted(ts) && Spaced(ts, limit, window) && forall t :: t in ts ==> t <= clock
  }

  /** The stored list has everything that can still count. */
  ghost predicate Stores(stored: seq<int>, ts: seq<int>, cutoff: int) {
    Sorted(stored) && After(stored, cutoff) == After(ts, cutoff)
  }
  lemma StoresLater(stored: seq<int>, ts: seq<int>, before: int, cutoff: int)
    requires Stores(stored, ts, before) && before <= cutoff
    ensures Stores(stored, ts, cutoff)
  {
    hide After;
    AfterTwice(stored, before, cutoff);
    AfterTwice(ts, before, cutoff);
  }

  lemma SoundLater(lists: map<string, seq<int>>, accepted: map<string, seq<int>>, limit: nat, window: int,
                   clock: int, now: int)
    requires Sound(lists, accepted, limit, window, clock) && clock <= now
    ensures Sound(lists, accepted, limit, window, now)
  {
    hide After, Stores, WellAccepted;
    forall k | k in accepted
      ensures WellAccepted(accepted[k], limit, window, now)
    {
      WellAcceptedLater(accepted[k], limit, window, clock, now);
    }
    forall k | k in lists
      ensures Stores(lists[k], Times(accepted, k), now - window)
    {
      StoresLater(lists[k], Times(accepted, k), clock - window, now - window);
    }
    forall k | k in accepted && k !in lists
      ensures After(accepted[k], now - window) == []
    {
      AfterTwice(accepted[k], clock - window, now - window);
      NoneAfter([], now - window);
    }
  }

  lemma WellAcceptedLater(ts: seq<int>, limit: nat, window: int, clock: int, now: int)
    requires WellAccepted(ts, limit, window, clock) && clock <= now
    ensures WellAccepted(ts, limit, window, now)
  {
  }

  /** What compaction keeps of a key's list is what its accepts have in the window. */
  lemma SoundKept(lists: map<string, seq<int>>, accepted: map<string, seq<int>>, limit: nat, window: int, clock: int,
                  now: int, key: string)
    requires Sound(lists, accepted, limit, window, clock) && clock <= now
    ensures After(Times(lists, key), now - window) == After(Times(accepted, key), now - window)
    ensures |Times(lists, key)| <= limit
    ensures |After(Times(lists, key), now - window)| <= |Times(lists, key)|
  {
    hide After;
    AfterIsShorter(Times(lists, key), now - window);
    if key in lists {
      StoresLater(lists[key], Times(accepted, key), clock - window, now - window);
    } else if key in accepted {
      AfterTwice(accepted[key], clock - window, now - window);
    }
  }

  lemma {:induction false} AfterIsShorter(ts: seq<int>, c: int)
    ensures |After(ts, c)| <= |ts|
  {
    if ts != [] {
      AfterIsShorter(ts[..|ts| - 1], c);
    }
  }

  lemma SoundAccepted(lists: map<string, seq<int>>, accepted: map<string, seq<int>>, limit: nat, window: int,
                      clock: int, now: int, key: string)
    requires Sound(lists, accepted, limit, window, clock) && clock <= now
    requires |After(Times(accepted, key), now - window)| < limit
    ensures Sound(lists[key := After(Times(lists, key), now - window) + [now]],
                  accepted[key := Times(accepted, key) + [now]], limit, window, now)
  {
    hide After, Stores, WellAccepted;
    SoundKept(lists, accepted, limit, window, clock, now, key);
    SoundLater(lists, accepted, limit, window, clock, now);
    NoAccepts(limit, window, now);
    AcceptKeeps(Times(accepted, key), limit, window, now);
  }

  /** What a valid limiter guarantees of every key: no window-long interval, wherever it starts,
      holds more than limit of its accepts. */
  lemma NoWindowIsOverfull(lists: map<string, seq<int>>, accepted: map<string, seq<int>>, limit: nat, window: int,
                           clock: int, key: string, t: int)
    requires Sound(lists, accepted, limit, window, clock) && window > 0
    ensures HoldsAtMost(Times(accepted, key), t, window, limit)
  {
    NoAccepts(limit, window, clock);
    assert WellAccepted(Times(accepted, key), limit, window, clock);
    SpacedIff(Times(accepted, key), limit, window);
  }

  lemma NoAccepts(limit: nat, window: int, clock: int)
    ensures WellAccepted([], limit, window, clock)
  {
  }

  /** One more accept, when fewer than limit are in the window. */
  lemma AcceptKeeps(ts: seq<int>, limit: nat, window: int, now: int)
    requires WellAccepted(ts, limit, window, now)
    requires |After(ts, now - window)| < limit
    ensures WellAccepted(ts + [now], limit, window, now)
    ensures Stores(After(ts, now - window) + [now], ts + [now], now - window)
  {
    hide After;
    var c := now - window;
    var w := After(ts, c);
    AfterIsSorted(ts, c);
    AcceptIsSpaced(ts, limit, window, now);
    AfterTwice(ts, c, c);
    AfterAppend(ts, now, c);
    AfterAppend(w, now, c);
    SortedAppend(w, now);
  }

  lemma AcceptIsSpaced(ts: seq<int>, limit: nat, window: int, now: int)
    requires WellAccepted(ts, limit, window, now)
    requires |After(ts, now - window)| < limit
    ensures WellAccepted(ts + [now], limit, window, now)
  {
    hide After;
    AfterIsTail(ts, now - window);
    forall i | 0 <= i < |ts| ensures ts[i] <= now {
      assert ts[i] in ts;
    }
    SortedAppend(ts, now);
    forall t | t in ts + [now] ensures t <= now {
      assert t in ts || t == now;
    }
  }

  lemma SortedAppend(ts: seq<int>, t: int)
    requires Sorted(ts) && forall i :: 0 <= i < |ts| ==> ts[i] <= t
    ensures Sorted(ts + [t])
  {
  }

  /** Cleaning up is invisible: a dropped list had nothing left that could count. */
  lemma SoundDropped(lists: map<string, seq<int>>, accepted: map<string, seq<int>>, limit: nat, window: int,
                     clock: int, gone: set<string>)
    requires Sound(lists, accepted, limit, window, clock)
    requires forall k :: k in gone ==> k in lists && IsStale(lists[k], clock - window)
    ensures Sound(lists - gone, accepted, limit, window, clock)
  {
    hide WellAccepted, After;
    forall k | k in gone
      ensures After(Times(accepted, k), clock - window) == []
    {
      assert Stores(lists[k], Times(accepted, k), clock - window);
      NoneAfter(lists[k], clock - window);
    }
  }
}
