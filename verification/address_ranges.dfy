/** Threat indicators as inclusive 16-byte ranges (internal/database/store_threat.go), tied to agreement
    on a bit prefix of the 128-bit form, in which IPv4 is embedded as ::ffff:a.b.c.d. */
module AddressRanges {
  import opened Wrappers

  // ----- Bits of bytes ------------------------------------------------------------

  /** The byte whose only set bit is bit k, counted from the most significant one. */
  function BitMask(k: nat): bv8
    requires k < 8
  {
    match k
    case 0 => 0x80 case 1 => 0x40 case 2 => 0x20 case 3 => 0x10
    case 4 => 0x08 case 5 => 0x04 case 6 => 0x02 case _ => 0x01
  }

  predicate ByteBit(b: bv8, k: nat)
    requires k < 8
  {
    b & BitMask(k) != 0
  }

  predicate BitAt(s: seq<bv8>, i: nat)
    requires i < 8 * |s|
  {
    ByteBit(s[i / 8], i % 8)
  }

  /** x and p carry the same first n bits. */
  ghost predicate Agree(x: seq<bv8>, p: seq<bv8>, n: int)
    requires |x| == |p|
  {
    forall i :: 0 <= i < n && i < 8 * |p| ==> BitAt(x, i) == BitAt(p, i)
  }

  lemma SetBit(b: bv8, k: nat, j: nat)
    requires k < 8 && j < 8
    ensures ByteBit(b | BitMask(k), j) == (ByteBit(b, j) || j == k)
  {
    if j == k {
      assert BitMask(k) != 0;
      assert (b | BitMask(k)) & BitMask(k) == BitMask(k);
    } else {
      assert BitMask(k) & BitMask(j) == 0;
    }
  }

  ghost predicate SameBit(x: bv8, p: bv8, k: int)
    requires 0 <= k < 8
  {
    ByteBit(x, k) == ByteBit(p, k)
  }

  /** Bit k of a range byte: below n both bounds copy p, from n on lo is clear and hi is set. */
  ghost predicate CutAt(lo: bv8, hi: bv8, p: bv8, n: int, k: int)
    requires 0 <= k < 8
  {
    && ByteBit(lo, k) == (k < n && ByteBit(p, k))
    && ByteBit(hi, k) == (k >= n || ByteBit(p, k))
  }

  lemma ByteRange(lo: bv8, hi: bv8, x: bv8, p: bv8, n: int)
    requires 0 <= n <= 8
    requires forall k :: 0 <= k < 8 ==> CutAt(lo, hi, p, n, k)
    ensures lo <= x <= hi <==> forall k :: 0 <= k < n ==> SameBit(x, p, k)
    ensures n == 8 ==> lo == p == hi
    ensures n == 0 ==> lo == 0 && hi == 255
  {
    assert CutAt(lo, hi, p, n, 0) && CutAt(lo, hi, p, n, 1) && CutAt(lo, hi, p, n, 2) && CutAt(lo, hi, p, n, 3);
    assert CutAt(lo, hi, p, n, 4) && CutAt(lo, hi, p, n, 5) && CutAt(lo, hi, p, n, 6) && CutAt(lo, hi, p, n, 7);
    var bits := [SameBit(x, p, 0), SameBit(x, p, 1), SameBit(x, p, 2), SameBit(x, p, 3),
                 SameBit(x, p, 4), SameBit(x, p, 5), SameBit(x, p, 6), SameBit(x, p, 7)];
  }

  // ----- Byte strings in SQLite's BLOB order ------------------------------------------

  /** memcmp order on byte strings of one length. */
  predicate LexLe(a: seq<bv8>, b: seq<bv8>)
    requires |a| == |b|
  {
    a == [] || a[0] < b[0] || (a[0] == b[0] && LexLe(a[1..], b[1..]))
  }

  predicate InRange(lo: seq<bv8>, hi: seq<bv8>, x: seq<bv8>)
    requires |lo| == |hi| == |x|
  {
    LexLe(lo, x) && LexLe(x, hi)
  }

  /** lo and hi are the bounds of the block of strings that carry the first n bits of p. */
  ghost predicate Bounds(lo: seq<bv8>, hi: seq<bv8>, p: seq<bv8>, n: int)
  {
    && |lo| == |hi| == |p|
    && forall i :: 0 <= i < 8 * |p| ==>
          BitAt(lo, i) == (i < n && BitAt(p, i)) && BitAt(hi, i) == (i >= n || BitAt(p, i))
  }

  lemma BoundsTail(lo: seq<bv8>, hi: seq<bv8>, p: seq<bv8>, n: int)
    requires Bounds(lo, hi, p, n) && p != []
    ensures Bounds(lo[1..], hi[1..], p[1..], n - 8)
    ensures forall k :: 0 <= k < 8 ==> CutAt(lo[0], hi[0], p[0], n, k)
  {
    forall i | 0 <= i < 8 * |p[1..]|
      ensures BitAt(lo[1..], i) == (i < n - 8 && BitAt(p[1..], i))
          && BitAt(hi[1..], i) == (i >= n - 8 || BitAt(p[1..], i))
    {
      ShiftBit(lo, i); ShiftBit(hi, i); ShiftBit(p, i);
    }
    forall k | 0 <= k < 8
      ensures CutAt(lo[0], hi[0], p[0], n, k)
    {
      assert BitAt(lo, k) == (k < n && BitAt(p, k)) && BitAt(hi, k) == (k >= n || BitAt(p, k));
    }
  }

  lemma ShiftBit(s: seq<bv8>, i: nat)
    requires s != [] && i < 8 * (|s| - 1)
    ensures BitAt(s[1..], i) == BitAt(s, i + 8)
  {
    assert (i + 8) / 8 == i / 8 + 1 && (i + 8) % 8 == i % 8;
  }

  lemma AgreeSplit(x: seq<bv8>, p: seq<bv8>, n: int)
    requires |x| == |p| && p != []
    ensures Agree(x, p, n) <==>
            (forall k :: 0 <= k < n && k < 8 ==> SameBit(x[0], p[0], k)) && Agree(x[1..], p[1..], n - 8)
  {
    forall k | 0 <= k < 8
      ensures SameBit(x[0], p[0], k) == (BitAt(x, k) == BitAt(p, k))
    {
    }
    forall i | 0 <= i < 8 * |p[1..]|
      ensures BitAt(x[1..], i) == BitAt(x, i + 8) && BitAt(p[1..], i) == BitAt(p, i + 8)
    {
      ShiftBit(x, i); ShiftBit(p, i);
    }
    if Agree(x[1..], p[1..], n - 8) && forall k :: 0 <= k < n && k < 8 ==> SameBit(x[0], p[0], k) {
      forall i | 0 <= i < n && i < 8 * |p|
        ensures BitAt(x, i) == BitAt(p, i)
      {
        if i >= 8 {
          assert BitAt(x[1..], i - 8) == BitAt(p[1..], i - 8);
        } else {
          assert SameBit(x[0], p[0], i);
        }
      }
    }
  }

  /** The range test is prefix agreement, for byte strings of any length and any n. */
  lemma {:induction false} RangeIffAgree(lo: seq<bv8>, hi: seq<bv8>, p: seq<bv8>, n: int, x: seq<bv8>)
    requires Bounds(lo, hi, p, n) && |x| == |p|
    ensures InRange(lo, hi, x) <==> Agree(x, p, n)
  {
    hide Agree, BitAt, ByteBit, SameBit, CutAt;
    if p == [] {
      NothingToAgree(x, p, n);
    } else {
      BoundsTail(lo, hi, p, n);
      AgreeSplit(x, p, n);
      RangeIffAgree(lo[1..], hi[1..], p[1..], n - 8, x[1..]);
      var m := if n < 0 then 0 else if n > 8 then 8 else n;
      CutInByte(lo[0], hi[0], p[0], n, m);
      ByteRange(lo[0], hi[0], x[0], p[0], m);
      if n <= 8 {
        NothingToAgree(x[1..], p[1..], n - 8);
      }
    }
  }

  lemma NothingToAgree(x: seq<bv8>, p: seq<bv8>, n: int)
    requires |x| == |p| && (n <= 0 || p == [])
    ensures Agree(x, p, n)
  {
  }

  /** Inside one byte a cut before or behind it is a cut at its edge. */
  lemma CutInByte(lo: bv8, hi: bv8, p: bv8, n: int, m: int)
    requires m == (if n < 0 then 0 else if n > 8 then 8 else n)
    requires forall k :: 0 <= k < 8 ==> CutAt(lo, hi, p, n, k)
    ensures forall k :: 0 <= k < 8 ==> CutAt(lo, hi, p, m, k)
  {
    hide ByteBit;
    forall k | 0 <= k < 8
      ensures CutAt(lo, hi, p, m, k)
    {
      assert CutAt(lo, hi, p, n, k);
    }
  }

  lemma AgreeAllIsEqual(x: seq<bv8>, p: seq<bv8>)
    requires |x| == |p|
    ensures Agree(x, p, 8 * |p|) <==> x == p
    decreases |x|
  {
    if p != [] {
      AgreeSplit(x, p, 8 * |p|);
      AgreeAllIsEqual(x[1..], p[1..]);
      var bits := [SameBit(x[0], p[0], 0), SameBit(x[0], p[0], 1), SameBit(x[0], p[0], 2), SameBit(x[0], p[0], 3),
                   SameBit(x[0], p[0], 4), SameBit(x[0], p[0], 5), SameBit(x[0], p[0], 6), SameBit(x[0], p[0], 7)];
      assert x == [x[0]] + x[1..] && p == [p[0]] + p[1..];
    }
  }

  // ----- Addresses and prefixes -----------------------------------------------------------

  /** netip.Addr: a 4-byte address, or a 16-byte one with an optional zone. */
  datatype Addr = V4(b4: seq<bv8>) | V6(b6: seq<bv8>, zone: string) {
    predicate Valid() {
      if V4? then |b4| == 4 else |b6| == 16
    }
    predicate Is4In6() {
      V6? && Valid() && b6[..12] == MappedHead()
    }
    function Unmap(): Addr {
      if Is4In6() then V4(b6[12..]) else this
    }
    function As16(): seq<bv8>
      requires Valid()
    {
      if V4? then MappedHead() + b4 else b6
    }
  }

  /** Section 2.5.5.2 of RFC 4291: 80 zero bits, then 16 one bits. */
  function MappedHead(): seq<bv8> {
    [0, 0, 0, 0, 0, 0, 0, 0, 0, 0, 255, 255]
  }

  function Addr16(a: Addr): seq<bv8>
    requires a.Valid()
  {
    a.Unmap().As16()
  }

  /** The key forgets the zone and the family: exactly the addresses with one 128-bit form share it. */
  lemma Addr16IsTheMappedForm(a: Addr)
    requires a.Valid()
    ensures |Addr16(a)| == 16 && Addr16(a) == a.As16()
    ensures a.V4? ==> Addr16(a) == [0, 0, 0, 0, 0, 0, 0, 0, 0, 0, 0xff, 0xff] + a.b4
    ensures a.V4? ==> forall z :: Addr16(V6(MappedHead() + a.b4, z)) == Addr16(a)
  {
    if a.Is4In6() {
      assert a.b6 == a.b6[..12] + a.b6[12..];
    }
    if a.V4? {
      forall z ensures Addr16(V6(MappedHead() + a.b4, z)) == Addr16(a) {
        assert (MappedHead() + a.b4)[..12] == MappedHead() && (MappedHead() + a.b4)[12..] == a.b4;
      }
    }
  }

  datatype Prefix = Prefix(addr: Addr, bits: nat) {
    /** What netip.ParsePrefix yields: a length that fits the family, and no zone. */
    predicate Valid() {
      && addr.Valid()
      && (addr.V4? ==> bits <= 32)
      && (addr.V6? ==> bits <= 128 && addr.zone == "")
    }
    /** Length within the 128-bit form. */
    function Bits128(): nat {
      if addr.V4? then bits + 96 else bits
    }
  }

  /** Clears every bit from n on. */
  function KeepBits(s: seq<bv8>, n: int): (r: seq<bv8>)
    ensures |r| == |s|
    ensures forall i :: 0 <= i < 8 * |s| ==> BitAt(r, i) == (i < n && BitAt(s, i))
  {
    if s == [] then [] else
      var head := KeepByte(s[0], n);
      var tail := KeepBits(s[1..], n - 8);
      assert forall i :: 8 <= i < 8 * |s| ==> BitAt(s, i) == BitAt(s[1..], i - 8) by {
        forall i | 8 <= i < 8 * |s| ensures BitAt(s, i) == BitAt(s[1..], i - 8) { ShiftBit(s, i - 8); }
      }
      assert forall i :: 8 <= i < 8 * |s| ==> BitAt([head] + tail, i) == BitAt(tail, i - 8) by {
        forall i | 8 <= i < 8 * |s| ensures BitAt([head] + tail, i) == BitAt(tail, i - 8) {
          assert ([head] + tail)[1..] == tail;
          ShiftBit([head] + tail, i - 8);
        }
      }
      [head] + tail
  }

  function KeepByte(b: bv8, n: int): (r: bv8)
    ensures forall k :: 0 <= k < 8 ==> ByteBit(r, k) == (k < n && ByteBit(b, k))
  {
    if n <= 0 then 0 else if n == 1 then b & 0x80 else if n == 2 then b & 0xC0
    else if n == 3 then b & 0xE0 else if n == 4 then b & 0xF0 else if n == 5 then b & 0xF8
    else if n == 6 then b & 0xFC else if n == 7 then b & 0xFE else b
  }

  /** Prefix.Masked: the host bits cleared, the family kept. */
  function Masked(p: Prefix): (r: Prefix)
    requires p.Valid()
    ensures r.Valid() && r.bits == p.bits && r.addr.V4? == p.addr.V4?
    ensures r.addr.As16() == KeepBits(p.addr.As16(), p.Bits128())
  {
    if p.addr.V4? then
      MaskedMapped(p.addr.b4, p.bits);
      p.(addr := V4(KeepBits(p.addr.b4, p.bits)))
    else
      p.(addr := V6(KeepBits(p.addr.b6, p.bits), ""))
  }

  lemma MaskedMapped(b4: seq<bv8>, bits: nat)
    requires |b4| == 4
    ensures MappedHead() + KeepBits(b4, bits) == KeepBits(MappedHead() + b4, bits + 96)
  {
    KeepSkips(MappedHead(), b4, bits + 96);
  }

  lemma {:induction false} KeepSkips(head: seq<bv8>, s: seq<bv8>, n: int)
    requires n >= 8 * |head|
    ensures KeepBits(head + s, n) == head + KeepBits(s, n - 8 * |head|)
  {
    if head == [] {
      assert head + s == s;
    } else {
      KeepSkips(head[1..], s, n - 8);
      assert (head + s)[1..] == head[1..] + s;
      assert head == [head[0]] + head[1..];
    }
  }

  // ----- Ranges of prefixes and indicators ---------------------------------------------

  lemma SetBitAt(s: seq<bv8>, i: nat)
    requires i < 8 * |s|
    ensures var r := s[i / 8 := s[i / 8] | BitMask(i % 8)];
            forall j :: 0 <= j < 8 * |s| ==> BitAt(r, j) == (j == i || BitAt(s, j))
  {
    var r := s[i / 8 := s[i / 8] | BitMask(i % 8)];
    forall j | 0 <= j < 8 * |s|
      ensures BitAt(r, j) == (j == i || BitAt(s, j))
    {
      if j / 8 == i / 8 {
        SetBit(s[i / 8], i % 8, j % 8);
      }
    }
  }

  /** Sets the bits from the prefix length on, one at a time, in a copy of the low bound. */
  method PrefixRange(p: Prefix) returns (lo: array<bv8>, hi: array<bv8>)
    requires p.Valid()
    ensures fresh(lo) && fresh(hi) && lo != hi
    ensures Bounds(lo[..], hi[..], Addr16(p.addr), p.Bits128()) && lo.Length == 16
  {
    var masked := Masked(p);
    var bits := masked.bits;
    if masked.addr.V4? {
      bits := bits + 96;
    }
    Addr16IsTheMappedForm(p.addr);
    Addr16IsTheMappedForm(masked.addr);
    var low := Addr16(masked.addr);
    lo := new bv8[16](i requires 0 <= i < 16 => low[i]);
    hi := new bv8[16](i requires 0 <= i < 16 => low[i]);
    assert lo[..] == low && hi[..] == low;
    for i := bits to 128
      invariant lo[..] == low
      invariant forall j :: 0 <= j < 128 ==> BitAt(hi[..], j) == (bits <= j < i || BitAt(low, j))
    {
      ghost var before := hi[..];
      hi[i / 8] := hi[i / 8] | BitMask(i % 8);
      assert hi[..] == before[i / 8 := before[i / 8] | BitMask(i % 8)];
      SetBitAt(before, i);
    }
  }

  /** A stored range, in the form the theorems speak about: the first n bits of key. */
  ghost predicate RangeOf(lo: seq<bv8>, hi: seq<bv8>, key: seq<bv8>, n: nat)
  {
    |key| == 16 && n <= 128 && Bounds(lo, hi, key, n)
  }

  /** Any two stored ranges are nested or disjoint, whatever families they come from. */
  lemma NestedOrDisjoint(lo1: seq<bv8>, hi1: seq<bv8>, p1: seq<bv8>, n1: nat,
                         lo2: seq<bv8>, hi2: seq<bv8>, p2: seq<bv8>, n2: nat)
    requires RangeOf(lo1, hi1, p1, n1) && RangeOf(lo2, hi2, p2, n2) && n1 <= n2
    ensures || (forall x :: |x| == 16 && InRange(lo2, hi2, x) ==> InRange(lo1, hi1, x))
            || (forall x :: |x| == 16 && InRange(lo2, hi2, x) ==> !InRange(lo1, hi1, x))
  {
    forall x: seq<bv8> | |x| == 16
      ensures InRange(lo2, hi2, x) ==> (InRange(lo1, hi1, x) <==> Agree(p2, p1, n1))
    {
      RangeIffAgree(lo1, hi1, p1, n1, x);
      RangeIffAgree(lo2, hi2, p2, n2, x);
      if Agree(x, p2, n2) && (Agree(x, p1, n1) || Agree(p2, p1, n1)) {
        forall i | 0 <= i < n1
          ensures BitAt(x, i) == BitAt(p2, i)
          ensures BitAt(p2, i) == BitAt(p1, i) <==> BitAt(x, i) == BitAt(p1, i)
        {
        }
      }
    }
  }

  ghost predicate Nested(outer: Range, inner: Range)
    requires |outer.lo| == |outer.hi| == |inner.lo| == |inner.hi|
  {
    forall x: seq<bv8> :: |x| == |inner.lo| && InRange(inner.lo, inner.hi, x) ==> InRange(outer.lo, outer.hi, x)
  }

  ghost predicate Apart(r: Range, s: Range)
    requires |r.lo| == |r.hi| == |s.lo| == |s.hi|
  {
    forall x: seq<bv8> :: |x| == |r.lo| && InRange(r.lo, r.hi, x) ==> !InRange(s.lo, s.hi, x)
  }

  // ----- The indicator table ----------------------------------------------------------------

  /** The library calls the table depends on: parsing and case folding of feed text. */
  datatype Text = Text(lower: string -> string, parseAddr: string -> Option<Addr>,
                       parsePrefix: string -> Option<Prefix>) {
    ghost predicate Sound() {
      && (forall s :: parseAddr(s).Some? ==> parseAddr(s).value.Valid())
      && (forall s :: parsePrefix(s).Some? ==> parsePrefix(s).value.Valid())
    }
  }

  datatype Key = Key(indicator: string, kind: string, source: string)
  datatype Range = Range(lo: seq<bv8>, hi: seq<bv8>)
  datatype Row = Row(confidence: string, note: Option<string>, range: Option<Range>, firstImported: int,
                     lastInFeed: int)
  datatype Indicator = Indicator(indicator: string, kind: string, confidence: string, note: Option<string>)

  function DefaultConfidence(t: Text, c: string): string {
    if t.lower(c) in {"low", "medium", "high"} then t.lower(c) else "medium"
  }

  /** What is stored of a given confidence: the three names, and "medium" for anything else. */
  ghost predicate IsConfidence(stored: string, given: string) {
    && (stored == "low" || stored == "medium" || stored == "high")
    && (if given == "low" || given == "high" then stored == given else stored == "medium")
  }

  /** What an indicator stands for: one address, a block of addresses, or nothing. */
  ghost predicate Denotes(t: Text, k: Key, a: Addr)
    requires t.Sound() && a.Valid()
  {
    if t.lower(k.kind) == "ip" then
      t.parseAddr(k.indicator).Some? && a.As16() == t.parseAddr(k.indicator).value.As16()
    else if t.lower(k.kind) == "cidr" then
      t.parsePrefix(k.indicator).Some? &&
      var p := t.parsePrefix(k.indicator).value;
      Agree(a.As16(), p.addr.As16(), p.Bits128())
    else false
  }

  /** The range columns are null, or the bounds of what the indicator text denotes. */
  ghost predicate RangeMatches(t: Text, k: Key, range: Option<Range>)
    requires t.Sound()
  {
    if t.lower(k.kind) == "ip" && t.parseAddr(k.indicator).Some? then
      range.Some? && RangeOf(range.value.lo, range.value.hi, Addr16(t.parseAddr(k.indicator).value), 128)
    else if t.lower(k.kind) == "cidr" && t.parsePrefix(k.indicator).Some? then
      range.Some? &&
      var p := t.parsePrefix(k.indicator).value;
      p.Bits128() <= 128 && RangeOf(range.value.lo, range.value.hi, Addr16(p.addr), p.Bits128())
    else range.None?
  }

  predicate Hit(row: Row, key: seq<bv8>) {
    && row.range.Some?
    && |row.range.value.lo| == |row.range.value.hi| == |key|
    && InRange(row.range.value.lo, row.range.value.hi, key)
  }

  /** The SQL predicate on the stored bytes decides what the indicator text denotes. */
  lemma HitIffDenotes(t: Text, k: Key, row: Row, a: Addr)
    requires t.Sound() && a.Valid() && RangeMatches(t, k, row.range)
    ensures Hit(row, Addr16(a)) <==> Denotes(t, k, a)
  {
    Addr16IsTheMappedForm(a);
    if t.lower(k.kind) == "ip" && t.parseAddr(k.indicator).Some? {
      var p := t.parseAddr(k.indicator).value;
      Addr16IsTheMappedForm(p);
      RangeIffAgree(row.range.value.lo, row.range.value.hi, Addr16(p), 128, Addr16(a));
      AgreeAllIsEqual(Addr16(a), Addr16(p));
    } else if t.lower(k.kind) == "cidr" && t.parsePrefix(k.indicator).Some? {
      var p := t.parsePrefix(k.indicator).value;
      Addr16IsTheMappedForm(p.addr);
      RangeIffAgree(row.range.value.lo, row.range.value.hi, Addr16(p.addr), p.Bits128(), Addr16(a));
    }
  }

  ghost predicate RangesMatch(t: Text, rows: map<Key, Row>)
    requires t.Sound()
  {
    forall k :: k in rows ==> RangeMatches(t, k, rows[k].range)
  }

  /** INSERT OR IGNORE, and the UPDATE that follows when the row was already there. */
  ghost function WithRow(t: Text, rows: map<Key, Row>, key: Key, ind: Indicator, range: Option<Range>,
                         now: int): map<Key, Row> {
    var conf := DefaultConfidence(t, ind.confidence);
    if key !in rows then rows[key := Row(conf, ind.note, range, now, now)]
    else
      var row := rows[key];
      rows[key := Row(conf, if ind.note.Some? then ind.note else row.note, row.range, row.firstImported, now)]
  }

  lemma WithRowKeepsRanges(t: Text, rows: map<Key, Row>, key: Key, ind: Indicator, range: Option<Range>, now: int)
    requires t.Sound() && RangesMatch(t, rows) && RangeMatches(t, key, range)
    ensures RangesMatch(t, WithRow(t, rows, key, ind, range, now))
  {
    var after := WithRow(t, rows, key, ind, range, now);
    forall k | k in after
      ensures RangeMatches(t, k, after[k].range)
    {
      if k == key && key in rows {
        assert RangeMatches(t, key, rows[key].range);
      }
    }
  }

  class IndicatorTable {
    const text: Text
    var rows: map<Key, Row>

    ghost predicate Valid()
      reads this
    {
      text.Sound() && RangesMatch(text, rows)
    }

    constructor (text: Text)
      requires text.Sound()
      ensures Valid() && rows == map[] && this.text == text
    {
      this.text, rows := text, map[];
    }

    method IndicatorRange(ind: Indicator, source: string) returns (range: Option<Range>)
      requires text.Sound()
      ensures RangeMatches(text, Key(ind.indicator, ind.kind, source), range)
    {
      range := None;
      if text.lower(ind.kind) == "ip" {
        var addr := text.parseAddr(ind.indicator);
        if addr.Some? {
          var b := Addr16(addr.value);
          Addr16IsTheMappedForm(addr.value);
          range := Some(Range(b, b));
        }
      } else if text.lower(ind.kind) == "cidr" {
        var prefix := text.parsePrefix(ind.indicator);
        if prefix.Some? {
          Addr16IsTheMappedForm(prefix.value.addr);
          var lo, hi := PrefixRange(prefix.value);
          range := Some(Range(lo[..], hi[..]));
        }
      }
    }

    /** Inserts new indicators and refreshes known ones; a refresh never touches the range,
        the first import time, or a note the feed no longer supplies. A statement that fails, at
        index fails if there is one, rolls the batch back, but not the counts. */
    method UpsertIndicators(source: string, inds: seq<Indicator>, now: int, fails: nat)
      returns (added: nat, updated: nat, ok: bool)
      requires Valid()
      modifies this
      ensures Valid() && (ok <==> fails >= |inds|)
      ensures added + updated == if ok then |inds| else fails
      ensures ok ==> added == |rows| - |old(rows)| && Upserted(text, old(rows), rows, source, inds, now)
      ensures !ok ==> rows == old(rows)
    {
      hide Upserted, RangesMatch, RangeMatches;
      NothingUpserted(text, rows, source, now);
      added, updated := 0, 0;
      var table := rows;  // the transaction's view, committed as a whole
      for i := 0 to |inds|
        invariant rows == old(rows) && RangesMatch(text, table)
        invariant added + updated == i <= fails && added == |table| - |old(rows)|
        invariant Upserted(text, old(rows), table, source, inds[..i], now)
      {
        if i == fails {
          return added, updated, false;
        }
        var ind := inds[i];
        var key := Key(ind.indicator, ind.kind, source);
        var range := IndicatorRange(ind, source);
        var conf := DefaultConfidence(text, ind.confidence);
        ghost var next := WithRow(text, table, key, ind, range, now);
        WithRowKeepsRanges(text, table, key, ind, range, now);
        UpsertStep(text, old(rows), table, next, source, inds[..i], ind, range, now);
        assert inds[..i + 1] == inds[..i] + [ind];
        if key !in table {
          table := table[key := Row(conf, ind.note, range, now, now)];
          added := added + 1;
        } else {
          var row := table[key];
          var note := if ind.note.Some? then ind.note else row.note;
          table := table[key := Row(conf, note, row.range, row.firstImported, now)];
          updated := updated + 1;
        }
      }
      assert inds[..|inds|] == inds;
      rows := table;
      ok := true;
    }

    /** The 25 best indicators whose text covers the address, or all of them when there are fewer. */
    method MatchIP(ip: Addr) returns (found: seq<Key>)
      requires Valid() && ip.Valid()
      ensures IsTop(found, rows, Matching(text, rows, ip), MAX_MATCHES)
      ensures |found| == if |Matching(text, rows, ip)| <= 25 then |Matching(text, rows, ip)| else 25
      ensures forall i, j :: 0 <= i < j < |found| ==> NotWorse(rows, found[i], found[j])
      ensures forall f, k :: f in found && k in Matching(text, rows, ip) && k !in found ==> NotWorse(rows, f, k)
    {
      var key := Addr16(ip);
      var hits := set k | k in rows && Hit(rows[k], key);
      forall k | k in rows
        ensures Hit(rows[k], key) <==> Denotes(text, k, ip)
      {
        HitIffDenotes(text, k, rows[k], ip);
      }
      assert hits == Matching(text, rows, ip);
      found := Top(hits, MAX_MATCHES);
      forall f, k | f in hits && k in hits && RankIn(rows, f) <= RankIn(rows, k)
        ensures NotWorse(rows, f, k)
      {
      }
    }

    /** ORDER BY the confidence's rank, LIMIT n; equal ranks come in any order. */
    method Top(hits: set<Key>, n: nat) returns (found: seq<Key>)
      requires hits <= rows.Keys
      ensures IsTop(found, rows, hits, n)
    {
      hide TakingLevel, Taking, IsTop;
      found := [];
      NothingTaken(rows, hits, n);
      for rank := 0 to 3
        invariant Taking(found, rows, hits, n, rank)
      {
        var level := set k | k in hits && RankOf(rows[k].confidence) == rank;
        var todo := level;
        LevelStarts(found, rows, hits, n, rank);
        while todo != {} && |found| < n
          invariant todo <= level
          invariant forall k :: k in level ==> (k in found <==> k !in todo)
          invariant TakingLevel(found, rows, hits, n, rank)
          decreases |todo|
        {
          var k :| k in todo;
          TakeOne(found, rows, hits, n, rank, k);
          todo := todo - {k};
          found := found + [k];
        }
        LevelEnds(found, rows, hits, n, rank);
      }
      TakenAll(found, rows, hits, n);
    }
  }

  // ----- The best matches -----------------------------------------------------------------------

  const MAX_MATCHES: nat := 25

  function RankOf(confidence: string): nat {
    if confidence == "high" then 0 else if confidence == "medium" then 1 else 2
  }

  ghost function Matching(t: Text, rows: map<Key, Row>, a: Addr): set<Key>
    requires t.Sound() && a.Valid()
  {
    set k | k in rows && Denotes(t, k, a)
  }

  ghost predicate Distinct(found: seq<Key>) {
    forall i, j :: 0 <= i < j < |found| ==> found[i] != found[j]
  }

  /** Each once, best ranks first, as many as there are up to n, and nothing left out that ranks
      above anything returned. */
  ghost predicate IsTop(found: seq<Key>, rows: map<Key, Row>, hits: set<Key>, n: nat)
    requires hits <= rows.Keys
  {
    && Distinct(found) && (forall k :: k in found ==> k in hits)
    && |found| == (if |hits| < n then |hits| else n)
    && (forall i, j :: 0 <= i < j < |found| ==> RankIn(rows, found[i]) <= RankIn(rows, found[j]))
    && (forall f, k :: f in found && k in hits && k !in found ==> RankIn(rows, f) <= RankIn(rows, k))
  }

  /** "high" comes before "medium", and both before any other confidence. */
  ghost predicate NotWorse(rows: map<Key, Row>, f: Key, k: Key) {
    && f in rows && k in rows
    && (rows[k].confidence == "high" ==> rows[f].confidence == "high")
    && (rows[k].confidence == "medium" ==> rows[f].confidence == "high" || rows[f].confidence == "medium")
  }

  function RankIn(rows: map<Key, Row>, k: Key): nat {
    if k in rows then RankOf(rows[k].confidence) else 2
  }

  /** While a rank is being taken. */
  ghost predicate TakingLevel(found: seq<Key>, rows: map<Key, Row>, hits: set<Key>, n: nat, rank: nat)
    requires hits <= rows.Keys
  {
    && Distinct(found) && |found| <= n && (forall k :: k in found ==> k in hits && RankIn(rows, k) <= rank)
    && (forall i, j :: 0 <= i < j < |found| ==> RankIn(rows, found[i]) <= RankIn(rows, found[j]))
    && (|found| < n ==> forall k :: k in hits && RankIn(rows, k) < rank ==> k in found)
    && (forall f, k :: f in found && k in hits && k !in found && RankIn(rows, k) < rank ==>
        RankIn(rows, f) <= RankIn(rows, k))
  }

  /** All lower ranks are taken, as far as there was room. */
  ghost predicate Taking(found: seq<Key>, rows: map<Key, Row>, hits: set<Key>, n: nat, rank: nat)
    requires hits <= rows.Keys
  {
    && TakingLevel(found, rows, hits, n, rank)
    && forall k :: k in found ==> RankIn(rows, k) < rank
  }

  lemma NothingTaken(rows: map<Key, Row>, hits: set<Key>, n: nat)
    requires hits <= rows.Keys
    ensures Taking([], rows, hits, n, 0)
  {
  }

  lemma LevelStarts(found: seq<Key>, rows: map<Key, Row>, hits: set<Key>, n: nat, rank: nat)
    requires hits <= rows.Keys && Taking(found, rows, hits, n, rank)
    ensures TakingLevel(found, rows, hits, n, rank)
    ensures forall k :: k in hits && RankIn(rows, k) == rank ==> k !in found
  {
  }

  lemma TakeOne(found: seq<Key>, rows: map<Key, Row>, hits: set<Key>, n: nat, rank: nat, k: Key)
    requires hits <= rows.Keys && TakingLevel(found, rows, hits, n, rank) && |found| < n
    requires k in hits && k !in found && RankIn(rows, k) == rank
    ensures TakingLevel(found + [k], rows, hits, n, rank)
  {
    assert forall i :: 0 <= i < |found| ==> found[i] in found;
  }

  lemma LevelEnds(found: seq<Key>, rows: map<Key, Row>, hits: set<Key>, n: nat, rank: nat)
    requires hits <= rows.Keys && TakingLevel(found, rows, hits, n, rank)
    requires |found| >= n || forall k :: k in hits && RankIn(rows, k) == rank ==> k in found
    ensures Taking(found, rows, hits, n, rank + 1)
  {
  }

  lemma TakenAll(found: seq<Key>, rows: map<Key, Row>, hits: set<Key>, n: nat)
    requires hits <= rows.Keys && Taking(found, rows, hits, n, 3)
    ensures IsTop(found, rows, hits, n)
  {
    DistinctSize(found, hits);
    if |found| < n {
      assert forall k :: k in hits ==> RankIn(rows, k) < 3 && k in found;
    }
  }

  /** Distinct members of a set: as many as the set has only if they are all of them. */
  lemma DistinctSize(found: seq<Key>, hits: set<Key>)
    requires Distinct(found) && forall k :: k in found ==> k in hits
    ensures |found| <= |hits|
    ensures |found| == |hits| <==> forall k :: k in hits ==> k in found
  {
    var some := Members(found);
    MembersSize(found);
    assert hits == some + (hits - some) && |hits| == |some| + |hits - some|;
  }

  ghost function Members(found: seq<Key>): set<Key> {
    set k | k in found
  }

  lemma {:induction false} MembersSize(found: seq<Key>)
    requires Distinct(found)
    ensures |Members(found)| == |found|
  {
    if found != [] {
      var n := |found| - 1;
      MembersSize(found[..n]);
      assert found == found[..n] + [found[n]];
      assert Members(found) == Members(found[..n]) + {found[n]};
    }
  }

  /** No matching indicator is left out exactly when no more than 25 match. */
  lemma TopIsCompleteIff(found: seq<Key>, rows: map<Key, Row>, hits: set<Key>)
    requires hits <= rows.Keys && IsTop(found, rows, hits, MAX_MATCHES)
    ensures (forall k :: k in hits ==> k in found) <==> |hits| <= MAX_MATCHES
  {
    DistinctSize(found, hits);
  }

  function FeedName(n: nat): string {
    seq(n, _ => 'f')
  }

  /** One address, published by n feeds. */
  function FromFeeds(indicator: string, kind: string, range: Range, n: nat): map<Key, Row> {
    if n == 0 then map[]
    else
      var fewer := FromFeeds(indicator, kind, range, n - 1);
      fewer[Key(indicator, kind, FeedName(n)) := Row("medium", None, Some(range), 0, 0)]
  }

  lemma {:induction false} FeedsAreRows(indicator: string, kind: string, range: Range, n: nat)
    ensures |FromFeeds(indicator, kind, range, n)| == n
    ensures forall k :: k in FromFeeds(indicator, kind, range, n) ==>
              && k.indicator == indicator && k.kind == kind && |k.source| <= n
              && FromFeeds(indicator, kind, range, n)[k].range == Some(range)
  {
    if n > 0 {
      FeedsAreRows(indicator, kind, range, n - 1);
      assert |FeedName(n)| == n;
    }
  }

  /** The limit shows: an address that 26 feeds or more publish has as many matching rows, and
      whatever is returned misses one. */
  lemma ManyFeedsShow(t: Text, indicator: string, kind: string, n: nat, found: seq<Key>)
    requires t.Sound() && t.lower(kind) == "ip" && t.parseAddr(indicator).Some? && n >= 26
    ensures var a := t.parseAddr(indicator).value;
            var rows := FromFeeds(indicator, kind, Range(Addr16(a), Addr16(a)), n);
            && RangesMatch(t, rows) && |Matching(t, rows, a)| == n
            && (IsTop(found, rows, Matching(t, rows, a), MAX_MATCHES) ==>
                exists k :: k in Matching(t, rows, a) && k !in found)
  {
    var a := t.parseAddr(indicator).value;
    var b := Addr16(a);
    var rows := FromFeeds(indicator, kind, Range(b, b), n);
    Addr16IsTheMappedForm(a);
    FeedsAreRows(indicator, kind, Range(b, b), n);
    assert Matching(t, rows, a) == rows.Keys;
    if IsTop(found, rows, Matching(t, rows, a), MAX_MATCHES) {
      TopIsCompleteIff(found, rows, Matching(t, rows, a));
    }
  }

  /** The ranges of any two rows of a table are nested, one way or the other, or apart. */
  lemma StoredRangesNest(t: Text, rows: map<Key, Row>, j: Key, k: Key)
    requires t.Sound() && RangesMatch(t, rows) && j in rows && k in rows
    requires rows[j].range.Some? && rows[k].range.Some?
    ensures var r, s := rows[j].range.value, rows[k].range.value;
            && |r.lo| == |r.hi| == |s.lo| == |s.hi| == 16
            && (Nested(r, s) || Nested(s, r) || Apart(r, s))
  {
    var r, s := rows[j].range.value, rows[k].range.value;
    var p, m := StoredPrefix(t, j, r);
    var q, n := StoredPrefix(t, k, s);
    if m <= n {
      NestedOrDisjoint(r.lo, r.hi, p, m, s.lo, s.hi, q, n);
    } else {
      NestedOrDisjoint(s.lo, s.hi, q, n, r.lo, r.hi, p, m);
    }
  }

  lemma StoredPrefix(t: Text, k: Key, range: Range) returns (p: seq<bv8>, n: nat)
    requires t.Sound() && RangeMatches(t, k, Some(range))
    ensures RangeOf(range.lo, range.hi, p, n)
  {
    if t.lower(k.kind) == "ip" {
      p, n := Addr16(t.parseAddr(k.indicator).value), 128;
    } else {
      var prefix := t.parsePrefix(k.indicator).value;
      p, n := Addr16(prefix.addr), prefix.Bits128();
    }
  }

  ghost predicate InBatch(k: Key, source: string, inds: seq<Indicator>) {
    exists i :: 0 <= i < |inds| && k == Key(inds[i].indicator, inds[i].kind, source)
  }

  /** The confidence of the last entry for a key. */
  ghost function LastConfidence(k: Key, source: string, inds: seq<Indicator>, earlier: string): string {
    if inds == [] then earlier
    else
      var ind := inds[|inds| - 1];
      if k == Key(ind.indicator, ind.kind, source) then ind.confidence
      else LastConfidence(k, source, inds[..|inds| - 1], earlier)
  }

  /** The last note the batch supplies for a key, or the earlier one when it supplies none. */
  ghost function LastNote(k: Key, source: string, inds: seq<Indicator>, earlier: Option<string>): Option<string> {
    if inds == [] then earlier
    else
      var ind := inds[|inds| - 1];
      if k == Key(ind.indicator, ind.kind, source) && ind.note.Some? then ind.note
      else LastNote(k, source, inds[..|inds| - 1], earlier)
  }

  ghost function NoteBefore(rows: map<Key, Row>, k: Key): Option<string> {
    if k in rows then rows[k].note else None
  }

  /** One row after a batch, next to what the table held before it. */
  ghost predicate RowUpserted(t: Text, before: map<Key, Row>, k: Key, row: Row, source: string, inds: seq<Indicator>,
                              now: int) {
    && row.lastInFeed == now
    && row.firstImported == (if k in before then before[k].firstImported else now)
    && (k in before ==> row.range == before[k].range)
    && IsConfidence(row.confidence, t.lower(LastConfidence(k, source, inds, "")))
    && row.note == LastNote(k, source, inds, NoteBefore(before, k))
  }

  ghost predicate Upserted(t: Text, before: map<Key, Row>, after: map<Key, Row>, source: string,
                           inds: seq<Indicator>, now: int) {
    && (forall k :: k in after <==> k in before || InBatch(k, source, inds))
    && (forall k :: k in before && !InBatch(k, source, inds) ==> after[k] == before[k])
    && (forall k :: k in after && InBatch(k, source, inds) ==> RowUpserted(t, before, k, after[k], source, inds, now))
  }

  lemma UpsertStep(t: Text, start: map<Key, Row>, before: map<Key, Row>, after: map<Key, Row>,
                   source: string, done: seq<Indicator>, ind: Indicator, range: Option<Range>, now: int)
    requires Upserted(t, start, before, source, done, now)
    requires after == WithRow(t, before, Key(ind.indicator, ind.kind, source), ind, range, now)
    ensures Upserted(t, start, after, source, done + [ind], now)
  {
    var key := Key(ind.indicator, ind.kind, source);
    var all := done + [ind];
    forall k
      ensures InBatch(k, source, all) <==> InBatch(k, source, done) || k == key
    {
      InBatchAppend(k, source, done, ind);
    }
    forall k | k in after && InBatch(k, source, all)
      ensures RowUpserted(t, start, k, after[k], source, all, now)
    {
      LastAppend(k, source, done, ind, "", NoteBefore(start, k));
      if !InBatch(k, source, done) {
        NoNote(k, source, done, NoteBefore(start, k));
      }
    }
  }

  lemma NothingUpserted(t: Text, rows: map<Key, Row>, source: string, now: int)
    ensures Upserted(t, rows, rows, source, [], now)
  {
  }

  lemma InBatchAppend(k: Key, source: string, done: seq<Indicator>, ind: Indicator)
    ensures InBatch(k, source, done + [ind]) <==> InBatch(k, source, done) || k == Key(ind.indicator, ind.kind, source)
  {
    var all := done + [ind];
    if InBatch(k, source, done) {
      var i :| 0 <= i < |done| && k == Key(done[i].indicator, done[i].kind, source);
      assert all[i] == done[i];
    }
    assert all[|done|] == ind;
  }

  lemma LastAppend(k: Key, source: string, done: seq<Indicator>, ind: Indicator, conf: string, note: Option<string>)
    ensures LastConfidence(k, source, done + [ind], conf) ==
            if k == Key(ind.indicator, ind.kind, source) then ind.confidence else LastConfidence(k, source, done, conf)
    ensures LastNote(k, source, done + [ind], note) ==
            if k == Key(ind.indicator, ind.kind, source) && ind.note.Some? then ind.note
            else LastNote(k, source, done, note)
  {
    assert (done + [ind])[..|done + [ind]| - 1] == done;
  }

  lemma {:induction false} NoNote(k: Key, source: string, inds: seq<Indicator>, earlier: Option<string>)
    requires !InBatch(k, source, inds)
    ensures LastNote(k, source, inds, earlier) == earlier
  {
    if inds != [] {
      var n := |inds| - 1;
      assert k != Key(inds[n].indicator, inds[n].kind, source);
      NoNote(k, source, inds[..n], earlier);
    }
  }
}
