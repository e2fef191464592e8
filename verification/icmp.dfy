/** ICMP wire arithmetic (internal/routing/icmp.go, internal/routing/traceroute.go).

    Unsigned integers are ints with the width written out: a uint32 addition wraps at
    2^32, x >> 16 is x / 65536, x & 0xffff is x % 65536, and joining disjoint bit fields
    with | is addition. */
module Icmp {

  type Byte = x: int | 0 <= x < 256
  type Word = x: int | 0 <= x < 0x1_0000
  const WRAP := 0x1_0000_0000

  // ----- One's-complement checksum (section 1 of RFC 1071) ----------------------------

  function BigEndian(hi: Byte, lo: Byte): Word {
    hi * 256 + lo
  }

  /** The sum of the 16-bit words of a buffer; an odd last byte is padded with zero. */
  function WordSum(b: seq<Byte>): nat {
    if |b| == 0 then 0
    else if |b| == 1 then BigEndian(b[0], 0)
    else BigEndian(b[0], b[1]) + WordSum(b[2..])
  }

  /** Adds the carries back in until the value fits 16 bits. */
  function Fold(sum: nat): Word
    decreases sum
  {
    if sum > 0xffff then Fold(sum / 0x1_0000 + sum % 0x1_0000) else sum
  }

  function Checksum(b: seq<Byte>): Word {
    0xffff - Fold(WordSum(b) % WRAP)
  }

  method ComputeChecksum(b: seq<Byte>) returns (sum16: Word)
    ensures sum16 == Checksum(b)
    ensures |b| <= 131074 ==> sum16 == 0xffff - Fold(WordSum(b))
  {
    var sum := SumWords(b);
    sum16 := FoldCarries(sum);
    if |b| <= 131074 {
      ShortSum(b);
    }
  }

  /** The adding loop, with every addition taken modulo 2^32. */
  method SumWords(b: seq<Byte>) returns (sum: nat)
    ensures sum == WordSum(b) % WRAP
  {
    hide WordSum, BigEndian;
    sum := 0;
    var i := 0;
    ghost var added: nat, k: nat := 0, 0;
    assert b[0..] == b;
    while i + 1 < |b|
      invariant i == 2 * k && i <= |b|
      invariant sum == added % WRAP
      invariant added + WordSum(b[i..]) == WordSum(b)
    {
      WordSumStep(b, i);
      ReduceFirst(added, BigEndian(b[i], b[i + 1]));
      sum := (sum + BigEndian(b[i], b[i + 1])) % WRAP;
      added := added + BigEndian(b[i], b[i + 1]);
      i, k := i + 2, k + 1;
    }
    WordSumLast(b);
    if |b| % 2 == 1 {
      ReduceFirst(added, BigEndian(b[|b| - 1], 0));
      sum := (sum + BigEndian(b[|b| - 1], 0)) % WRAP;
    }
  }

  lemma WordSumLast(b: seq<Byte>)
    ensures WordSum(b[|b|..]) == 0
    ensures b != [] ==> WordSum(b[|b| - 1..]) == BigEndian(b[|b| - 1], 0)
  {
  }

  lemma WordSumStep(b: seq<Byte>, i: nat)
    requires i + 1 < |b|
    ensures WordSum(b[i..]) == BigEndian(b[i], b[i + 1]) + WordSum(b[i + 2..])
  {
    assert b[i..][2..] == b[i + 2..];
  }

  /** The folding loop, and the complement. */
  method FoldCarries(total: nat) returns (sum16: Word)
    requires total < WRAP
    ensures sum16 == 0xffff - Fold(total)
  {
    var sum := total;
    while sum > 0xffff
      invariant 0 <= sum < WRAP
      invariant Fold(sum) == Fold(total)
      decreases sum
    {
      sum := (sum / 0x1_0000 + sum % 0x1_0000) % WRAP;
    }
    sum16 := 0xffff - sum;
  }

  lemma ReduceFirst(a: nat, c: nat)
    ensures (a % WRAP + c) % WRAP == (a + c) % WRAP
  {
  }

  lemma {:induction false} WordSumBound(b: seq<Byte>)
    ensures WordSum(b) <= (|b| + 1) / 2 * 0xffff
  {
    if |b| >= 2 {
      WordSumBound(b[2..]);
      assert (|b| + 1) / 2 == (|b[2..]| + 1) / 2 + 1;
    }
  }

  function AllOnes(n: nat): (r: seq<Byte>)
    ensures |r| == n
  {
    seq(n, _ => 255)
  }

  lemma {:induction false} AllOnesSum(n: nat)
    ensures WordSum(AllOnes(n)) == n / 2 * 0xffff + n % 2 * 0xff00
  {
    if n >= 2 {
      assert AllOnes(n)[2..] == AllOnes(n - 2);
      AllOnesSum(n - 2);
      assert n / 2 == (n - 2) / 2 + 1;
    }
  }

  /** The exact length up to which no buffer makes the uint32 sum wrap. */
  lemma NeverWrapsIff(n: nat)
    ensures (forall b: seq<Byte> :: |b| == n ==> WordSum(b) < WRAP) <==> n <= 131074
  {
    if n <= 131074 {
      forall b: seq<Byte> | |b| == n
        ensures WordSum(b) < WRAP
      {
        WordSumBound(b);
        assert (n + 1) / 2 <= 65537;
      }
    } else {
      AllOnesSum(n);
      assert |AllOnes(n)| == n && WordSum(AllOnes(n)) >= WRAP by {
        assert n / 2 >= 65537;
        if n / 2 == 65537 {
          assert n % 2 == 1;
        }
      }
    }
  }

  /** Folding keeps the value modulo 65535, and yields zero only for zero. */
  lemma {:induction false} FoldCongruent(sum: nat)
    ensures Fold(sum) % 0xffff == sum % 0xffff
    ensures Fold(sum) == 0 <==> sum == 0
    decreases sum
  {
    if sum > 0xffff {
      var next := sum / 0x1_0000 + sum % 0x1_0000;
      FoldCongruent(next);
      assert sum == next + 0xffff * (sum / 0x1_0000);
      MultipleVanishes(next, sum / 0x1_0000);
    }
  }

  lemma MultipleVanishes(x: nat, k: nat)
    ensures (x + 0xffff * k) % 0xffff == x % 0xffff
  {
  }

  /** Writing w big-endian at offset k. */
  function PutUint16(b: seq<Byte>, k: nat, w: Word): (r: seq<Byte>)
    requires k + 1 < |b|
    ensures |r| == |b|
  {
    b[k := w / 256][k + 1 := w % 256]
  }

  lemma {:induction false} PutAddsWord(b: seq<Byte>, k: nat, w: Word)
    requires k % 2 == 0 && k + 1 < |b| && b[k] == 0 && b[k + 1] == 0
    ensures WordSum(PutUint16(b, k, w)) == WordSum(b) + w
  {
    var r := PutUint16(b, k, w);
    if k == 0 {
      assert r[2..] == b[2..];
    } else {
      assert r[2..] == PutUint16(b[2..], k - 2, w);
      PutAddsWord(b[2..], k - 2, w);
    }
  }

  /** What the receiver checks: a buffer that carries its own checksum sums to zero. */
  lemma ChecksumOfStamped(b: seq<Byte>, k: nat)
    requires |b| <= 131074
    requires k % 2 == 0 && k + 1 < |b| && b[k] == 0 && b[k + 1] == 0
    ensures Checksum(PutUint16(b, k, Checksum(b))) == 0
  {
    var sum := WordSum(b);
    var c := Checksum(b);
    var r := PutUint16(b, k, c);
    ShortSum(b);
    assert c == 0xffff - Fold(sum);
    PutAddsWord(b, k, c);
    ShortSum(r);
    ComplementCancels(sum);
  }

  lemma ShortSum(b: seq<Byte>)
    requires |b| <= 131074
    ensures WordSum(b) % WRAP == WordSum(b)
  {
    NeverWrapsIff(|b|);
  }

  /** Adding the complement of the folded sum makes the sum fold to all ones. */
  lemma ComplementCancels(sum: nat)
    ensures Fold(sum + 0xffff - Fold(sum)) == 0xffff
  {
    var total := sum + 0xffff - Fold(sum);
    FoldCongruent(sum);
    FoldCongruent(total);
    assert total % 0xffff == 0 by {
      var q, r := sum / 0xffff, Fold(sum) / 0xffff;
      assert total == 0xffff * (q + 1 - r);
      MultipleVanishes(0, q + 1 - r);
    }
  }

  // ----- Echo requests ------------------------------------------------------------------

  const ECHO4: Byte := 8
  const ECHO_REPLY4: Byte := 0
  const TIME_EXCEEDED4: Byte := 11
  const UNREACHABLE4: Byte := 3
  const ECHO6: Byte := 128
  const ECHO_REPLY6: Byte := 129
  const TIME_EXCEEDED6: Byte := 3
  const UNREACHABLE6: Byte := 1

  /** The bytes of "iPulse-path-probe". */
  const PAYLOAD: seq<Byte> := [105, 80, 117, 108, 115, 101, 45, 112, 97, 116, 104, 45, 112, 114, 111, 98, 101]

  /** uint16 conversion of an int, negative ones included. */
  function Low16(x: int): Word {
    x % 0x1_0000
  }

  /** An ICMP message with a zero code and checksum. */
  function Message(kind: Byte, id: int, number: int): (r: seq<Byte>)
    ensures |r| == 25
  {
    [kind, 0, 0, 0, Low16(id) / 256, Low16(id) % 256, Low16(number) / 256, Low16(number) % 256] + PAYLOAD
  }

  /** The request as it goes on the wire; for IPv6 the kernel supplies the checksum. */
  function Echo(v6: bool, id: int, number: int): (r: seq<Byte>)
    ensures |r| == 25
  {
    if v6 then Message(ECHO6, id, number)
    else PutUint16(Message(ECHO4, id, number), 2, Checksum(Message(ECHO4, id, number)))
  }

  /** The request's seventh and eighth byte are the number. */
  predicate Carries(request: seq<Byte>, number: int) {
    |request| >= 8 && BigEndian(request[6], request[7]) == number
  }

  /** The request's bytes: type, code, identifier, number and text. */
  lemma EchoBytes(v6: bool, id: int, number: int)
    ensures var msg := Echo(v6, id, number);
            && msg[0] == (if v6 then 128 else 8) && msg[1] == 0 && (v6 ==> msg[2] == 0 && msg[3] == 0)
            && 256 * (msg[4] as int) + msg[5] == id % 0x1_0000
            && 256 * (msg[6] as int) + msg[7] == number % 0x1_0000
            && forall i :: 8 <= i < 25 ==> msg[i] == "iPulse-path-probe"[i - 8] as int
  {
    hide Checksum;
    var msg := Echo(v6, id, number);
    assert msg[8..] == PAYLOAD;
    PayloadSpells();
    forall i | 8 <= i < 25 ensures msg[i] == "iPulse-path-probe"[i - 8] as int {
      assert msg[8..][i - 8] == msg[i];
    }
  }

  lemma PayloadSpells()
    ensures forall i :: 0 <= i < 17 ==> PAYLOAD[i] == "iPulse-path-probe"[i] as int
  {
  }

  method BuildEcho(v6: bool, id: int, number: int) returns (msg: array<Byte>)
    ensures fresh(msg) && msg[..] == Echo(v6, id, number)
    ensures 0 <= number < 0x1_0000 ==> Carries(msg[..], number)
    ensures !v6 ==> Checksum(msg[..]) == 0
  {
    msg := new Byte[8 + |PAYLOAD|](_ => 0);
    msg[0] := if v6 then ECHO6 else ECHO4;
    msg[1] := 0;
    msg[4], msg[5] := Low16(id) / 256, Low16(id) % 256;
    msg[6], msg[7] := Low16(number) / 256, Low16(number) % 256;
    forall i | 0 <= i < |PAYLOAD| {
      msg[8 + i] := PAYLOAD[i];
    }
    assert msg[..] == Message(if v6 then ECHO6 else ECHO4, id, number);
    if !v6 {
      var sum := ComputeChecksum(msg[..]);
      ChecksumOfStamped(msg[..], 2);
      msg[2], msg[3] := sum / 256, sum % 256;
      assert msg[..] == PutUint16(Message(ECHO4, id, number), 2, sum);
    }
  }

  // ----- Parsing ------------------------------------------------------------------------

  datatype Kind = NoReply | TimeExceeded | EchoReply | Unreachable

  /** The sequence number of the datagram quoted in an ICMP error, or -1. */
  function EmbeddedSeq(data: seq<Byte>, v6: bool): int {
    var headerLen :=
      if v6 then 40
      else if |data| > 0 then (if data[0] % 16 * 4 < 20 then 20 else data[0] % 16 * 4)
      else 20;
    if |data| < headerLen + 8 then -1
    else BigEndian(data[headerLen + 6], data[headerLen + 7])
  }

  /** Raw IPv4 sockets deliver the IP header too; it is skipped when it is well formed. */
  function SkipHeader(b: seq<Byte>, v6: bool, raw: bool): seq<Byte> {
    if raw && !v6 && |b| > 0 && b[0] % 16 * 4 >= 20 && |b| > b[0] % 16 * 4 then b[b[0] % 16 * 4..] else b
  }

  function ParseMessage(b: seq<Byte>, v6: bool): (Kind, int) {
    if |b| < 8 then (NoReply, -1)
    else if b[0] == (if v6 then ECHO_REPLY6 else ECHO_REPLY4) then (EchoReply, BigEndian(b[6], b[7]))
    else if b[0] == (if v6 then TIME_EXCEEDED6 else TIME_EXCEEDED4) then (TimeExceeded, EmbeddedSeq(b[8..], v6))
    else if b[0] == (if v6 then UNREACHABLE6 else UNREACHABLE4) then (Unreachable, EmbeddedSeq(b[8..], v6))
    else (NoReply, -1)
  }

  function ParseICMP(b: seq<Byte>, v6: bool, raw: bool): (Kind, int) {
    ParseMessage(SkipHeader(b, v6, raw), v6)
  }

  /** An IPv4 header: section 3.1 of RFC 791, IHL of 5 to 15 words, options included. */
  predicate IPv4Header(h: seq<Byte>) {
    |h| >= 20 && |h| == h[0] % 16 * 4
  }

  /** The headers a socket may deliver in front of the ICMP message. */
  predicate Delivered(h: seq<Byte>, v6: bool, raw: bool) {
    if raw && !v6 then IPv4Header(h) else h == []
  }

  /** The reply of RFC 792: the request with its type turned round and any checksum. */
  predicate RepliesTo(reply: seq<Byte>, request: seq<Byte>, v6: bool) {
    && |reply| == |request| >= 8
    && reply[0] == (if v6 then ECHO_REPLY6 else ECHO_REPLY4)
    && reply[4..] == request[4..]
  }

  /** An error quoting the request: eight bytes of its own, the IP header, then the request
      or at least its first eight bytes. */
  ghost predicate Quotes(error: seq<Byte>, request: seq<Byte>, v6: bool) {
    exists header: seq<Byte>, kept: int ::
      && (if v6 then |header| == 40 else IPv4Header(header))
      && 8 <= kept <= |request|
      && |error| >= 8
      && QuotedTail(error, header, request, kept)
  }

  predicate QuotedTail(error: seq<Byte>, header: seq<Byte>, request: seq<Byte>, kept: int)
    requires |error| >= 8 && 0 <= kept <= |request|
  {
    error[8..] == header + request[..kept]
  }

  /** Sequence round trip, for every request that carries a number, as built ones do, both families,
      raw or not. */
  lemma ReplyRoundTrip(v6: bool, raw: bool, number: Word, request: seq<Byte>, reply: seq<Byte>, header: seq<Byte>)
    requires Carries(request, number) && RepliesTo(reply, request, v6) && Delivered(header, v6, raw)
    ensures ParseICMP(header + reply, v6, raw) == (EchoReply, number)
  {
    SkipDelivered(header, reply, v6, raw);
    assert reply[6] == reply[4..][2] == request[6] && reply[7] == reply[4..][3] == request[7];
  }

  lemma SkipDelivered(header: seq<Byte>, msg: seq<Byte>, v6: bool, raw: bool)
    requires Delivered(header, v6, raw) && msg != []
    ensures SkipHeader(header + msg, v6, raw) == msg
  {
    if raw && !v6 {
      assert (header + msg)[0] == header[0];
      assert (header + msg)[|header|..] == msg;
    } else {
      assert header + msg == msg;
    }
  }

  /** What a message is, by its type: sections 3.1 of RFC 4443 and "Summary of Message Types" of RFC 792.
      Anything else is no reply, nor is a message of less than eight bytes. */
  lemma KindIff(v6: bool, raw: bool, msg: seq<Byte>, header: seq<Byte>)
    requires Delivered(header, v6, raw) && msg != []
    ensures var (kind, number) := ParseICMP(header + msg, v6, raw);
            && (kind == EchoReply <==> |msg| >= 8 && msg[0] == if v6 then 129 else 0)
            && (kind == TimeExceeded <==> |msg| >= 8 && msg[0] == if v6 then 3 else 11)
            && (kind == Unreachable <==> |msg| >= 8 && msg[0] == if v6 then 1 else 3)
            && (kind == NoReply ==> number == -1)
  {
    SkipDelivered(header, msg, v6, raw);
  }

  /** An IPv4 header that claims less than 20 bytes counts as 20 in a quote, and is not skipped in front
      of a message; nor is one with nothing behind it. */
  lemma MalformedHeaders(b: seq<Byte>)
    requires b != []
    ensures b[0] % 16 < 5 && |b| >= 28 ==> EmbeddedSeq(b, false) == 256 * (b[26] as int) + b[27]
    ensures b[0] % 16 < 5 && |b| < 28 ==> EmbeddedSeq(b, false) == -1
    ensures b[0] % 16 < 5 || |b| <= 4 * (b[0] % 16) ==> ParseICMP(b, false, true) == ParseICMP(b, false, false)
  {
  }

  lemma EmbeddedRoundTrip(v6: bool, quoted: seq<Byte>, request: seq<Byte>, kept: nat)
    requires if v6 then |quoted| == 40 else IPv4Header(quoted)
    requires 8 <= kept <= |request|
    ensures EmbeddedSeq(quoted + request[..kept], v6) == BigEndian(request[6], request[7])
  {
    var data := quoted + request[..kept];
    assert data[0] == quoted[0];
    assert data[|quoted| + 6] == request[6] && data[|quoted| + 7] == request[7];
  }

  lemma ErrorRoundTrip(v6: bool, raw: bool, number: Word, request: seq<Byte>, error: seq<Byte>, header: seq<Byte>)
    requires Carries(request, number) && Quotes(error, request, v6) && Delivered(header, v6, raw)
    ensures |error| >= 8
    ensures error[0] == (if v6 then TIME_EXCEEDED6 else TIME_EXCEEDED4) ==>
            ParseICMP(header + error, v6, raw) == (TimeExceeded, number)
    ensures error[0] == (if v6 then UNREACHABLE6 else UNREACHABLE4) ==>
            ParseICMP(header + error, v6, raw) == (Unreachable, number)
  {
    ErrorParses(v6, raw, request, error, header);
  }

  lemma ErrorParses(v6: bool, raw: bool, request: seq<Byte>, error: seq<Byte>, header: seq<Byte>)
    requires |request| >= 8 && Quotes(error, request, v6) && Delivered(header, v6, raw)
    ensures |error| >= 8 && SkipHeader(header + error, v6, raw) == error
    ensures EmbeddedSeq(error[8..], v6) == BigEndian(request[6], request[7])
  {
    var quoted: seq<Byte>, kept :| && (if v6 then |quoted| == 40 else IPv4Header(quoted))
                                   && 8 <= kept <= |request| && |error| >= 8
                                   && QuotedTail(error, quoted, request, kept);
    SkipDelivered(header, error, v6, raw);
    EmbeddedRoundTrip(v6, quoted, request, kept);
  }

  // ----- Probe numbers and reply matching ---------------------------------------------------

  /** The counter after one call: (n + 1) & 0x7fff. */
  function NextCounter(n: nat): nat {
    (n + 1) % 0x8000
  }

  /** n | 0x4000 for a 15-bit n: bit 14 is set whether or not it already was. */
  function Tag(n: nat): Word
    requires n < 0x8000
  {
    if n / 0x4000 == 1 then n else n + 0x4000
  }

  class SeqCounter {
    var n: nat

    constructor ()
      ensures n == 0
    {
      n := 0;
    }

    method NextSeq() returns (number: Word)
      modifies this
      ensures n == NextCounter(old(n)) && number == Tag(n)
      ensures 0x4000 <= number <= 0x7fff
    {
      n := (n + 1) % 0x8000;
      number := Tag(n);
    }
  }

  /** The number handed out by the k-th call after the counter stood at n, counting from 0. */
  function NumberAt(n: nat, k: nat): Word
    decreases k
  {
    if k == 0 then Tag(NextCounter(n)) else NumberAt(NextCounter(n), k - 1)
  }

  lemma {:induction false} NumberAtClosed(n: nat, k: nat)
    ensures NumberAt(n, k) == 0x4000 + (n + 1 + k) % 0x4000
    decreases k
  {
    TagOfNext(n);
    if k > 0 {
      NumberAtClosed(NextCounter(n), k - 1);
      NextKeepsRemainder(n, k);
    }
  }

  lemma TagOfNext(n: nat)
    ensures Tag(NextCounter(n)) == 0x4000 + (n + 1) % 0x4000
  {
  }

  lemma NextKeepsRemainder(n: nat, k: nat)
    ensures (NextCounter(n) + k) % 0x4000 == (n + 1 + k) % 0x4000
  {
    var q, x := (n + 1) / 0x8000, NextCounter(n) + k;
    assert n + 1 + k == x + 0x4000 * (2 * q);
    WholeTurnsVanish(x, 2 * q);
  }

  lemma WholeTurnsVanish(x: nat, turns: nat)
    ensures (x + 0x4000 * turns) % 0x4000 == x % 0x4000
  {
    var d, r := x / 0x4000, x % 0x4000;
    assert x + 0x4000 * turns == 0x4000 * (d + turns) + r;
  }

  /** Two calls get the same number exactly when their distance is a multiple of 16384, so any
      16384 consecutive numbers are distinct; all of them fit 16 bits. */
  lemma NumbersRepeatExactly(n: nat, i: nat, j: nat)
    ensures NumberAt(n, i) == NumberAt(n, j) <==> (i - j) % 0x4000 == 0
    ensures 0 < j - i < 0x4000 ==> NumberAt(n, i) != NumberAt(n, j)
  {
    NumberAtClosed(n, i);
    NumberAtClosed(n, j);
    SameRemainder(n + 1 + i, n + 1 + j);
  }

  lemma SameRemainder(a: nat, b: nat)
    ensures a % 0x4000 == b % 0x4000 <==> (a - b) % 0x4000 == 0
  {
  }

  datatype Reply = Reply(addr: string, kind: Kind, number: int)
  datatype Hop = Silent | Answered(addr: string, destination: bool)

  predicate Answers(r: Reply, number: Word) {
    r.kind != NoReply && (r.number == -1 || r.number == number)
  }

  predicate HopFrom(hop: Hop, r: Reply, target: string) {
    hop == Answered(r.addr, r.kind == EchoReply || r.addr == target)
  }

  /** The reading loop of probeHop over the replies that arrive before the deadline. */
  method MatchReply(replies: seq<Reply>, number: Word, target: string) returns (hop: Hop)
    ensures hop == Silent <==> forall i :: 0 <= i < |replies| ==> !Answers(replies[i], number)
    ensures hop.Answered? ==> exists i :: FirstAnswer(replies, number, i) && HopFrom(hop, replies[i], target)
  {
    hop := Silent;
    for i := 0 to |replies|
      invariant forall j :: 0 <= j < i ==> !Answers(replies[j], number)
    {
      var r := replies[i];
      if r.kind == NoReply {
        continue;
      }
      if r.number != -1 && r.number != number {
        continue;
      }
      assert FirstAnswer(replies, number, i);
      assert HopFrom(Answered(r.addr, r.kind == EchoReply || r.addr == target), replies[i], target);
      return Answered(r.addr, r.kind == EchoReply || r.addr == target);
    }
  }

  ghost predicate FirstAnswer(replies: seq<Reply>, number: Word, i: int) {
    && 0 <= i < |replies| && Answers(replies[i], number)
    && forall j :: 0 <= j < i ==> !Answers(replies[j], number)
  }

  /** A late echo reply to any of the 16383 probes sent before this one, or after it, is never
      taken for an answer to it. */
  lemma LateReplyIsSkipped(n: nat, sent: nat, current: nat, v6: bool, raw: bool, request: seq<Byte>,
                           addr: string, reply: seq<Byte>, header: seq<Byte>)
    requires sent != current && -0x4000 < sent - current < 0x4000 && Carries(request, NumberAt(n, sent))
    requires RepliesTo(reply, request, v6) && Delivered(header, v6, raw)
    ensures var (kind, number) := ParseICMP(header + reply, v6, raw);
            !Answers(Reply(addr, kind, number), NumberAt(n, current))
  {
    ReplyRoundTrip(v6, raw, NumberAt(n, sent), request, reply, header);
    OtherNumber(n, sent, current);
  }

  /** Probes less than 16384 calls apart have different numbers. */
  lemma OtherNumber(n: nat, sent: nat, current: nat)
    requires sent != current && -0x4000 < sent - current < 0x4000
    ensures NumberAt(n, sent) != NumberAt(n, current)
  {
    if sent < current {
      NumbersRepeatExactly(n, sent, current);
    } else {
      NumbersRepeatExactly(n, current, sent);
    }
  }

  /** The types that intermediate hops answer with. */
  predicate IsError(kind: Byte, v6: bool) {
    if v6 then kind == TIME_EXCEEDED6 || kind == UNREACHABLE6 else kind == TIME_EXCEEDED4 || kind == UNREACHABLE4
  }

  /** An error whose data is the first kept bytes of the datagram that carried the request. */
  predicate QuotesFirst(error: seq<Byte>, quoted: seq<Byte>, request: seq<Byte>, kept: nat, v6: bool) {
    && |error| >= 8 && IsError(error[0], v6)
    && (if v6 then |quoted| == 40 else IPv4Header(quoted))
    && kept <= |quoted| + |request| && error[8..] == (quoted + request)[..kept]
  }

  /** The quoted number, or -1 when the quote ends before it. */
  lemma EmbeddedOfFirst(v6: bool, quoted: seq<Byte>, request: seq<Byte>, kept: nat)
    requires if v6 then |quoted| == 40 else IPv4Header(quoted)
    requires |request| >= 8 && kept <= |quoted| + |request|
    ensures EmbeddedSeq((quoted + request)[..kept], v6)
         == if kept < |quoted| + 8 then -1 else BigEndian(request[6], request[7])
  {
    var data := (quoted + request)[..kept];
    if kept > 0 {
      assert data[0] == quoted[0];
    }
    if kept >= |quoted| + 8 {
      assert data[|quoted| + 6] == request[6] && data[|quoted| + 7] == request[7];
    }
  }

  /** An error about a probe with another number is taken for an answer exactly when it quotes less than
      the IP header and eight bytes: the missing number passes for any. */
  lemma LateErrorAnswersIff(sent: Word, current: Word, v6: bool, raw: bool, request: seq<Byte>, addr: string,
                            error: seq<Byte>, quoted: seq<Byte>, kept: nat, header: seq<Byte>)
    requires sent != current && Carries(request, sent)
    requires QuotesFirst(error, quoted, request, kept, v6) && Delivered(header, v6, raw)
    ensures var (kind, number) := ParseICMP(header + error, v6, raw);
            Answers(Reply(addr, kind, number), current) <==> kept < |quoted| + 8
  {
    SkipDelivered(header, error, v6, raw);
    EmbeddedOfFirst(v6, quoted, request, kept);
  }

  /** A late error that quotes what RFC 792 asks for is skipped like an echo reply. */
  lemma LateErrorIsSkipped(n: nat, sent: nat, current: nat, v6: bool, raw: bool, request: seq<Byte>,
                           addr: string, error: seq<Byte>, header: seq<Byte>)
    requires sent != current && -0x4000 < sent - current < 0x4000 && Carries(request, NumberAt(n, sent))
    requires Quotes(error, request, v6) && Delivered(header, v6, raw)
    ensures var (kind, number) := ParseICMP(header + error, v6, raw);
            !IsError(error[0], v6) || !Answers(Reply(addr, kind, number), NumberAt(n, current))
  {
    ErrorRoundTrip(v6, raw, NumberAt(n, sent), request, error, header);
    OtherNumber(n, sent, current);
  }

  /** Eight bytes of time exceeded, quoting nothing, answer every probe. */
  lemma ShortQuoteAnswers(addr: string, number: Word)
    ensures var (kind, quoted) := ParseICMP([TIME_EXCEEDED4, 0, 0, 0, 0, 0, 0, 0], false, false);
            quoted == -1 && Answers(Reply(addr, kind, quoted), number)
  {
  }
}
