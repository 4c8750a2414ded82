/** Radar samples from the sensor's FIFO to the host's file and back: the driver's unpack
    loop, the sender's packets, the receiver, and the loader. */
module RadarStream {
  import opened RadarLoss

  type Byte = b: int | 0 <= b < 0x100
  type Word = w: int | 0 <= w < 0x1_0000
  type Sample = s: int | 0 <= s < 0x1000
  type U64 = n: int | 0 <= n < 0x1_0000_0000_0000_0000

  const FIFO_SIZE := 8192
  const NUM_SAMPLES := 128
  const HDR_BYTES := 16
  const PACKET_BYTES := 272
  const PACKET_MAGIC: Seq32 := 0x52544742
  const EIO := 5
  const EINVAL := 22

  // ---- The driver ----------------------------------------------------------------------

  // Two 12-bit samples in three bytes, as the sensor's FIFO sends them.
  function Pack(s: seq<Sample>): (raw: seq<Byte>)
    requires |s| % 2 == 0
    ensures |raw| == |s| / 2 * 3
  {
    if s == [] then [] else [s[0] / 16, s[0] % 16 * 16 + s[1] / 256, s[1] % 256] + Pack(s[2..])
  }

  function Pair(b0: Byte, b1: Byte, b2: Byte): (w: seq<Sample>)
    ensures |w| == 2
  {
    [b0 * 16 + b1 / 16, b1 % 16 * 256 + b2]
  }

  function Unpack(raw: seq<Byte>): (s: seq<Sample>)
    ensures |s| == |raw| / 3 * 2
  {
    if |raw| < 3 then [] else Pair(raw[0], raw[1], raw[2]) + Unpack(raw[3..])
  }

  // The driver's shifts and masks, and the loader's mask, are this arithmetic.
  lemma ShiftsAreArithmetic(b0: bv16, b1: bv16, b2: bv16, w: bv16)
    requires b0 < 0x100 && b1 < 0x100 && b2 < 0x100
    ensures (b0 << 4) | (b1 >> 4) == b0 * 16 + b1 / 16
    ensures ((b1 & 0x0F) << 8) | b2 == b1 % 16 * 256 + b2
    ensures w & 0x0FFF == w % 0x1000
  {
  }

  lemma {:induction false} UnpackUndoesPack(s: seq<Sample>)
    requires |s| % 2 == 0
    ensures Unpack(Pack(s)) == s
  {
    if s != [] {
      PackFirst(s);
      PairOfPacked(s[0], s[1]);
      UnpackUndoesPack(s[2..]);
      hide Pack; hide Pair;
      assert s == [s[0], s[1]] + s[2..];
    }
  }

  lemma PackFirst(s: seq<Sample>)
    requires |s| % 2 == 0 && s != []
    ensures var raw := Pack(s);
            && |raw| >= 3 && raw[0] == s[0] / 16 && raw[1] == s[0] % 16 * 16 + s[1] / 256 && raw[2] == s[1] % 256
            && raw[3..] == Pack(s[2..])
  {
  }

  lemma PairOfPacked(x: Sample, y: Sample)
    ensures Pair(x / 16, x % 16 * 16 + y / 256, y % 256) == [x, y]
  {
  }

  lemma PairFaithful(b0: Byte, b1: Byte, b2: Byte)
    ensures var w := Pair(b0, b1, b2);
            w[0] / 16 == b0 && w[0] % 16 * 16 + w[1] / 256 == b1 && w[1] % 256 == b2
  {
  }

  // Every burst is the packing of exactly one list of samples.
  lemma {:induction false} PackUndoesUnpack(raw: seq<Byte>)
    requires |raw| % 3 == 0
    ensures Pack(Unpack(raw)) == raw
  {
    if raw != [] {
      var s := Unpack(raw);
      assert s == Pair(raw[0], raw[1], raw[2]) + Unpack(raw[3..]);
      assert s[2..] == Unpack(raw[3..]);
      PackUndoesUnpack(raw[3..]);
      PairFaithful(raw[0], raw[1], raw[2]);
      assert raw == raw[..3] + raw[3..];
    }
  }

  lemma {:induction false} UnpackOneMore(raw: seq<Byte>, b0: Byte, b1: Byte, b2: Byte)
    requires |raw| % 3 == 0
    ensures Unpack(raw + [b0, b1, b2]) == Unpack(raw) + Pair(b0, b1, b2)
  {
    var more := raw + [b0, b1, b2];
    if raw == [] {
      assert more == [b0, b1, b2] && more[3..] == [];
    } else {
      assert more[3..] == raw[3..] + [b0, b1, b2];
      UnpackOneMore(raw[3..], b0, b1, b2);
    }
  }

  // What the SPI transfer does: it fails, or it returns the status byte and the FIFO bytes.
  datatype Burst = Fails(err: int) | Answers(gsr0: bv8, raw: seq<Byte>)

  predicate Fits(burst: Burst, n: nat) {
    match burst
    case Fails(err) => err < 0
    case Answers(_, raw) => |raw| == n / 2 * 3
  }

  function FifoRc(burst: Burst, n: nat): int {
    if n % 2 == 1 || n / 2 > FIFO_SIZE then -EINVAL
    else if burst.Fails? then burst.err
    else if burst.gsr0 & 0x0D != 0 then -EIO
    else 0
  }

  // The buffer once i triples have been unpacked over what was found in it.
  ghost predicate Unpacked(all: seq<Word>, raw: seq<Byte>, found: seq<Word>, i: nat) {
    && |raw| % 3 == 0 && 3 * i <= |raw| && 2 * i <= |found|
    && all == Unpack(raw[..3 * i]) + found[2 * i..]
  }

  lemma NothingUnpacked(raw: seq<Byte>, found: seq<Word>)
    requires |raw| % 3 == 0
    ensures Unpacked(found, raw, found, 0)
  {
    assert raw[..0] == [] && Unpack([]) == [];
  }

  lemma AllUnpacked(all: seq<Word>, raw: seq<Byte>, found: seq<Word>)
    requires Unpacked(all, raw, found, |raw| / 3)
    ensures all == Unpack(raw) + found[|raw| / 3 * 2..]
  {
    hide Unpack;
    assert raw[..3 * (|raw| / 3)] == raw;
  }

  // Replacing the beginning of the rest.
  lemma Shifted<T>(all: seq<T>, done: seq<T>, rest: seq<T>, put: seq<T>)
    requires |rest| >= |put| && all == done + rest
    ensures all[..|done|] + put + all[|done| + |put|..] == (done + put) + rest[|put|..]
  {
  }

  // Replacing two places of the buffer unpacks one more triple.
  lemma OneMoreTriple(all: seq<Word>, raw: seq<Byte>, found: seq<Word>, i: nat)
    requires Unpacked(all, raw, found, i) && 3 * (i + 1) <= |raw| && 2 * (i + 1) <= |found| == |all|
    ensures var w := Pair(raw[3 * i], raw[3 * i + 1], raw[3 * i + 2]);
            Unpacked(all[..2 * i] + [w[0], w[1]] + all[2 * i + 2..], raw, found, i + 1)
  {
    var b0, b1, b2 := raw[3 * i], raw[3 * i + 1], raw[3 * i + 2];
    var done := raw[..3 * i];
    UnpackOneMore(done, b0, b1, b2);
    assert raw[..3 * (i + 1)] == done + [b0, b1, b2];
    hide Unpack; hide Pair;
    var w := Pair(b0, b1, b2);
    assert w == [w[0], w[1]];
    Shifted(all, Unpack(done), found[2 * i..], w);
    assert found[2 * i..][2..] == found[2 * (i + 1)..];
  }

  // The driver's loop: three bytes to two samples.
  method UnpackInto(raw: seq<Byte>, data: array<Word>)
    requires |raw| % 3 == 0 && |raw| / 3 * 2 <= data.Length
    modifies data
    ensures data[..] == Unpack(raw) + old(data[|raw| / 3 * 2..])
  {
    var words := |raw| / 3;
    ghost var found := data[..];
    NothingUnpacked(raw, found);
    for i := 0 to words
      invariant Unpacked(data[..], raw, found, i)
    {
      UnpackTriple(raw, data, found, i);
    }
    AllUnpacked(data[..], raw, found);
  }

  // The loop's body.
  method UnpackTriple(raw: seq<Byte>, data: array<Word>, ghost found: seq<Word>, i: nat)
    requires Unpacked(data[..], raw, found, i) && 3 * (i + 1) <= |raw| && 2 * (i + 1) <= |found| == data.Length
    modifies data
    ensures Unpacked(data[..], raw, found, i + 1)
  {
    hide Unpacked;
    var b0: int, b1: int, b2: int := raw[3 * i], raw[3 * i + 1], raw[3 * i + 2];
    OneMoreTriple(data[..], raw, found, i);
    var x, y := b0 * 16 + b1 / 16, b1 % 16 * 256 + b2;
    PutPair(data, 2 * i, x, y);
  }

  // One bit of the status byte.
  predicate Bit(b: bv8, k: bv8)
    requires k < 8
  {
    (b >> k) & 1 == 1
  }

  // A count that is odd or above 16384 is refused, and so is an answered burst with one of
  // three status bits: FIFO over- or underflow in bit 0, a burst error in bit 2, a clock-count
  // error in bit 3.  The other bits do not matter.
  lemma BurstAbortsIff(gsr0: bv8, raw: seq<Byte>, err: int, n: nat)
    ensures FifoRc(Answers(gsr0, raw), n)
            == (if n % 2 != 0 || n > 16384 then -22 else if Bit(gsr0, 0) || Bit(gsr0, 2) || Bit(gsr0, 3) then -5 else 0)
    ensures FifoRc(Fails(err), n) == if n % 2 != 0 || n > 16384 then -22 else err
  {
    AbortBits(gsr0);
    hide Bit;
  }

  lemma AbortBits(gsr0: bv8)
    ensures gsr0 & 0x0D != 0 <==> Bit(gsr0, 0) || Bit(gsr0, 2) || Bit(gsr0, 3)
  {
  }

  method PutPair(data: array<Word>, at: nat, x: Word, y: Word)
    requires at + 2 <= data.Length
    modifies data
    ensures data[..] == old(data[..at]) + [x, y] + old(data[at + 2..])
  {
    data[at] := x;
    data[at + 1] := y;
  }

  // bgt60tr13c_get_fifo_data.
  method GetFifoData(burst: Burst, data: array<Word>, n: nat) returns (rc: int)
    requires n <= data.Length && Fits(burst, n)
    modifies data
    ensures rc == FifoRc(burst, n)
    ensures data[..] == (if rc == 0 then Unpack(burst.raw) else old(data[..n])) + old(data[n..])
  {
    assert data[..] == data[..n] + data[n..];
    if n % 2 == 1 || n / 2 > FIFO_SIZE {
      return -EINVAL;
    }
    if burst.Fails? {
      return burst.err;
    }
    if burst.gsr0 & (0x01 | 0x04 | 0x08) != 0 {
      return -EIO;
    }
    UnpackInto(burst.raw, data);
    return 0;
  }

  // ---- Little-endian fields ------------------------------------------------------------

  function Le(v: nat, k: nat): (b: seq<Byte>)
    ensures |b| == k
  {
    if k == 0 then [] else [v % 0x100] + Le(v / 0x100, k - 1)
  }

  function FromLe(b: seq<Byte>): nat {
    if b == [] then 0 else b[0] + 0x100 * FromLe(b[1..])
  }

  function Room(k: nat): nat { if k == 0 then 1 else 0x100 * Room(k - 1) }

  lemma {:induction false} FromLeUndoesLe(v: nat, k: nat)
    requires v < Room(k)
    ensures FromLe(Le(v, k)) == v
  {
    if k > 0 {
      assert v / 0x100 < Room(k - 1);
      FromLeUndoesLe(v / 0x100, k - 1);
      assert Le(v, k)[1..] == Le(v / 0x100, k - 1);
    }
  }

  lemma LowByte(low: Byte, high: nat)
    ensures (low + 0x100 * high) % 0x100 == low && (low + 0x100 * high) / 0x100 == high
  {
  }

  lemma {:induction false} LeUndoesFromLe(b: seq<Byte>)
    ensures FromLe(b) < Room(|b|) && Le(FromLe(b), |b|) == b
  {
    if b != [] {
      LeUndoesFromLe(b[1..]);
      LowByte(b[0], FromLe(b[1..]));
      assert FromLe(b) == b[0] + 0x100 * FromLe(b[1..]) && Room(|b|) == 0x100 * Room(|b| - 1);
      assert Le(FromLe(b), |b|) == [FromLe(b) % 0x100] + Le(FromLe(b) / 0x100, |b| - 1);
      assert b == [b[0]] + b[1..];
    }
  }

  lemma Rooms()
    ensures Room(2) == 0x1_0000 && Room(4) == 0x1_0000_0000 && Room(8) == 0x1_0000_0000_0000_0000
  {
    assert Room(5) == 0x100 * Room(4) && Room(6) == 0x100 * Room(5) && Room(7) == 0x100 * Room(6);
  }

  function LeWords(ws: seq<Word>): (b: seq<Byte>)
    ensures |b| == 2 * |ws|
  {
    if ws == [] then [] else Le(ws[0], 2) + LeWords(ws[1..])
  }

  function WordOf(b: seq<Byte>): Word
    requires |b| >= 2
  {
    b[0] as int + 0x100 * b[1] as int
  }

  // The 16-bit values of a byte string; a last odd byte is not read.
  function FromLeWords(b: seq<Byte>): (ws: seq<Word>)
    ensures |ws| == |b| / 2
  {
    if |b| < 2 then [] else [WordOf(b)] + FromLeWords(b[2..])
  }

  lemma {:induction false} WordsSurvive(ws: seq<Word>)
    ensures FromLeWords(LeWords(ws)) == ws
  {
    if ws != [] {
      var b := LeWords(ws);
      WordsSurvive(ws[1..]);
      LeOfWord(ws[0]);
      assert b[2..] == LeWords(ws[1..]);
      assert ws == [ws[0]] + ws[1..];
    }
  }

  lemma {:induction false} BytesSurvive(b: seq<Byte>)
    requires |b| % 2 == 0
    ensures LeWords(FromLeWords(b)) == b
  {
    if b != [] {
      var ws := FromLeWords(b);
      BytesSurvive(b[2..]);
      LeOfWord(ws[0]);
      assert ws[1..] == FromLeWords(b[2..]);
      assert b == [b[0], b[1]] + b[2..];
    }
  }

  lemma LeOfWord(w: Word)
    ensures Le(w, 2) == [w % 0x100, w / 0x100]
  {
    assert Le(w / 0x100, 1) == [w / 0x100] + Le(0, 0);
  }

  lemma {:induction false} LeWordsAppend(a: seq<Word>, b: seq<Word>)
    ensures LeWords(a + b) == LeWords(a) + LeWords(b)
  {
    if a == [] {
      assert a + b == b;
    } else {
      assert (a + b)[1..] == a[1..] + b;
      LeWordsAppend(a[1..], b);
    }
  }

  lemma FirstWord(b: seq<Byte>)
    requires |b| >= 2
    ensures FromLeWords(b) == [WordOf(b)] + FromLeWords(b[2..])
  {
  }

  lemma {:induction false} FromLeWordsAppend(a: seq<Byte>, b: seq<Byte>)
    requires |a| % 2 == 0
    ensures FromLeWords(a + b) == FromLeWords(a) + FromLeWords(b)
  {
    if a == [] {
      assert a + b == b;
    } else {
      FirstWord(a);
      FirstWord(a + b);
      hide FromLeWords;
      assert (a + b)[2..] == a[2..] + b;
      FromLeWordsAppend(a[2..], b);
      var first: seq<Word> := [WordOf(a)];
      assert first + (FromLeWords(a[2..]) + FromLeWords(b)) == (first + FromLeWords(a[2..])) + FromLeWords(b);
    }
  }

  // ---- The sender ----------------------------------------------------------------------

  function Header(number: Seq32, stamp: U64): (h: seq<Byte>)
    ensures |h| == HDR_BYTES
  {
    Le(PACKET_MAGIC, 4) + Le(number, 4) + Le(stamp, 8)
  }

  function Packet(number: Seq32, stamp: U64, samples: seq<Word>): (p: seq<Byte>)
    ensures |p| == HDR_BYTES + 2 * |samples|
  {
    Header(number, stamp) + LeWords(samples)
  }

  // Nanoseconds since boot, in 64 bits.
  function Stamp(uptimeMs: nat): U64 { uptimeMs * 1000000 % 0x1_0000_0000_0000_0000 }

  // Two stamps differ by a million for each millisecond between them, modulo 2^64.
  lemma StampsAreNanoseconds(early: nat, late: nat)
    requires early <= late
    ensures (Stamp(late) - Stamp(early)) % 0x1_0000_0000_0000_0000 == (late - early) * 1000000 % 0x1_0000_0000_0000_0000
    ensures Stamp(0) == 0
  {
    DifferenceOfMod(late * 1000000, early * 1000000);
  }

  lemma DifferenceOfMod(x: nat, y: nat)
    ensures (x % 0x1_0000_0000_0000_0000 - y % 0x1_0000_0000_0000_0000) % 0x1_0000_0000_0000_0000
            == (x - y) % 0x1_0000_0000_0000_0000
  {
  }

  // sys_put_le16, _le32 and _le64.
  method PutLe(packet: array<Byte>, at: nat, v: nat, k: nat)
    requires at + k <= packet.Length
    modifies packet
    ensures packet[..] == old(packet[..at]) + Le(v, k) + old(packet[at + k..])
  {
    var rest := v;
    for i := 0 to k
      invariant packet[..at] == old(packet[..at]) && packet[at + k..] == old(packet[at + k..])
      invariant packet[at..at + i] + Le(rest, k - i) == Le(v, k)
    {
      packet[at + i] := rest % 0x100;
      assert packet[at..at + (i + 1)] == packet[at..at + i] + [rest % 0x100];
      rest := rest / 0x100;
    }
    assert packet[..] == packet[..at] + packet[at..at + k] + packet[at + k..];
  }

  // The buffer once header and i samples have been put over what was found in it.
  ghost predicate Built(all: seq<Byte>, number: Seq32, stamp: U64, buf: seq<Word>, found: seq<Byte>, i: nat) {
    && i <= |buf| && HDR_BYTES + 2 * i <= |found|
    && all == Packet(number, stamp, buf[..i]) + found[HDR_BYTES + 2 * i..]
  }

  lemma HeaderBuilt(all: seq<Byte>, number: Seq32, stamp: U64, buf: seq<Word>, found: seq<Byte>)
    requires |found| >= HDR_BYTES && all == Header(number, stamp) + found[HDR_BYTES..]
    ensures Built(all, number, stamp, buf, found, 0)
  {
    assert buf[..0] == [] && Header(number, stamp) + [] == Header(number, stamp);
  }

  lemma OneMoreSample(all: seq<Byte>, number: Seq32, stamp: U64, buf: seq<Word>, found: seq<Byte>, i: nat)
    requires Built(all, number, stamp, buf, found, i) && i < |buf| && HDR_BYTES + 2 * (i + 1) <= |found| == |all|
    ensures Built(all[..HDR_BYTES + 2 * i] + Le(buf[i], 2) + all[HDR_BYTES + 2 * i + 2..], number, stamp, buf, found, i + 1)
  {
    OneMoreWord(number, stamp, buf, i);
    hide Packet; hide Le;
    var done, rest := Packet(number, stamp, buf[..i]), found[HDR_BYTES + 2 * i..];
    Shifted(all, done, rest, Le(buf[i], 2));
    assert rest[2..] == found[HDR_BYTES + 2 * (i + 1)..];
  }

  // The header's three fields.
  method PutHeader(number: Seq32, stamp: U64, packet: array<Byte>)
    requires packet.Length >= HDR_BYTES
    modifies packet
    ensures packet[..] == Header(number, stamp) + old(packet[HDR_BYTES..])
  {
    hide Le;
    PutLe(packet, 0, PACKET_MAGIC, 4);
    PutLe(packet, 4, number, 4);
    PutLe(packet, 8, stamp, 8);
  }

  // build_packet.
  method BuildPacket(number: Seq32, stamp: U64, buf: seq<Word>, count: nat, packet: array<Byte>)
    requires packet.Length == PACKET_BYTES && count <= |buf| && count <= NUM_SAMPLES
    modifies packet
    ensures packet[..] == Packet(number, stamp, buf[..count]) + old(packet[HDR_BYTES + 2 * count..])
  {
    hide Header; hide Le; hide Packet;
    ghost var found := packet[..];
    PutHeader(number, stamp, packet);
    HeaderBuilt(packet[..], number, stamp, buf, found);
    for i := 0 to count
      invariant Built(packet[..], number, stamp, buf, found, i)
    {
      OneMoreSample(packet[..], number, stamp, buf, found, i);
      hide Built;
      PutLe(packet, HDR_BYTES + 2 * i, buf[i], 2);
    }
  }

  lemma OneMoreWord(number: Seq32, stamp: U64, buf: seq<Word>, i: nat)
    requires i < |buf|
    ensures Packet(number, stamp, buf[..i + 1]) == Packet(number, stamp, buf[..i]) + Le(buf[i], 2)
  {
    assert buf[..i + 1] == buf[..i] + [buf[i]];
    LeWordsAppend(buf[..i], [buf[i]]);
    assert LeWords([buf[i]]) == Le(buf[i], 2);
  }

  // One pass of the acquisition loop: the wait's result, the burst, the clock, and whether
  // the socket took the whole packet.
  datatype Tick = Tick(ready: int, burst: Burst, uptimeMs: nat, taken: bool)

  predicate Good(t: Tick) { t.ready >= 0 && FifoRc(t.burst, NUM_SAMPLES) == 0 }

  // A pass goes on exactly when the wait did not fail and the burst of 128 samples came
  // without an error bit.
  lemma GoodIff(t: Tick)
    requires t.burst.Fails? ==> t.burst.err < 0
    ensures Good(t) <==>
              t.ready >= 0 && t.burst.Answers? && !Bit(t.burst.gsr0, 0) && !Bit(t.burst.gsr0, 2) && !Bit(t.burst.gsr0, 3)
  {
    match t.burst
    case Fails(err) => BurstAbortsIff(0, [], err, NUM_SAMPLES);
    case Answers(gsr0, raw) => BurstAbortsIff(gsr0, raw, 0, NUM_SAMPLES);
  }

  ghost predicate AllFit(ticks: seq<Tick>) { forall i :: 0 <= i < |ticks| ==> Fits(ticks[i].burst, NUM_SAMPLES) }

  predicate AllGood(ticks: seq<Tick>) {
    forall i :: 0 <= i < |ticks| ==> Good(ticks[i]) && Fits(ticks[i].burst, NUM_SAMPLES)
  }

  // What the i-th pass offers to the socket.
  function Offered(i: nat, t: Tick): seq<Byte>
    requires Good(t) && Fits(t.burst, NUM_SAMPLES)
  {
    Packet(i % TWO32, Stamp(t.uptimeMs), Unpack(t.burst.raw))
  }

  // What the socket takes over a run.
  function Wire(ticks: seq<Tick>): seq<seq<Byte>>
    requires AllGood(ticks)
  {
    if ticks == [] then []
    else
      var i := |ticks| - 1;
      Wire(ticks[..i]) + if ticks[i].taken then [Offered(i, ticks[i])] else []
  }

  function Taken(ticks: seq<Tick>): nat {
    if ticks == [] then 0 else Taken(ticks[..|ticks| - 1]) + if ticks[|ticks| - 1].taken then 1 else 0
  }

  lemma NextWraps(a: int)
    ensures (a % TWO32 + 1) % TWO32 == (a + 1) % TWO32
  {
  }

  lemma {:induction false} OneMoreTick(past: seq<Tick>, t: Tick)
    requires AllGood(past) && Good(t) && Fits(t.burst, NUM_SAMPLES)
    ensures AllGood(past + [t]) && Wire(past + [t]) == Wire(past) + if t.taken then [Offered(|past|, t)] else []
    ensures Taken(past + [t]) == Taken(past) + if t.taken then 1 else 0
    ensures (|past| % TWO32 + 1) % TWO32 == |past + [t]| % TWO32
    ensures (Taken(past) % TWO32 + 1) % TWO32 == (Taken(past) + 1) % TWO32
    ensures ((|past| - Taken(past)) % TWO32 + 1) % TWO32 == (|past| - Taken(past) + 1) % TWO32
  {
    assert (past + [t])[..|past|] == past;
    NextWraps(|past|);
    NextWraps(Taken(past));
    NextWraps(|past| - Taken(past));
  }

  class Sender {
    const samples: array<Word>
    const packet: array<Byte>
    var number: Seq32
    var sentOk: Seq32
    var dropped: Seq32
    ghost var wire: seq<seq<Byte>>

    ghost predicate Valid()
      reads this
    {
      samples.Length == NUM_SAMPLES && packet.Length == PACKET_BYTES
    }

    ghost predicate Ran(ticks: seq<Tick>)
      reads this
    {
      && AllGood(ticks) && wire == Wire(ticks) && number == |ticks| % TWO32
      && sentOk == Taken(ticks) % TWO32 && dropped == (|ticks| - Taken(ticks)) % TWO32
    }

    constructor ()
      ensures Valid() && fresh(samples) && fresh(packet) && Ran([])
    {
      samples := new Word[NUM_SAMPLES](_ => 0);
      packet := new Byte[PACKET_BYTES](_ => 0);
      number, sentOk, dropped, wire := 0, 0, 0, [];
    }

    // Wait, read the FIFO, build the packet; false leaves main's loop.
    method Acquire(t: Tick) returns (goes: bool)
      requires Valid() && Fits(t.burst, NUM_SAMPLES)
      modifies samples, packet
      ensures goes == Good(t)
      ensures goes ==> packet[..] == Packet(number, Stamp(t.uptimeMs), Unpack(t.burst.raw))
    {
      if t.ready < 0 {
        return false;
      }
      var rc := GetFifoData(t.burst, samples, NUM_SAMPLES);
      if rc < 0 {
        return false;
      }
      assert samples[..] == Unpack(t.burst.raw) && samples[..][..NUM_SAMPLES] == samples[..];
      BuildPacket(number, Stamp(t.uptimeMs), samples[..], NUM_SAMPLES, packet);
      return true;
    }

    // The body of main's loop.
    method Pass(t: Tick, ghost past: seq<Tick>) returns (goes: bool)
      requires Valid() && Ran(past) && Fits(t.burst, NUM_SAMPLES)
      modifies this, samples, packet
      ensures Valid()
      ensures goes == Good(t)
      ensures Ran(if goes then past + [t] else past)
    {
      hide AllGood; hide Wire; hide Taken; hide Packet; hide Good; hide Fits; hide Unpack; hide Stamp;
      goes := Acquire(t);
      if !goes {
        return;
      }
      OneMoreTick(past, t);
      if t.taken {
        wire := wire + [packet[..]];
        sentOk := (sentOk + 1) % TWO32;
      } else {
        dropped := (dropped + 1) % TWO32;
      }
      number := (number + 1) % TWO32;
    }

    method Run(ticks: seq<Tick>) returns (ghost n: nat)
      requires Valid() && Ran([]) && AllFit(ticks)
      modifies this, samples, packet
      ensures Valid() && n <= |ticks| && Ran(ticks[..n])
      ensures n < |ticks| ==> !Good(ticks[n])
      ensures sentOk == |wire| % TWO32 && (sentOk + dropped) % TWO32 == number
    {
      n := 0;
      for i := 0 to |ticks|
        invariant Valid() && n == i && Ran(ticks[..n])
      {
        var goes := Pass(ticks[i], ticks[..n]);
        if !goes {
          CountersAddUp(ticks[..n]);
          return;
        }
        assert ticks[..n] + [ticks[i]] == ticks[..i + 1];
        n := n + 1;
      }
      CountersAddUp(ticks[..n]);
    }
  }

  lemma SumWraps(a: int, b: int)
    ensures (a % TWO32 + b % TWO32) % TWO32 == (a + b) % TWO32
  {
    assert a + b == a % TWO32 + b % TWO32 + TWO32 * (a / TWO32 + b / TWO32);
  }

  // Every frame is counted once: the two counters add up to the sequence number.
  lemma {:induction false} CountersAddUp(ticks: seq<Tick>)
    requires AllGood(ticks)
    ensures Taken(ticks) <= |ticks| && |Wire(ticks)| == Taken(ticks)
    ensures (Taken(ticks) % TWO32 + (|ticks| - Taken(ticks)) % TWO32) % TWO32 == |ticks| % TWO32
  {
    if ticks != [] {
      CountersAddUp(ticks[..|ticks| - 1]);
    }
    SumWraps(Taken(ticks), |ticks| - Taken(ticks));
  }
}
