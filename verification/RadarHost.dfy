/** The host side of the radar stream: the UDP receiver, the raw file it appends to and the
    loader that reads it back, joined with the sender into one path. */
module RadarHost {
  import opened RadarLoss
  import opened RadarStream
  import opened Wrappers

  const MAGIC: seq<Byte> := [0x42, 0x47, 0x54, 0x52]

  // struct raises on a payload too short for what it reads.
  datatype Decoded = Frame(number: Seq32, stamp: U64, samples: seq<Word>) | Short | NotRadar

  function DecodeRadar(payload: seq<Byte>): Decoded {
    if |payload| < HDR_BYTES then Short
    else if payload[..4] != MAGIC then NotRadar
    else if |payload| < PACKET_BYTES then Short
    else
      LeUndoesFromLe(payload[4..8]);
      LeUndoesFromLe(payload[8..16]);
      Rooms();
      Frame(FromLe(payload[4..8]), FromLe(payload[8..16]), FromLeWords(payload[16..272]))
  }

  predicate IsRadar(payload: seq<Byte>) { |payload| == PACKET_BYTES && payload[..4] == MAGIC }

  // What is wrong with a payload that does not decode.
  lemma DecodeRefusesIff(payload: seq<Byte>)
    ensures DecodeRadar(payload).NotRadar? <==> |payload| >= 16 && payload[..4] != MAGIC
    ensures DecodeRadar(payload).Short? <==> |payload| < 16 || (payload[..4] == MAGIC && |payload| < 272)
    ensures IsRadar(payload) ==> DecodeRadar(payload).Frame?
  {
    hide FromLe; hide FromLeWords; hide Le;
  }

  // Decoding returns what was encoded, header and samples; the two magics agree.
  lemma DecodeUndoesPacket(number: Seq32, stamp: U64, samples: seq<Word>)
    requires |samples| == NUM_SAMPLES
    ensures IsRadar(Packet(number, stamp, samples))
    ensures DecodeRadar(Packet(number, stamp, samples)) == Frame(number, stamp, samples)
  {
    hide Le; hide FromLe; hide FromLeWords; hide LeWords;
    var p := Packet(number, stamp, samples);
    MagicsAgree();
    Rooms();
    assert p[..4] == Le(PACKET_MAGIC, 4) && p[4..8] == Le(number, 4) && p[8..16] == Le(stamp, 8);
    assert p[16..272] == LeWords(samples);
    FromLeUndoesLe(number, 4);
    FromLeUndoesLe(stamp, 8);
    WordsSurvive(samples);
  }

  lemma MagicsAgree()
    ensures Le(PACKET_MAGIC, 4) == MAGIC
  {
    assert Le(0x525447, 3) == [0x47] + Le(0x5254, 2);
    assert Le(0x5254, 2) == [0x54] + Le(0x52, 1);
    assert Le(0x52, 1) == [0x52] + Le(0, 0);
  }

  // Encoding returns what was decoded: every accepted payload is the packet of what the
  // receiver reads out of it.
  lemma PacketUndoesDecode(payload: seq<Byte>)
    requires IsRadar(payload)
    ensures var d := DecodeRadar(payload);
            d.Frame? && |d.samples| == NUM_SAMPLES && payload == Packet(d.number, d.stamp, d.samples)
  {
    hide Le; hide FromLe; hide FromLeWords; hide LeWords;
    MagicsAgree();
    LeUndoesFromLe(payload[4..8]);
    LeUndoesFromLe(payload[8..16]);
    BytesSurvive(payload[16..272]);
    assert payload == payload[..4] + payload[4..8] + payload[8..16] + payload[16..272];
  }

  // ---- The receiver --------------------------------------------------------------------

  // The sequence numbers of the radar packets among the payloads.
  function Numbers(payloads: seq<seq<Byte>>): seq<Seq32> {
    if payloads == [] then []
    else
      var p := payloads[|payloads| - 1];
      Numbers(payloads[..|payloads| - 1]) + if IsRadar(p) then [DecodeRadar(p).number] else []
  }

  // The bytes behind their headers, end to end.
  function Saved(payloads: seq<seq<Byte>>): seq<Byte> {
    if payloads == [] then []
    else
      var p := payloads[|payloads| - 1];
      Saved(payloads[..|payloads| - 1]) + if IsRadar(p) then p[HDR_BYTES..] else []
  }

  class Receiver {
    const saving: bool
    var total: nat
    var radar: nat
    var last: Option<Seq32>
    var lost: nat
    var raw: seq<Byte>

    ghost predicate Heard(payloads: seq<seq<Byte>>)
      reads this
    {
      var numbers := Numbers(payloads);
      && total == |payloads| && radar == |numbers| && lost == Lost(numbers)
      && last == (if numbers == [] then None else Some(numbers[|numbers| - 1]))
      && raw == if saving then Saved(payloads) else []
    }

    constructor (outputRaw: bool)
      ensures saving == outputRaw && Heard([])
    {
      saving := outputRaw;
      total, radar, last, lost, raw := 0, 0, None, 0, [];
    }

    method Receive(payload: seq<Byte>, ghost past: seq<seq<Byte>>)
      requires Heard(past)
      modifies this
      ensures Heard(past + [payload])
    {
      OneMorePayload(past, payload);
      LooksLikeRadar(payload);
      hide Saved; hide Numbers; hide Lost; hide IsRadar; hide DecodeRadar;
      total := total + 1;
      if |payload| == PACKET_BYTES && MAGIC <= payload {
        var d := DecodeRadar(payload);
        LostOneMore(Numbers(past), d.number);
        radar := radar + 1;
        if last.Some? {
          lost := lost + (d.number - last.value - 1) % TWO32;
        }
        last := Some(d.number);
        if saving {
          raw := raw + payload[HDR_BYTES..];
        }
      }
    }
  }

  lemma LooksLikeRadar(payload: seq<Byte>)
    ensures IsRadar(payload) <==> |payload| == PACKET_BYTES && MAGIC <= payload
  {
    hide DecodeRadar;
    if |payload| == PACKET_BYTES {
      assert MAGIC <= payload <==> payload[..4] == MAGIC;
    }
  }

  // ---- The loader ----------------------------------------------------------------------

  datatype Loaded = Frames(frames: seq<seq<Sample>>) | Truncated(words: nat)

  function Masked(ws: seq<Word>): (s: seq<Sample>)
    ensures |s| == |ws|
  {
    seq(|ws|, i requires 0 <= i < |ws| => ws[i] % 0x1000)
  }

  function Reshaped(ws: seq<Word>): seq<seq<Sample>>
    requires |ws| % NUM_SAMPLES == 0
  {
    if ws == [] then [] else [Masked(ws[..NUM_SAMPLES])] + Reshaped(ws[NUM_SAMPLES..])
  }

  // load_frames: the check, the reshape and the 12-bit mask.
  function Load(raw: seq<Byte>): Loaded {
    var ws := FromLeWords(raw);
    if |ws| % NUM_SAMPLES != 0 then Truncated(|ws|) else Frames(Reshaped(ws))
  }

  function Total(s: seq<Sample>): int {
    if s == [] then 0 else Total(s[..|s| - 1]) + s[|s| - 1]
  }

  function Mean(s: seq<Sample>): real { Total(s) as real / NUM_SAMPLES as real }

  // load_frames: the mean of the frame removed, half the 12-bit range as the unit.
  function Centred(s: seq<Sample>): (c: seq<real>)
    ensures |c| == |s|
  {
    seq(|s|, i requires 0 <= i < |s| => (s[i] as real - Mean(s)) / 2048.0)
  }

  function CentredAll(frames: seq<seq<Sample>>): (cs: seq<seq<real>>)
    ensures |cs| == |frames| && forall k :: 0 <= k < |frames| ==> cs[k] == Centred(frames[k])
  {
    seq(|frames|, k requires 0 <= k < |frames| => Centred(frames[k]))
  }

  // All of load_frames; None where it raises.
  function LoadFrames(raw: seq<Byte>): Option<seq<seq<real>>> {
    match Load(raw)
    case Frames(frames) => Some(CentredAll(frames))
    case Truncated(_) => None
  }

  function TotalOf(c: seq<real>): real {
    if c == [] then 0.0 else TotalOf(c[..|c| - 1]) + c[|c| - 1]
  }

  // A centred frame sums to zero, keeps every difference between samples, and lies strictly
  // between -2 and 2.
  lemma CentredKeepsShape(s: seq<Sample>, i: nat, j: nat)
    requires |s| == NUM_SAMPLES && i < |s| && j < |s|
    ensures TotalOf(Centred(s)) == 0.0
    ensures (Centred(s)[i] - Centred(s)[j]) * 2048.0 == s[i] as real - s[j] as real
    ensures -2.0 < Centred(s)[i] < 2.0
  {
    TotalCentred(s, |s|);
    assert s[..|s|] == s && Centred(s)[..|s|] == Centred(s);
    TotalBounds(s);
  }

  lemma {:induction false} TotalCentred(s: seq<Sample>, n: nat)
    requires n <= |s|
    ensures TotalOf(Centred(s)[..n]) == (Total(s[..n]) as real - n as real * Mean(s)) / 2048.0
  {
    hide Mean;
    if n > 0 {
      TotalCentred(s, n - 1);
      assert Centred(s)[..n][..n - 1] == Centred(s)[..n - 1] && s[..n][..n - 1] == s[..n - 1];
    }
  }

  function Largest(s: seq<Sample>): (m: Sample)
    requires s != []
    ensures m in s && forall i :: 0 <= i < |s| ==> s[i] <= m
  {
    if |s| == 1 then s[0] else var m := Largest(s[1..]); if s[0] > m then s[0] else m
  }

  function Smallest(s: seq<Sample>): (m: Sample)
    requires s != []
    ensures m in s && forall i :: 0 <= i < |s| ==> m <= s[i]
  {
    if |s| == 1 then s[0] else var m := Smallest(s[1..]); if s[0] < m then s[0] else m
  }

  // No sample is further from the mean than half the 12-bit range, tested on the integers of
  // the raw frame: 262144 is 128 * 2048.
  predicate Moderate(s: seq<Sample>)
    requires s != []
  {
    NUM_SAMPLES * Largest(s) - Total(s) <= 262144 && Total(s) - NUM_SAMPLES * Smallest(s) <= 262144
  }

  predicate InRange(c: seq<real>) { forall i :: 0 <= i < |c| ==> -1.0 <= c[i] <= 1.0 }

  lemma SampleInRangeIff(s: seq<Sample>, i: nat)
    requires i < |s|
    ensures Centred(s)[i] <= 1.0 <==> NUM_SAMPLES * s[i] - Total(s) <= 262144
    ensures -1.0 <= Centred(s)[i] <==> Total(s) - NUM_SAMPLES * s[i] <= 262144
  {
    var x, t := s[i] as real, Total(s) as real;
    assert Mean(s) == t / 128.0;
    hide Mean; hide Total;
    assert Centred(s)[i] == (x - Mean(s)) / 2048.0;
  }

  // A frame stays within [-1, 1], as the loader's comments promise, exactly when its raw
  // samples are moderate.
  lemma CentredInRangeIff(s: seq<Sample>)
    requires s != []
    ensures InRange(Centred(s)) <==> Moderate(s)
  {
    forall i | 0 <= i < |s|
      ensures -1.0 <= Centred(s)[i] <= 1.0
              <==> NUM_SAMPLES * s[i] - Total(s) <= 262144 && Total(s) - NUM_SAMPLES * s[i] <= 262144
    {
      SampleInRangeIff(s, i);
    }
    var top: nat :| top < |s| && s[top] == Largest(s);
    var bottom: nat :| bottom < |s| && s[bottom] == Smallest(s);
    hide Centred; hide Largest; hide Smallest; hide Total;
    if InRange(Centred(s)) {
      assert -1.0 <= Centred(s)[top] <= 1.0 && -1.0 <= Centred(s)[bottom] <= 1.0;
    }
  }

  // And so for a whole file that loads.
  lemma FileInRangeIff(raw: seq<Byte>)
    requires Load(raw).Frames?
    ensures (forall k :: 0 <= k < |Load(raw).frames| ==> |Load(raw).frames[k]| == NUM_SAMPLES)
    ensures LoadFrames(raw).Some? && |LoadFrames(raw).value| == |Load(raw).frames|
    ensures (forall k :: 0 <= k < |LoadFrames(raw).value| ==> InRange(LoadFrames(raw).value[k]))
            <==> (forall k :: 0 <= k < |Load(raw).frames| ==> Moderate(Load(raw).frames[k]))
  {
    var frames := Load(raw).frames;
    ReshapedShape(FromLeWords(raw));
    hide InRange; hide Moderate; hide Load; hide Centred;
    forall k | 0 <= k < |frames| ensures InRange(Centred(frames[k])) <==> Moderate(frames[k]) {
      CentredInRangeIff(frames[k]);
    }
    var cs := CentredAll(frames);
    assert LoadFrames(raw) == Some(cs);
    if forall k :: 0 <= k < |cs| ==> InRange(cs[k]) {
      forall k | 0 <= k < |frames| ensures Moderate(frames[k]) {
        assert InRange(cs[k]);
      }
    }
  }

  lemma {:induction false} ReshapedShape(ws: seq<Word>)
    requires |ws| % NUM_SAMPLES == 0
    ensures forall k :: 0 <= k < |Reshaped(ws)| ==> |Reshaped(ws)[k]| == NUM_SAMPLES
  {
    if ws != [] {
      ReshapedShape(ws[NUM_SAMPLES..]);
    }
  }

  // One loud sample is enough to leave it.
  lemma CentredCanExceedOne()
    ensures exists s: seq<Sample> :: |s| == NUM_SAMPLES && Centred(s)[0] > 1.0
  {
    var peak: Sample := 4095;
    var quiet: seq<Sample> := seq(NUM_SAMPLES - 1, _ => 0);
    var s := [peak] + quiet;
    TotalOfPeak(s, NUM_SAMPLES);
    assert |s| == NUM_SAMPLES && s[..NUM_SAMPLES] == s;
    assert Mean(s) < 32.0;
    assert Centred(s)[0] == (4095.0 - Mean(s)) / 2048.0 > 1.0;
  }

  lemma {:induction false} TotalOfPeak(s: seq<Sample>, n: nat)
    requires 1 <= n <= |s| && forall i :: 0 < i < |s| ==> s[i] == 0
    ensures Total(s[..n]) == s[0]
  {
    if n > 1 {
      TotalOfPeak(s, n - 1);
      assert s[..n][..n - 1] == s[..n - 1];
    } else {
      assert s[..1][..0] == [];
    }
  }

  lemma {:induction false} TotalBounds(s: seq<Sample>)
    ensures 0 <= Total(s) <= 4095 * |s|
  {
    if s != [] {
      TotalBounds(s[..|s| - 1]);
    }
  }

  lemma {:induction false} ReshapedOneMore(a: seq<Word>, c: seq<Word>)
    requires |a| % NUM_SAMPLES == 0 && |c| == NUM_SAMPLES
    ensures Reshaped(a + c) == Reshaped(a) + [Masked(c)]
  {
    if a == [] {
      assert a + c == c && c[..NUM_SAMPLES] == c && c[NUM_SAMPLES..] == [];
    } else {
      ReshapedOneMore(a[NUM_SAMPLES..], c);
      assert (a + c)[NUM_SAMPLES..] == a[NUM_SAMPLES..] + c;
      assert (a + c)[..NUM_SAMPLES] == a[..NUM_SAMPLES];
    }
  }

  lemma LoadOneMore(raw: seq<Byte>, chunk: seq<Byte>)
    requires |raw| % (2 * NUM_SAMPLES) == 0 && |chunk| == 2 * NUM_SAMPLES
    ensures Load(raw).Frames? && Load(raw + chunk) == Frames(Load(raw).frames + [Masked(FromLeWords(chunk))])
  {
    hide Reshaped; hide Masked; hide FromLeWords;
    FromLeWordsAppend(raw, chunk);
    ReshapedOneMore(FromLeWords(raw), FromLeWords(chunk));
  }

  // The samples of each radar packet, masked.
  function Shown(payloads: seq<seq<Byte>>): seq<seq<Sample>> {
    if payloads == [] then []
    else
      var p := payloads[|payloads| - 1];
      Shown(payloads[..|payloads| - 1]) + if IsRadar(p) then [Masked(DecodeRadar(p).samples)] else []
  }

  // Whatever arrives, the file is a whole number of frames, it loads, and it holds one frame
  // for every radar packet, in order of arrival.
  lemma {:induction false} FileAlwaysLoads(payloads: seq<seq<Byte>>)
    ensures |Saved(payloads)| == 2 * NUM_SAMPLES * |Numbers(payloads)|
    ensures Load(Saved(payloads)) == Frames(Shown(payloads))
    ensures |Shown(payloads)| == |Numbers(payloads)|
  {
    hide Saved; hide Numbers; hide Shown; hide Load; hide IsRadar; hide DecodeRadar; hide Masked; hide FromLeWords;
    if payloads == [] {
      NothingSaved();
    } else {
      var past, p := payloads[..|payloads| - 1], payloads[|payloads| - 1];
      assert payloads == past + [p];
      FileAlwaysLoads(past);
      OneMorePayload(past, p);
      if IsRadar(p) {
        RadarIsWhole(p);
        LoadOneMore(Saved(past), p[HDR_BYTES..]);
      }
    }
  }

  lemma NothingSaved()
    ensures Saved([]) == [] && Numbers([]) == [] && Shown([]) == [] && Load([]) == Frames([])
  {
  }

  lemma RadarIsWhole(p: seq<Byte>)
    requires IsRadar(p)
    ensures |p| == HDR_BYTES + 2 * NUM_SAMPLES
  {
  }

  lemma OneMorePayload(past: seq<seq<Byte>>, p: seq<Byte>)
    ensures IsRadar(p) ==>
              && |p| >= HDR_BYTES && DecodeRadar(p).Frame?
              && Saved(past + [p]) == Saved(past) + p[HDR_BYTES..]
              && Shown(past + [p]) == Shown(past) + [Masked(FromLeWords(p[HDR_BYTES..]))]
              && Numbers(past + [p]) == Numbers(past) + [DecodeRadar(p).number]
    ensures !IsRadar(p) ==>
              Saved(past + [p]) == Saved(past) && Shown(past + [p]) == Shown(past) && Numbers(past + [p]) == Numbers(past)
  {
    hide Masked; hide FromLeWords;
    assert (past + [p])[..|past|] == past;
    if IsRadar(p) {
      assert p[16..272] == p[HDR_BYTES..];
    }
  }

  // ---- The whole path ------------------------------------------------------------------

  // What arrives: a frame of the board's, any number of times and in any order, or a payload
  // that is not a radar packet.
  datatype Arrival = FromBoard(i: nat) | Stray(payload: seq<Byte>)

  predicate Arrives(ticks: seq<Tick>, arrivals: seq<Arrival>) {
    forall k :: 0 <= k < |arrivals| ==>
      match arrivals[k]
      case FromBoard(i) => i < |ticks| && ticks[i].taken
      case Stray(p) => !IsRadar(p)
  }

  function Payloads(ticks: seq<Tick>, arrivals: seq<Arrival>): (ps: seq<seq<Byte>>)
    requires AllGood(ticks) && Arrives(ticks, arrivals)
    ensures |ps| == |arrivals|
  {
    if arrivals == [] then []
    else
      var a := arrivals[|arrivals| - 1];
      Payloads(ticks, arrivals[..|arrivals| - 1]) + [if a.FromBoard? then Offered(a.i, ticks[a.i]) else a.payload]
  }

  function Indices(arrivals: seq<Arrival>): seq<nat> {
    if arrivals == [] then []
    else
      var a := arrivals[|arrivals| - 1];
      Indices(arrivals[..|arrivals| - 1]) + if a.FromBoard? then [a.i] else []
  }

  lemma {:induction false} IndicesAreSent(ticks: seq<Tick>, arrivals: seq<Arrival>)
    requires Arrives(ticks, arrivals)
    ensures forall k :: 0 <= k < |Indices(arrivals)| ==> Indices(arrivals)[k] < |ticks| && ticks[Indices(arrivals)[k]].taken
  {
    if arrivals != [] {
      IndicesAreSent(ticks, arrivals[..|arrivals| - 1]);
    }
  }

  // Every payload from the board is one the socket took.
  lemma {:induction false} OfferedIsOnTheWire(ticks: seq<Tick>, i: nat)
    requires AllGood(ticks) && i < |ticks| && ticks[i].taken
    ensures Offered(i, ticks[i]) in Wire(ticks)
  {
    var n := |ticks| - 1;
    if i < n {
      OfferedIsOnTheWire(ticks[..n], i);
      assert ticks[..n][i] == ticks[i];
    }
  }

  ghost predicate Filmed(frames: seq<seq<Sample>>, ticks: seq<Tick>) {
    && AllGood(ticks) && |frames| == |ticks|
    && forall i :: 0 <= i < |ticks| ==> |frames[i]| == NUM_SAMPLES && ticks[i].burst.raw == Pack(frames[i])
  }

  lemma OfferedDecodes(frames: seq<seq<Sample>>, ticks: seq<Tick>, i: nat)
    requires Filmed(frames, ticks) && i < |ticks|
    ensures IsRadar(Offered(i, ticks[i]))
    ensures DecodeRadar(Offered(i, ticks[i])) == Frame(i % TWO32, Stamp(ticks[i].uptimeMs), frames[i])
    ensures Masked(frames[i]) == frames[i]
  {
    assert Masked(frames[i]) == frames[i];
    hide Pack; hide Unpack; hide Packet; hide DecodeRadar; hide IsRadar; hide Masked;
    UnpackUndoesPack(frames[i]);
    DecodeUndoesPacket(i % TWO32, Stamp(ticks[i].uptimeMs), frames[i]);
  }

  function Selected(frames: seq<seq<Sample>>, idx: seq<nat>): (s: seq<seq<Sample>>)
    requires forall k :: 0 <= k < |idx| ==> idx[k] < |frames|
    ensures |s| == |idx| && forall k :: 0 <= k < |idx| ==> s[k] == frames[idx[k]]
  {
    seq(|idx|, k requires 0 <= k < |idx| => frames[idx[k]])
  }

  // The k-th frame in the file is, sample for sample, the frame in the FIFO whose packet was
  // the k-th to arrive, the loader centres it, and the receiver saw its index modulo 2^32.
  lemma EndToEnd(frames: seq<seq<Sample>>, ticks: seq<Tick>, arrivals: seq<Arrival>)
    requires Filmed(frames, ticks) && Arrives(ticks, arrivals)
    ensures forall k :: 0 <= k < |Indices(arrivals)| ==> Indices(arrivals)[k] < |frames|
    ensures Load(Saved(Payloads(ticks, arrivals))) == Frames(Selected(frames, Indices(arrivals)))
    ensures LoadFrames(Saved(Payloads(ticks, arrivals))) == Some(CentredAll(Selected(frames, Indices(arrivals))))
    ensures Numbers(Payloads(ticks, arrivals)) == Wrap(Indices(arrivals))
  {
    hide Load; hide Saved; hide Payloads; hide Numbers; hide Shown;
    IndicesAreSent(ticks, arrivals);
    FileAlwaysLoads(Payloads(ticks, arrivals));
    ShownAre(frames, ticks, arrivals);
  }

  lemma {:induction false} ShownAre(frames: seq<seq<Sample>>, ticks: seq<Tick>, arrivals: seq<Arrival>)
    requires Filmed(frames, ticks) && Arrives(ticks, arrivals)
    requires forall k :: 0 <= k < |Indices(arrivals)| ==> Indices(arrivals)[k] < |frames|
    ensures Shown(Payloads(ticks, arrivals)) == Selected(frames, Indices(arrivals))
    ensures Numbers(Payloads(ticks, arrivals)) == Wrap(Indices(arrivals))
  {
    hide DecodeRadar; hide IsRadar; hide Offered; hide Masked; hide Pack;
    if arrivals != [] {
      var past, a := arrivals[..|arrivals| - 1], arrivals[|arrivals| - 1];
      IndicesAreSent(ticks, past);
      ShownAre(frames, ticks, past);
      var ps := Payloads(ticks, arrivals);
      assert ps[..|ps| - 1] == Payloads(ticks, past);
      if a.FromBoard? {
        OfferedDecodes(frames, ticks, a.i);
      }
    }
  }

  function Took(ticks: seq<Tick>): (s: seq<bool>)
    ensures |s| == |ticks| && forall i :: 0 <= i < |ticks| ==> s[i] == ticks[i].taken
  {
    seq(|ticks|, i requires 0 <= i < |ticks| => ticks[i].taken)
  }

  // Over a channel that keeps order and does not duplicate, in a run of at most 2^32 frames,
  // the receiver's counter is the frames the socket refused plus those lost on the way,
  // between the first and the last that arrived.
  lemma LossEndToEnd(frames: seq<seq<Sample>>, ticks: seq<Tick>, arrivals: seq<Arrival>)
    requires Filmed(frames, ticks) && Arrives(ticks, arrivals)
    requires Increasing(Indices(arrivals)) && |Indices(arrivals)| > 0 && |ticks| <= TWO32
    ensures var idx := Indices(arrivals);
            var first, end := idx[0], idx[|idx| - 1] + 1;
            && first < end <= |ticks|
            && Lost(Numbers(Payloads(ticks, arrivals)))
               == Dropped(Took(ticks), first, end) + LostOnTheWay(Took(ticks), idx, first, end)
  {
    hide Filmed; hide Payloads; hide Numbers; hide Lost; hide Dropped; hide LostOnTheWay; hide Indices; hide Wrap; hide Arrives;
    IndicesAreSent(ticks, arrivals);
    EndToEnd(frames, ticks, arrivals);
    LossIsExact(Took(ticks), Indices(arrivals));
  }
}
