/** The current capture: run-length segments of the GPIO trace, the labels the capture script
    puts on them, and the join that the post-processor makes later. */
module Capture {

  import opened Wrappers

  // ---- Segments ------------------------------------------------------------------------

  datatype Segment = Segment(high: bool, start: nat, end: nat, mean: real)

  const GPIO_MASK := 128

  // The pm-busy line: bit 7 of a digital sample.
  predicate D7(d: int) { d / GPIO_MASK % 2 == 1 }

  // The level is bit 7 of the byte that holds the eight digital channels, whatever is above it.
  lemma LevelIsBitSeven(d: bv8, above: nat)
    ensures D7(256 * above + d as int) <==> (d >> 7) & 1 == 1
  {
    BitSeven(d);
    Halves(d as int, above);
  }

  lemma BitSeven(d: bv8)
    ensures d as int >= 128 <==> (d >> 7) & 1 == 1
  {
  }

  lemma Halves(low: nat, above: nat)
    requires low < 256
    ensures D7(256 * above + low) <==> low >= 128
  {
  }

  function Levels(digital: seq<int>, n: nat): (l: seq<bool>)
    requires n <= |digital|
    ensures |l| == n && forall i :: 0 <= i < n ==> l[i] == D7(digital[i])
  {
    seq(n, i requires 0 <= i < n => D7(digital[i]))
  }

  function Sum(samples: seq<real>, lo: nat, hi: nat): real
    requires lo <= hi <= |samples|
  {
    if lo == hi then 0.0 else Sum(samples, lo, hi - 1) + samples[hi - 1]
  }

  function Length(s: Segment): int { s.end - s.start }

  predicate Constant(s: Segment, levels: seq<bool>) {
    s.start < s.end <= |levels| && forall i :: s.start <= i < s.end ==> levels[i] == s.high
  }

  // Non-empty runs of one level each, end to end from 0, alternating.
  ghost predicate Runs(segs: seq<Segment>, levels: seq<bool>) {
    && (forall k :: 0 <= k < |segs| ==> Constant(segs[k], levels))
    && (segs != [] ==> segs[0].start == 0)
    && (forall j, k :: 0 <= j < k < |segs| && k == j + 1 ==> segs[k].start == segs[j].end && segs[k].high != segs[j].high)
  }

  function End(segs: seq<Segment>): nat { if segs == [] then 0 else segs[|segs| - 1].end }

  ghost predicate Decomposes(segs: seq<Segment>, levels: seq<bool>) { Runs(segs, levels) && End(segs) == |levels| }

  function Product(mean: real, n: int): real { mean * n as real }

  predicate MeanFits(s: Segment, samples: seq<real>) {
    s.start <= s.end <= |samples| && Product(s.mean, Length(s)) == Sum(samples, s.start, s.end)
  }

  predicate MeansFit(segs: seq<Segment>, samples: seq<real>) { forall k :: 0 <= k < |segs| ==> MeanFits(segs[k], samples) }

  lemma MeanOf(sum: real, n: int)
    requires n > 0
    ensures Product(sum / n as real, n) == sum
  {
  }

  lemma RunsOfNothing(levels: seq<bool>, samples: seq<real>)
    ensures Runs([], levels) && MeansFit([], samples)
  {
  }

  // Appending the run that ends at end.
  lemma OneMoreRun(segs: seq<Segment>, s: Segment, levels: seq<bool>, samples: seq<real>)
    requires Runs(segs, levels) && MeansFit(segs, samples) && Constant(s, levels) && MeanFits(s, samples)
    requires s.start == End(segs) && (segs != [] ==> segs[|segs| - 1].high != s.high)
    ensures Runs(segs + [s], levels) && MeansFit(segs + [s], samples) && End(segs + [s]) == s.end
  {
  }

  function Min(a: nat, b: nat): nat { if a < b then a else b }

  // segment_by_gpio.
  method SegmentByGpio(samples: seq<real>, digital: seq<int>) returns (segs: seq<Segment>)
    ensures Decomposes(segs, Levels(digital, Min(|samples|, |digital|)))
    ensures MeansFit(segs, samples)
  {
    var n := Min(|samples|, |digital|);
    ghost var levels := Levels(digital, n);
    segs := [];
    if n == 0 {
      RunsOfNothing(levels, samples);
      return;
    }
    var segStart := 0;
    var current := D7(digital[0]);
    var runningSum := 0.0;
    hide Product; hide Runs; hide MeansFit;
    RunsOfNothing(levels, samples);
    for i := 0 to n
      invariant segStart <= i && (segStart == i ==> i == 0)
      invariant Runs(segs, levels) && MeansFit(segs, samples) && End(segs) == segStart
      invariant segs != [] ==> segs[|segs| - 1].high != current
      invariant levels[segStart] == current && forall j :: segStart <= j < i ==> levels[j] == current
      invariant runningSum == Sum(samples, segStart, i)
    {
      var level := D7(digital[i]);
      if level != current {
        var length := i - segStart;
        var seg := Segment(current, segStart, i, if length != 0 then runningSum / length as real else 0.0);
        MeanOf(runningSum, length);
        OneMoreRun(segs, seg, levels, samples);
        segs := segs + [seg];
        segStart := i;
        current := level;
        runningSum := 0.0;
      }
      runningSum := runningSum + samples[i];
    }
    var length := n - segStart;
    if length > 0 {
      var seg := Segment(current, segStart, n, runningSum / length as real);
      MeanOf(runningSum, length);
      OneMoreRun(segs, seg, levels, samples);
      segs := segs + [seg];
    }
  }

  lemma {:induction false} SameStart(a: seq<Segment>, b: seq<Segment>, levels: seq<bool>, k: nat)
    requires Decomposes(a, levels) && Decomposes(b, levels) && k < |a| && k < |b|
    ensures a[k].start == b[k].start && a[k].end == b[k].end && a[k].high == b[k].high
  {
    if k > 0 {
      SameStart(a, b, levels, k - 1);
    }
    assert Constant(a[k], levels) && Constant(b[k], levels);
    assert levels[a[k].start] == a[k].high == b[k].high;
    NotLonger(a, b, levels, k);
    NotLonger(b, a, levels, k);
  }

  // A run ends where its level does.
  lemma NotLonger(a: seq<Segment>, b: seq<Segment>, levels: seq<bool>, k: nat)
    requires Decomposes(a, levels) && Decomposes(b, levels) && k < |a| && k < |b|
    requires a[k].start == b[k].start && a[k].high == b[k].high
    ensures a[k].end >= b[k].end
  {
    LevelFlips(a, levels, k);
    assert Constant(b[k], levels);
  }

  lemma LevelFlips(a: seq<Segment>, levels: seq<bool>, k: nat)
    requires Decomposes(a, levels) && k < |a|
    ensures a[k].start < a[k].end <= |levels|
    ensures a[k].end < |levels| ==> levels[a[k].end] != a[k].high
  {
    assert Constant(a[k], levels);
    if k + 1 < |a| {
      assert Constant(a[k + 1], levels);
    }
  }

  lemma NotFewer(a: seq<Segment>, b: seq<Segment>, levels: seq<bool>)
    requires Decomposes(a, levels) && Decomposes(b, levels)
    ensures |a| >= |b|
  {
    if |a| < |b| {
      assert Constant(b[|a|], levels);
      if |a| > 0 {
        SameStart(a, b, levels, |a| - 1);
      }
    }
  }

  // There is one decomposition, and its means are the samples' means.
  lemma DecompositionIsUnique(a: seq<Segment>, b: seq<Segment>, levels: seq<bool>, samples: seq<real>)
    requires Decomposes(a, levels) && Decomposes(b, levels)
    requires MeansFit(a, samples) && MeansFit(b, samples)
    ensures a == b
  {
    NotFewer(a, b, levels);
    NotFewer(b, a, levels);
    forall k | 0 <= k < |a| ensures a[k] == b[k] {
      SameStart(a, b, levels, k);
      assert Constant(a[k], levels) && MeanFits(a[k], samples) && MeanFits(b[k], samples);
      SameMean(a[k].mean, b[k].mean, Length(a[k]));
    }
  }

  lemma SameMean(x: real, y: real, n: int)
    requires n > 0 && Product(x, n) == Product(y, n)
    ensures x == y
  {
    assert (x - y) * n as real == 0.0;
  }

  // ---- Charge --------------------------------------------------------------------------

  function Charge(segs: seq<Segment>): real {
    if segs == [] then 0.0
    else Charge(segs[..|segs| - 1]) + Product(segs[|segs| - 1].mean, Length(segs[|segs| - 1]))
  }

  function Samples(segs: seq<Segment>): int {
    if segs == [] then 0 else Samples(segs[..|segs| - 1]) + Length(segs[|segs| - 1])
  }

  lemma {:induction false} SumSplits(samples: seq<real>, lo: nat, mid: nat, hi: nat)
    requires lo <= mid <= hi <= |samples|
    ensures Sum(samples, lo, hi) == Sum(samples, lo, mid) + Sum(samples, mid, hi)
  {
    if mid < hi {
      SumSplits(samples, lo, mid, hi - 1);
    }
  }

  lemma RunsPrefix(segs: seq<Segment>, levels: seq<bool>, samples: seq<real>)
    requires Runs(segs, levels) && MeansFit(segs, samples) && segs != []
    ensures Runs(segs[..|segs| - 1], levels) && MeansFit(segs[..|segs| - 1], samples)
    ensures End(segs[..|segs| - 1]) == segs[|segs| - 1].start
  {
  }

  lemma {:induction false} ChargeUpTo(segs: seq<Segment>, levels: seq<bool>, samples: seq<real>)
    requires Runs(segs, levels) && MeansFit(segs, samples)
    ensures End(segs) <= |samples| && Samples(segs) == End(segs)
    ensures Charge(segs) == Sum(samples, 0, End(segs))
  {
    if segs != [] {
      var last := segs[|segs| - 1];
      RunsPrefix(segs, levels, samples);
      ChargeUpTo(segs[..|segs| - 1], levels, samples);
      SumSplits(samples, 0, last.start, last.end);
    }
  }

  lemma NoSamples(samples: seq<real>, mean: real)
    ensures Product(mean, 0) == Sum(samples, 0, 0)
  {
  }

  // The capture script's overall mean: the segments' means weighted by their lengths.
  function OverallMean(segs: seq<Segment>): real {
    if Samples(segs) == 0 then 0.0 else Charge(segs) / Samples(segs) as real
  }

  // No charge is lost in segmenting: the overall mean is the mean of the samples.
  lemma OverallMeanIsTheMean(segs: seq<Segment>, levels: seq<bool>, samples: seq<real>)
    requires Decomposes(segs, levels) && MeansFit(segs, samples)
    ensures |levels| <= |samples| && Samples(segs) == |levels|
    ensures Product(OverallMean(segs), |levels|) == Sum(samples, 0, |levels|)
  {
    ChargeUpTo(segs, levels, samples);
    hide Product; hide Charge; hide Sum; hide Decomposes; hide MeansFit;
    if |levels| > 0 {
      MeanOf(Charge(segs), |levels|);
    } else {
      NoSamples(samples, OverallMean(segs));
    }
  }

  const SETTLE_SAMPLES := 20000

  // idle_mean_settled: the mean of a segment without its first 200 ms.
  function SettledMean(samples: seq<real>, s: Segment): real
    requires s.start <= s.end <= |samples|
  {
    var a := Min(s.start + SETTLE_SAMPLES, s.end);
    if s.end - a <= 0 then s.mean else Sum(samples, a, s.end) / (s.end - a) as real
  }

  // The settled part and the first 200 ms together carry the segment's charge.
  lemma SettledMeanIsTheRest(samples: seq<real>, s: Segment)
    requires MeanFits(s, samples)
    ensures Length(s) > SETTLE_SAMPLES ==>
              Sum(samples, s.start, s.start + SETTLE_SAMPLES) + Product(SettledMean(samples, s), Length(s) - SETTLE_SAMPLES)
              == Product(s.mean, Length(s))
    ensures Length(s) <= SETTLE_SAMPLES ==> SettledMean(samples, s) == s.mean
  {
    hide Product;
    if Length(s) > SETTLE_SAMPLES {
      MeanOf(Sum(samples, s.start + SETTLE_SAMPLES, s.end), Length(s) - SETTLE_SAMPLES);
      SumSplits(samples, s.start, s.start + SETTLE_SAMPLES, s.end);
    }
  }

  // ---- Labels --------------------------------------------------------------------------

  // What the console said about one command, when it could be parsed.
  datatype Parsed = Parsed(source: string, target: string, cycles: nat)
  datatype Txn = Txn(cmd: string, parsed: Option<Parsed>)

  datatype Idle = Idle(start: nat, length: int, mean: real, settled: real, mode: Option<string>, pulsesBefore: nat)
  datatype Pulse = Pulse(
    number: nat, start: nat, length: int, mean: real,
    cmd: Option<string>, source: Option<string>, target: Option<string>)

  const SAMPLE_PERIOD_S := 1.0 / 100000.0

  function Duration(s: Segment): real { Length(s) as real * SAMPLE_PERIOD_S }

  predicate IsPulse(s: Segment) { s.high && Duration(s) * 1000000.0 >= 100.0 }

  // The settling time is 200 ms.
  lemma SettlingIs200Ms(s: Segment)
    requires s.start == 0 && s.end == SETTLE_SAMPLES
    ensures Duration(s) == 0.2
  {
  }

  // 100 microseconds are ten samples.
  lemma PulsesAreTenSamples(s: Segment)
    ensures IsPulse(s) <==> s.high && Length(s) >= 10
  {
  }

  // The places of the pulses, and of the low segments.
  function PulseAt(segs: seq<Segment>): seq<nat> {
    if segs == [] then []
    else PulseAt(segs[..|segs| - 1]) + if IsPulse(segs[|segs| - 1]) then [|segs| - 1] else []
  }

  function IdleAt(segs: seq<Segment>): seq<nat> {
    if segs == [] then []
    else IdleAt(segs[..|segs| - 1]) + if segs[|segs| - 1].high then [] else [|segs| - 1]
  }

  predicate Places(at: seq<nat>, n: nat) { forall k :: 0 <= k < |at| ==> at[k] < n }

  // Strictly rising places of pulses.
  ghost predicate PulsesAt(at: seq<nat>, segs: seq<Segment>) {
    && Places(at, |segs|)
    && (forall k :: 0 <= k < |at| ==> IsPulse(segs[at[k]]))
    && forall i, k :: 0 <= i < k < |at| ==> at[i] < at[k]
  }

  ghost predicate IdlesAt(at: seq<nat>, segs: seq<Segment>) {
    Places(at, |segs|) && forall k :: 0 <= k < |at| ==> !segs[at[k]].high
  }

  lemma {:induction false} PlacesFit(segs: seq<Segment>)
    ensures PulsesAt(PulseAt(segs), segs) && IdlesAt(IdleAt(segs), segs)
  {
    hide IsPulse;
    if segs != [] {
      var n := |segs| - 1;
      PlacesFit(segs[..n]);
      hide PulseAt; hide IdleAt;
      OneMorePlace(PulseAt(segs[..n]), IdleAt(segs[..n]), segs);
      ShapeOfPlaces(segs);
    }
  }

  lemma ShapeOfPlaces(segs: seq<Segment>)
    requires segs != []
    ensures var n := |segs| - 1;
            && PulseAt(segs) == PulseAt(segs[..n]) + (if IsPulse(segs[n]) then [n] else [])
            && IdleAt(segs) == IdleAt(segs[..n]) + (if segs[n].high then [] else [n])
  {
    hide IsPulse;
  }

  lemma OneMorePlace(pulses: seq<nat>, idles: seq<nat>, segs: seq<Segment>)
    requires segs != [] && PulsesAt(pulses, segs[..|segs| - 1]) && IdlesAt(idles, segs[..|segs| - 1])
    ensures PulsesAt(pulses, segs) && IdlesAt(idles, segs)
    ensures IsPulse(segs[|segs| - 1]) ==> PulsesAt(pulses + [|segs| - 1], segs)
    ensures !segs[|segs| - 1].high ==> IdlesAt(idles + [|segs| - 1], segs)
  {
    hide IsPulse;
    assert forall k :: 0 <= k < |segs| - 1 ==> segs[..|segs| - 1][k] == segs[k];
  }

  function TargetOf(txns: seq<Txn>, i: nat): Option<string> {
    if i < |txns| && txns[i].parsed.Some? then Some(txns[i].parsed.value.target) else None
  }

  function SourceOf(txns: seq<Txn>, i: nat): Option<string> {
    if i < |txns| && txns[i].parsed.Some? then Some(txns[i].parsed.value.source) else None
  }

  // What an idle record must say: its segment's numbers, how many pulses precede it, and the
  // mode the last of them led to.
  predicate DescribesIdle(r: Idle, samples: seq<real>, segs: seq<Segment>, at: nat, txns: seq<Txn>)
    requires at < |segs| && MeansFit(segs, samples)
  {
    var before := |PulseAt(segs[..at])|;
    && r.start == segs[at].start && r.length == Length(segs[at]) && r.mean == segs[at].mean
    && r.settled == SettledMean(samples, segs[at]) && r.pulsesBefore == before
    && r.mode == if before == 0 then Some("HP") else TargetOf(txns, before - 1)
  }

  predicate DescribesPulse(r: Pulse, i: nat, s: Segment, txns: seq<Txn>) {
    && r.number == i + 1 && r.start == s.start && r.length == Length(s) && r.mean == s.mean
    && r.cmd == (if i < |txns| then Some(txns[i].cmd) else None)
    && r.source == SourceOf(txns, i) && r.target == TargetOf(txns, i)
  }

  ghost predicate IdlesFit(idles: seq<Idle>, samples: seq<real>, segs: seq<Segment>, txns: seq<Txn>)
    requires MeansFit(segs, samples)
  {
    && |idles| == |IdleAt(segs)| && Places(IdleAt(segs), |segs|)
    && forall k :: 0 <= k < |idles| ==> DescribesIdle(idles[k], samples, segs, IdleAt(segs)[k], txns)
  }

  ghost predicate PulsesFit(pulses: seq<Pulse>, segs: seq<Segment>, txns: seq<Txn>) {
    && |pulses| == |PulseAt(segs)| && Places(PulseAt(segs), |segs|)
    && forall k :: 0 <= k < |pulses| ==> DescribesPulse(pulses[k], k, segs[PulseAt(segs)[k]], txns)
  }

  // main's loop over the segments.
  method LabelIdles(samples: seq<real>, segs: seq<Segment>, txns: seq<Txn>) returns (idles: seq<Idle>)
    requires MeansFit(segs, samples)
    ensures IdlesFit(idles, samples, segs, txns)
  {
    idles := [];
    var pulsesSeen := 0;
    for i := 0 to |segs|
      invariant pulsesSeen == |PulseAt(segs[..i])|
      invariant |idles| == |IdleAt(segs[..i])| && Places(IdleAt(segs[..i]), |segs|)
      invariant forall k :: 0 <= k < |idles| ==> DescribesIdle(idles[k], samples, segs, IdleAt(segs[..i])[k], txns)
    {
      var seg := segs[i];
      assert segs[..i + 1][..i] == segs[..i];
      if seg.high && Duration(seg) * 1000000.0 >= 100.0 {
        pulsesSeen := pulsesSeen + 1;
        continue;
      }
      if seg.high {
        continue;
      }
      var mode := None;
      if pulsesSeen == 0 {
        mode := Some("HP");
      } else if pulsesSeen <= |txns| {
        var t := txns[pulsesSeen - 1];
        if t.parsed.Some? {
          mode := Some(t.parsed.value.target);
        }
      }
      idles := idles + [Idle(seg.start, Length(seg), seg.mean, SettledMean(samples, seg), mode, pulsesSeen)];
    }
    assert segs[..|segs|] == segs;
  }

  // main's list of pulses and the loop that numbers them from 1.
  method LabelPulses(segs: seq<Segment>, txns: seq<Txn>) returns (pulses: seq<Pulse>)
    ensures PulsesFit(pulses, segs, txns)
    ensures forall k :: 0 <= k < |pulses| ==> pulses[k].number == k + 1
  {
    PlacesFit(segs);
    var at := PulseAt(segs);
    pulses := [];
    for i := 0 to |at|
      invariant |pulses| == i
      invariant forall k :: 0 <= k < i ==> DescribesPulse(pulses[k], k, segs[at[k]], txns)
    {
      var seg := segs[at[i]];
      var cmd, source, target := None, None, None;
      if i < |txns| {
        cmd := Some(txns[i].cmd);
        if txns[i].parsed.Some? {
          source, target := Some(txns[i].parsed.value.source), Some(txns[i].parsed.value.target);
        }
      }
      pulses := pulses + [Pulse(i + 1, seg.start, Length(seg), seg.mean, cmd, source, target)];
    }
  }

  lemma {:induction false} PulsesOfPrefix(segs: seq<Segment>, at: nat)
    requires at <= |segs|
    ensures PulseAt(segs[..at]) <= PulseAt(segs)
    ensures forall k :: |PulseAt(segs[..at])| <= k < |PulseAt(segs)| ==> PulseAt(segs)[k] >= at
  {
    if at < |segs| {
      PulsesOfPrefix(segs[..|segs| - 1], at);
      assert segs[..|segs| - 1][..at] == segs[..at];
    } else {
      assert segs[..at] == segs;
    }
  }

  // The two lists agree: an idle after k pulses carries the target of the k-th pulse record,
  // that pulse ended before the idle began, and no other pulse comes in between.
  lemma LabelsAgree(
    samples: seq<real>, levels: seq<bool>, segs: seq<Segment>, txns: seq<Txn>,
    idles: seq<Idle>, pulses: seq<Pulse>, j: nat)
    requires Decomposes(segs, levels) && MeansFit(segs, samples)
    requires IdlesFit(idles, samples, segs, txns) && PulsesFit(pulses, segs, txns) && j < |idles|
    ensures var k := idles[j].pulsesBefore;
            && k <= |pulses|
            && idles[j].mode == (if k == 0 then Some("HP") else pulses[k - 1].target)
            && (k > 0 ==> pulses[k - 1].start + pulses[k - 1].length <= idles[j].start)
            && (k < |pulses| ==> idles[j].start + idles[j].length <= pulses[k].start)
  {
    var at, k := IdleAt(segs)[j], idles[j].pulsesBefore;
    assert DescribesIdle(idles[j], samples, segs, at, txns);
    PulsesOfPrefix(segs, at);
    PlacesFit(segs);
    PlacesFit(segs[..at]);
    if k > 0 {
      assert PulseAt(segs[..at])[k - 1] == PulseAt(segs)[k - 1];
      assert DescribesPulse(pulses[k - 1], k - 1, segs[PulseAt(segs)[k - 1]], txns);
      InOrder(segs, levels, PulseAt(segs)[k - 1], at);
    }
    if k < |pulses| {
      assert DescribesPulse(pulses[k], k, segs[PulseAt(segs)[k]], txns);
      assert PulseAt(segs)[k] != at;
      InOrder(segs, levels, at, PulseAt(segs)[k]);
    }
  }

  lemma {:induction false} InOrder(segs: seq<Segment>, levels: seq<bool>, i: nat, k: nat)
    requires Runs(segs, levels) && i < k < |segs|
    ensures segs[i].end <= segs[k].start
  {
    assert Constant(segs[k - 1], levels);
    if i < k - 1 {
      InOrder(segs, levels, i, k - 1);
    }
  }

  // ---- The post-processor's buckets ----------------------------------------------------

  function Key(source: string, target: string): string { source + "->" + target }

  // The JSON record of a transition has both names or neither.
  function KeyOf(t: Txn): Option<string> {
    if t.parsed.None? then None else Some(Key(t.parsed.value.source, t.parsed.value.target))
  }

  datatype Bucket = Bucket(cycles: seq<nat>, lengths: seq<int>, means: seq<real>)

  const EMPTY := Bucket([], [], [])

  // A dictionary that starts every bucket empty.
  function Found(byDir: map<string, Bucket>, key: string): Bucket { if key in byDir then byDir[key] else EMPTY }

  function CyclesAt(txns: seq<Txn>, key: string): seq<nat> {
    if txns == [] then []
    else
      var t := txns[|txns| - 1];
      CyclesAt(txns[..|txns| - 1], key) + if KeyOf(t) == Some(key) then [t.parsed.value.cycles] else []
  }

  // The pulses at the indices of the transitions with a key.
  function PulsesUnder(txns: seq<Txn>, pulses: seq<Pulse>, key: string): seq<Pulse> {
    if txns == [] then []
    else
      var i := |txns| - 1;
      PulsesUnder(txns[..i], pulses, key) + if KeyOf(txns[i]) == Some(key) && i < |pulses| then [pulses[i]] else []
  }

  // The pulse records labelled with a source and a target.
  function Labelled(pulses: seq<Pulse>, source: string, target: string): seq<Pulse> {
    if pulses == [] then []
    else
      var p := pulses[|pulses| - 1];
      Labelled(pulses[..|pulses| - 1], source, target)
      + if p.source == Some(source) && p.target == Some(target) then [p] else []
  }

  function LengthsOf(pulses: seq<Pulse>): (l: seq<int>)
    ensures |l| == |pulses| && forall i :: 0 <= i < |pulses| ==> l[i] == pulses[i].length
  {
    seq(|pulses|, i requires 0 <= i < |pulses| => pulses[i].length)
  }

  function MeansOf(pulses: seq<Pulse>): (l: seq<real>)
    ensures |l| == |pulses| && forall i :: 0 <= i < |pulses| ==> l[i] == pulses[i].mean
  {
    seq(|pulses|, i requires 0 <= i < |pulses| => pulses[i].mean)
  }

  function BucketAt(txns: seq<Txn>, pulses: seq<Pulse>, key: string): Bucket {
    var under := PulsesUnder(txns, pulses, key);
    Bucket(CyclesAt(txns, key), LengthsOf(under), MeansOf(under))
  }

  ghost predicate BucketsFit(byDir: map<string, Bucket>, txns: seq<Txn>, pulses: seq<Pulse>) {
    forall key :: if key in byDir then byDir[key] == BucketAt(txns, pulses, key) && byDir[key].cycles != []
                  else BucketAt(txns, pulses, key) == EMPTY
  }

  // The pulse at the index of the transition to come, if there is one.
  function PulseOf(txns: seq<Txn>, pulses: seq<Pulse>): Option<Pulse> {
    if |txns| < |pulses| then Some(pulses[|txns|]) else None
  }

  function Enter(b: Bucket, cycles: nat, p: Option<Pulse>): Bucket {
    if p.None? then Bucket(b.cycles + [cycles], b.lengths, b.means)
    else Bucket(b.cycles + [cycles], b.lengths + [p.value.length], b.means + [p.value.mean])
  }

  lemma OneMoreUnder(txns: seq<Txn>, t: Txn, pulses: seq<Pulse>, key: string)
    ensures PulsesUnder(txns + [t], pulses, key)
            == if KeyOf(t) == Some(key) && |txns| < |pulses| then PulsesUnder(txns, pulses, key) + [pulses[|txns|]]
               else PulsesUnder(txns, pulses, key)
    ensures CyclesAt(txns + [t], key)
            == if KeyOf(t) == Some(key) then CyclesAt(txns, key) + [t.parsed.value.cycles] else CyclesAt(txns, key)
  {
    assert (txns + [t])[..|txns|] == txns;
  }

  lemma OneMoreColumn(pulses: seq<Pulse>, p: Pulse)
    ensures LengthsOf(pulses + [p]) == LengthsOf(pulses) + [p.length]
    ensures MeansOf(pulses + [p]) == MeansOf(pulses) + [p.mean]
  {
  }

  lemma OneMoreTxn(txns: seq<Txn>, t: Txn, pulses: seq<Pulse>, key: string)
    ensures BucketAt(txns + [t], pulses, key)
            == if KeyOf(t) != Some(key) then BucketAt(txns, pulses, key)
               else Enter(BucketAt(txns, pulses, key), t.parsed.value.cycles, PulseOf(txns, pulses))
  {
    hide PulsesUnder; hide CyclesAt; hide LengthsOf; hide MeansOf; hide Key;
    OneMoreUnder(txns, t, pulses, key);
    if |txns| < |pulses| {
      OneMoreColumn(PulsesUnder(txns, pulses, key), pulses[|txns|]);
    }
  }

  lemma BucketsGrow(byDir: map<string, Bucket>, txns: seq<Txn>, t: Txn, pulses: seq<Pulse>)
    requires BucketsFit(byDir, txns, pulses)
    ensures KeyOf(t).None? ==> BucketsFit(byDir, txns + [t], pulses)
    ensures KeyOf(t).Some? ==>
      var key := KeyOf(t).value;
      BucketsFit(byDir[key := Enter(Found(byDir, key), t.parsed.value.cycles,
                                    PulseOf(txns, pulses))], txns + [t], pulses)
  {
    forall key ensures BucketAt(txns + [t], pulses, key)
                       == if KeyOf(t) != Some(key) then BucketAt(txns, pulses, key)
                          else Enter(BucketAt(txns, pulses, key), t.parsed.value.cycles, PulseOf(txns, pulses)) {
      OneMoreTxn(txns, t, pulses, key);
    }
    hide BucketAt;
  }

  // The loop of summarize_transitions.
  method SummarizeTransitions(txns: seq<Txn>, pulses: seq<Pulse>) returns (byDir: map<string, Bucket>)
    ensures BucketsFit(byDir, txns, pulses)
  {
    byDir := map[];
    assert BucketsFit(byDir, txns[..0], pulses);
    hide BucketsFit; hide Key;
    for i := 0 to |txns|
      invariant BucketsFit(byDir, txns[..i], pulses)
    {
      var t := txns[i];
      BucketsGrow(byDir, txns[..i], t, pulses);
      assert txns[..i] + [t] == txns[..i + 1];
      if t.parsed.None? {
        continue;
      }
      var key := Key(t.parsed.value.source, t.parsed.value.target);
      var b := Found(byDir, key);
      b := b.(cycles := b.cycles + [t.parsed.value.cycles]);
      if i < |pulses| {
        b := b.(lengths := b.lengths + [pulses[i].length], means := b.means + [pulses[i].mean]);
      }
      byDir := byDir[key := b];
    }
    assert txns[..|txns|] == txns;
  }

  predicate Plain(name: string) { '-' !in name }

  // Without a dash in the names, a key tells its two names apart.
  lemma KeysAreFaithful(a: string, b: string, c: string, d: string)
    requires Plain(a) && Plain(c) && Key(a, b) == Key(c, d)
    ensures a == c && b == d
  {
    var k := Key(a, b);
    assert k[|a|] == '-' && k[|c|] == '-' && k[..|a|] == a && k[..|c|] == c;
    assert k[|a| + 2..] == b && Key(c, d)[|c| + 2..] == d;
  }

  // With one, it may not.
  lemma KeysCanCollide()
    ensures Key("HP->LP", "ULP") == Key("HP", "LP->ULP")
  {
  }

  ghost predicate PlainNames(txns: seq<Txn>) {
    forall i :: 0 <= i < |txns| && txns[i].parsed.Some? ==> Plain(txns[i].parsed.value.source)
  }

  ghost predicate LabelsMatch(pulses: seq<Pulse>, txns: seq<Txn>) {
    forall i :: 0 <= i < |pulses| ==> pulses[i].source == SourceOf(txns, i) && pulses[i].target == TargetOf(txns, i)
  }

  lemma PulsesMatch(pulses: seq<Pulse>, segs: seq<Segment>, txns: seq<Txn>)
    requires PulsesFit(pulses, segs, txns)
    ensures LabelsMatch(pulses, txns)
  {
    forall i | 0 <= i < |pulses| ensures pulses[i].source == SourceOf(txns, i) && pulses[i].target == TargetOf(txns, i) {
      assert DescribesPulse(pulses[i], i, segs[PulseAt(segs)[i]], txns);
    }
  }

  // No transition below n that has a pulse shares the key without sharing the names.
  ghost predicate NoCollision(txns: seq<Txn>, pulses: seq<Pulse>, source: string, target: string, n: nat) {
    forall i :: 0 <= i < n && i < |txns| && i < |pulses| && KeyOf(txns[i]) == Some(Key(source, target)) ==>
      Names(txns, i, source, target)
  }

  predicate Names(txns: seq<Txn>, i: nat, source: string, target: string) {
    SourceOf(txns, i) == Some(source) && TargetOf(txns, i) == Some(target)
  }

  // The bucket source->target is made of exactly the pulses that the capture script labelled
  // with that source and target, in order, unless another pair of names makes the same key;
  // then it holds more of them.
  lemma BucketsAgreeIff(txns: seq<Txn>, pulses: seq<Pulse>, source: string, target: string)
    requires LabelsMatch(pulses, txns)
    ensures var under, labelled := PulsesUnder(txns, pulses, Key(source, target)), Labelled(pulses, source, target);
            && (under == labelled <==> NoCollision(txns, pulses, source, target, |pulses|))
            && (under == labelled || |under| > |labelled|)
  {
    BucketsAgreeUpTo(txns, pulses, source, target, if |txns| < |pulses| then |pulses| else |txns|);
    assert txns[..|txns|] == txns && pulses[..|pulses|] == pulses;
  }

  // From the capture script to the post-processor: for any capture and any console log, the
  // bucket source->target holds the lengths and means of exactly the pulses that the capture
  // script labelled with that source and target, in order, if and only if no other pair of
  // names with a pulse makes the same key.
  lemma BucketHoldsItsPulsesIff(
    segs: seq<Segment>, txns: seq<Txn>, pulses: seq<Pulse>, byDir: map<string, Bucket>, source: string, target: string)
    requires PulsesFit(pulses, segs, txns) && BucketsFit(byDir, txns, pulses)
    ensures var bucket, labelled := Found(byDir, Key(source, target)), Labelled(pulses, source, target);
            bucket.lengths == LengthsOf(labelled) && bucket.means == MeansOf(labelled)
            <==> NoCollision(txns, pulses, source, target, |pulses|)
  {
    hide Key; hide PulsesFit; hide NoCollision; hide Labelled; hide PulsesUnder; hide CyclesAt;
    PulsesMatch(pulses, segs, txns);
    BucketIsUnder(byDir, txns, pulses, Key(source, target));
    BucketsAgreeIff(txns, pulses, source, target);
  }

  lemma BucketIsUnder(byDir: map<string, Bucket>, txns: seq<Txn>, pulses: seq<Pulse>, key: string)
    requires BucketsFit(byDir, txns, pulses)
    ensures Found(byDir, key) == BucketAt(txns, pulses, key)
  {
    hide BucketAt;
    if key in byDir {
    }
  }

  // Index i puts its pulse into the bucket.
  predicate Enters(txns: seq<Txn>, pulses: seq<Pulse>, key: string, i: nat) {
    i < |txns| && i < |pulses| && KeyOf(txns[i]) == Some(key)
  }

  function UnderTo(txns: seq<Txn>, pulses: seq<Pulse>, key: string, n: nat): seq<Pulse> {
    PulsesUnder(txns[..Min(n, |txns|)], pulses, key)
  }

  function LabelledTo(pulses: seq<Pulse>, source: string, target: string, n: nat): seq<Pulse> {
    Labelled(pulses[..Min(n, |pulses|)], source, target)
  }

  lemma UnderGrows(txns: seq<Txn>, pulses: seq<Pulse>, key: string, i: nat)
    ensures UnderTo(txns, pulses, key, 0) == []
    ensures UnderTo(txns, pulses, key, i + 1)
            == if Enters(txns, pulses, key, i) then UnderTo(txns, pulses, key, i) + [pulses[i]] else UnderTo(txns, pulses, key, i)
  {
    hide Key;
    if i < |txns| {
      assert txns[..i] + [txns[i]] == txns[..i + 1];
      OneMoreUnder(txns[..i], txns[i], pulses, key);
    }
  }

  lemma LabelledGrows(txns: seq<Txn>, pulses: seq<Pulse>, source: string, target: string, i: nat)
    requires LabelsMatch(pulses, txns)
    ensures LabelledTo(pulses, source, target, 0) == []
    ensures LabelledTo(pulses, source, target, i + 1)
            == if i < |pulses| && Names(txns, i, source, target) then LabelledTo(pulses, source, target, i) + [pulses[i]]
               else LabelledTo(pulses, source, target, i)
  {
    if i < |pulses| {
      assert pulses[..i + 1][..i] == pulses[..i];
    }
  }

  lemma CollisionsGrow(txns: seq<Txn>, pulses: seq<Pulse>, source: string, target: string, i: nat)
    ensures NoCollision(txns, pulses, source, target, 0)
    ensures NoCollision(txns, pulses, source, target, i + 1)
            <==> NoCollision(txns, pulses, source, target, i)
                 && (Enters(txns, pulses, Key(source, target), i) ==> Names(txns, i, source, target))
    ensures i < |pulses| && Names(txns, i, source, target) ==> Enters(txns, pulses, Key(source, target), i)
    ensures Enters(txns, pulses, Key(source, target), i) ==> i < |pulses|
  {
    hide Key;
  }

  lemma {:induction false} BucketsAgreeUpTo(txns: seq<Txn>, pulses: seq<Pulse>, source: string, target: string, n: nat)
    requires LabelsMatch(pulses, txns)
    ensures var under, labelled := UnderTo(txns, pulses, Key(source, target), n), LabelledTo(pulses, source, target, n);
            if NoCollision(txns, pulses, source, target, n) then under == labelled else |under| > |labelled|
  {
    hide UnderTo; hide LabelledTo; hide Key; hide NoCollision; hide Enters; hide Names;
    var i := if n == 0 then 0 else n - 1;
    UnderGrows(txns, pulses, Key(source, target), i);
    LabelledGrows(txns, pulses, source, target, i);
    CollisionsGrow(txns, pulses, source, target, i);
    if n > 0 {
      BucketsAgreeUpTo(txns, pulses, source, target, i);
    }
  }

  // The mode names have no dash in them, and then no two pairs share a key.
  lemma PlainNamesDoNotCollide(txns: seq<Txn>, pulses: seq<Pulse>, source: string, target: string, n: nat)
    requires PlainNames(txns) && Plain(source)
    ensures NoCollision(txns, pulses, source, target, n)
  {
    forall i | 0 <= i < n && i < |txns| && KeyOf(txns[i]) == Some(Key(source, target)) ensures Names(txns, i, source, target) {
      KeysAreFaithful(txns[i].parsed.value.source, txns[i].parsed.value.target, source, target);
    }
  }

  // The settled means of the idles labelled with a mode, in order.
  function SettledIn(idles: seq<Idle>, mode: string): seq<real> {
    if idles == [] then []
    else
      var r := idles[|idles| - 1];
      SettledIn(idles[..|idles| - 1], mode) + if r.mode == Some(mode) then [r.settled] else []
  }

  ghost predicate ModesFit(byMode: map<string, seq<real>>, idles: seq<Idle>) {
    forall mode :: if mode in byMode then byMode[mode] == SettledIn(idles, mode) != [] else SettledIn(idles, mode) == []
  }

  lemma OneMoreIdle(byMode: map<string, seq<real>>, idles: seq<Idle>, r: Idle)
    requires ModesFit(byMode, idles)
    ensures ModesFit(if r.mode.None? then byMode
                     else byMode[r.mode.value := (if r.mode.value in byMode then byMode[r.mode.value] else []) + [r.settled]],
                     idles + [r])
  {
    assert (idles + [r])[..|idles|] == idles;
    forall mode
      ensures SettledIn(idles + [r], mode) == SettledIn(idles, mode) + if r.mode == Some(mode) then [r.settled] else []
    {
    }
  }

  // summarize_modes' loop: one bucket for every mode some idle carries, and nothing else in it.
  method SummarizeModes(idles: seq<Idle>) returns (byMode: map<string, seq<real>>)
    ensures ModesFit(byMode, idles)
  {
    byMode := map[];
    assert ModesFit(byMode, idles[..0]);
    hide ModesFit;
    for i := 0 to |idles|
      invariant ModesFit(byMode, idles[..i])
    {
      OneMoreIdle(byMode, idles[..i], idles[i]);
      assert idles[..i] + [idles[i]] == idles[..i + 1];
      if idles[i].mode.None? {
        continue;
      }
      var mode := idles[i].mode.value;
      byMode := byMode[mode := (if mode in byMode then byMode[mode] else []) + [idles[i].settled]];
    }
    assert idles[..|idles|] == idles;
  }
}
