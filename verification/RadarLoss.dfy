/** The receiver's loss counter: gaps between 32-bit sequence numbers, against the frames
    that were really not delivered. */
module RadarLoss {

  const TWO32: int := 0x1_0000_0000
  type Seq32 = n: int | 0 <= n < 0x1_0000_0000

  // The gap between two consecutive arrivals, masked to 32 bits.
  function Gap(last: Seq32, next: Seq32): nat { (next - last - 1) % TWO32 }

  function Lost(seqs: seq<Seq32>): nat {
    if |seqs| < 2 then 0
    else Lost(seqs[..|seqs| - 1]) + Gap(seqs[|seqs| - 2], seqs[|seqs| - 1])
  }

  lemma LostOneMore(seqs: seq<Seq32>, next: Seq32)
    ensures seqs == [] ==> Lost(seqs) == 0
    ensures Lost(seqs + [next]) == if seqs == [] then 0 else Lost(seqs) + Gap(seqs[|seqs| - 1], next)
  {
    assert (seqs + [next])[..|seqs|] == seqs;
  }

  predicate Congruent(a: int, b: int) { (a - b) % TWO32 == 0 }

  // Whatever arrives, and in whatever order, the counter is right modulo 2^32.
  lemma {:induction false} LostIsCongruent(seqs: seq<Seq32>)
    requires |seqs| > 0
    ensures Congruent(Lost(seqs), seqs[|seqs| - 1] - seqs[0] - (|seqs| - 1))
  {
    if |seqs| > 1 {
      var rest := seqs[..|seqs| - 1];
      LostIsCongruent(rest);
      var a: int, b: int := rest[|rest| - 1] as int - rest[0] - (|rest| - 1), seqs[|seqs| - 1] as int - seqs[|seqs| - 2] - 1;
      ModAdds(Lost(rest) - a, Gap(seqs[|seqs| - 2], seqs[|seqs| - 1]) - b);
      assert b % TWO32 == Gap(seqs[|seqs| - 2], seqs[|seqs| - 1]);
    }
  }

  lemma ModAdds(a: int, b: int)
    requires a % TWO32 == 0 && b % TWO32 == 0
    ensures (a + b) % TWO32 == 0
  {
    assert a + b == TWO32 * (a / TWO32 + b / TWO32);
  }

  // ---- Frames by their true, unbounded index -------------------------------------------

  function Wrap(idx: seq<nat>): (s: seq<Seq32>)
    ensures |s| == |idx| && forall k :: 0 <= k < |idx| ==> s[k] == idx[k] % TWO32
  {
    seq(|idx|, k requires 0 <= k < |idx| => idx[k] % TWO32)
  }

  predicate Increasing(idx: seq<nat>) { forall j, k :: 0 <= j < k < |idx| ==> idx[j] < idx[k] }

  ghost predicate InOrder(idx: seq<nat>) { forall j, k :: 0 <= j < k < |idx| && k == j + 1 ==> idx[j] < idx[k] }

  ghost predicate NoWideGap(idx: seq<nat>) { forall j, k :: 0 <= j < k < |idx| && k == j + 1 ==> idx[k] - idx[j] <= TWO32 }

  // The frames strictly between the first and the last arrival that are not arrivals, when
  // arrivals come in order.
  function Span(idx: seq<nat>): int
    requires |idx| > 0
  {
    idx[|idx| - 1] - idx[0] - (|idx| - 1)
  }

  lemma GapOfWrapped(a: nat, b: nat)
    ensures Gap(a % TWO32, b % TWO32) == (b - a - 1) % TWO32
    ensures 0 < b - a <= TWO32 ==> Gap(a % TWO32, b % TWO32) == b - a - 1
    ensures b - a > TWO32 ==> Gap(a % TWO32, b % TWO32) < b - a - 1
    ensures -TWO32 < b - a <= 0 ==> Gap(a % TWO32, b % TWO32) > b - a - 1
  {
    var x := b - a - 1;
    assert x == b % TWO32 - a % TWO32 - 1 + TWO32 * (b / TWO32 - a / TWO32);
  }

  lemma WrapOfPrefix(idx: seq<nat>)
    requires |idx| > 0
    ensures Wrap(idx)[..|idx| - 1] == Wrap(idx[..|idx| - 1])
  {
  }

  // In-order arrivals: the counter never overstates, and it is exact unless 2^32 or more
  // frames in a row were missed.
  lemma {:induction false} LostInOrderIff(idx: seq<nat>)
    requires |idx| > 0 && InOrder(idx)
    ensures Lost(Wrap(idx)) <= Span(idx)
    ensures Lost(Wrap(idx)) == Span(idx) <==> NoWideGap(idx)
  {
    if |idx| > 1 {
      var rest, a, b := idx[..|idx| - 1], idx[|idx| - 2], idx[|idx| - 1];
      LostInOrderIff(rest);
      WrapOfPrefix(idx);
      GapOfWrapped(a, b);
      NoWideGapGrows(idx);
    }
  }

  lemma NoWideGapGrows(idx: seq<nat>)
    requires |idx| > 1
    ensures NoWideGap(idx) <==> NoWideGap(idx[..|idx| - 1]) && idx[|idx| - 1] - idx[|idx| - 2] <= TWO32
    ensures InOrder(idx) <==> InOrder(idx[..|idx| - 1]) && idx[|idx| - 2] < idx[|idx| - 1]
  {
    var rest := idx[..|idx| - 1];
    assert forall k :: 0 <= k < |rest| ==> rest[k] == idx[k];
  }

  // Fewer than 2^32 frames in play, any order, duplicates allowed: the counter never
  // understates, and it is exact only if every arrival is later than the one before.
  lemma {:induction false} LostAnyOrderIff(idx: seq<nat>)
    requires |idx| > 0
    requires forall j, k :: 0 <= j < k < |idx| && k == j + 1 ==> -TWO32 < idx[k] - idx[j] <= TWO32
    ensures Lost(Wrap(idx)) >= Span(idx)
    ensures Lost(Wrap(idx)) == Span(idx) <==> InOrder(idx)
  {
    if |idx| > 1 {
      var rest, a, b := idx[..|idx| - 1], idx[|idx| - 2], idx[|idx| - 1];
      LostAnyOrderIff(rest);
      WrapOfPrefix(idx);
      GapOfWrapped(a, b);
      NoWideGapGrows(idx);
    }
  }

  // ---- The frames behind the number ----------------------------------------------------

  // Frames from lo up to hi that the sender dropped: sent[i] says that the socket took frame i.
  function Dropped(sent: seq<bool>, lo: nat, hi: nat): nat
    requires lo <= hi <= |sent|
  {
    if hi == lo then 0 else Dropped(sent, lo, hi - 1) + if sent[hi - 1] then 0 else 1
  }

  // Frames from lo up to hi that left and are not among the arrivals.
  function LostOnTheWay(sent: seq<bool>, idx: seq<nat>, lo: nat, hi: nat): nat
    requires lo <= hi <= |sent|
  {
    if hi == lo then 0
    else LostOnTheWay(sent, idx, lo, hi - 1) + if sent[hi - 1] && hi - 1 !in idx then 1 else 0
  }

  predicate Delivers(sent: seq<bool>, idx: seq<nat>) {
    Increasing(idx) && forall k :: 0 <= k < |idx| ==> idx[k] < |sent| && sent[idx[k]]
  }

  lemma BetweenArrivals(idx: seq<nat>, k: nat, i: nat)
    requires Increasing(idx) && k < |idx| && idx[k] < i && (k + 1 < |idx| ==> i < idx[k + 1])
    ensures i !in idx
  {
    forall j | 0 <= j < |idx| ensures idx[j] != i {
      assert j < k ==> idx[j] < idx[k];
      assert k + 1 < j ==> idx[k + 1] < idx[j];
    }
  }

  // Up to a point between the k-th arrival and the next.
  lemma {:induction false} Tally(sent: seq<bool>, idx: seq<nat>, k: nat, hi: nat)
    requires Delivers(sent, idx) && k < |idx|
    requires idx[k] < hi <= |sent| && (k + 1 < |idx| ==> hi <= idx[k + 1])
    ensures idx[0] <= idx[k]
    ensures Dropped(sent, idx[0], hi) + LostOnTheWay(sent, idx, idx[0], hi) == hi - idx[0] - (k + 1)
  {
    var i := hi - 1;
    assert idx[0] <= idx[k];
    if i == idx[k] {
      assert i in idx;
      if k > 0 {
        Tally(sent, idx, k - 1, i);
      }
    } else {
      BetweenArrivals(idx, k, i);
      Tally(sent, idx, k, i);
    }
  }

  lemma DeliveriesAreTight(sent: seq<bool>, idx: seq<nat>)
    requires Delivers(sent, idx) && |idx| > 0 && |sent| <= TWO32
    ensures InOrder(idx) && NoWideGap(idx) && idx[0] <= idx[|idx| - 1] < |sent|
  {
  }

  // Over a channel that keeps order and does not duplicate, with no more than 2^32 frames,
  // the counter is the number of frames between the first and the last delivery that the
  // sender dropped or that were lost on the way.
  lemma LossIsExact(sent: seq<bool>, idx: seq<nat>)
    requires Delivers(sent, idx) && |idx| > 0 && |sent| <= TWO32
    ensures idx[0] <= idx[|idx| - 1] < |sent|
    ensures Lost(Wrap(idx)) == Dropped(sent, idx[0], idx[|idx| - 1] + 1) + LostOnTheWay(sent, idx, idx[0], idx[|idx| - 1] + 1)
  {
    hide Lost; hide Dropped; hide LostOnTheWay; hide InOrder; hide NoWideGap; hide Increasing; hide Delivers; hide Wrap;
    DeliveriesAreTight(sent, idx);
    LostInOrderIff(idx);
    Tally(sent, idx, |idx| - 1, idx[|idx| - 1] + 1);
  }
}
