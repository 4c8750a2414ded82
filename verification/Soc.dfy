/** The part of the PSE84 that a mode switch can damage: the core supply, the clock
    path behind CLK_HF0, its divider and the RRAM voltage mode.  Every primitive
    hardware call is an `Action`; a strategy is judged on the list of actions it
    issues, prefix by prefix. */
module Soc {

  // Ordered by performance, with the encodings of pm_mode_t.
  datatype Mode = ULP | LP | HP

  function Code(m: Mode): int {
    match m
    case ULP => 0
    case LP => 1
    case HP => 2
  }

  predicate IsCode(c: int) { 0 <= c <= 2 }

  function FromCode(c: int): (m: Mode)
    requires IsCode(c)
    ensures Code(m) == c
  {
    if c == 0 then ULP else if c == 1 then LP else HP
  }

  // The encodings of the enumeration, in the order of the supply.
  lemma Encodings(m: Mode)
    ensures Code(ULP) == 0 && Code(LP) == 1 && Code(HP) == 2 && IsCode(Code(m)) && FromCode(Code(m)) == m
  {
  }

  const EIO := -5
  const EINVAL := -22

  const MHZ := 1_000_000
  const IHO_HZ: nat := 50 * MHZ

  // While a PLL is bypassed the path carries some clock no faster than the IHO.
  type BypassHz = hz: nat | hz <= IHO_HZ witness 0

  // CM33 ceiling of each supply level.
  function CeilingHz(m: Mode): nat {
    match m
    case ULP => 50 * MHZ
    case LP => 80 * MHZ
    case HP => 200 * MHZ
  }

  datatype Hw = Hw(volt: Mode, pathHz: nat, div: nat, rram: Mode)

  // pathHz / div <= ceiling, without rounding.
  predicate InSpec(h: Hw) { h.pathHz <= CeilingHz(h.volt) * h.div }

  datatype Action = Path(hz: nat) | Divide(ratio: nat) | Volt(level: Mode) | Rram(level: Mode)

  function Apply(h: Hw, a: Action): Hw {
    match a
    case Path(hz) => h.(pathHz := hz)
    case Divide(ratio) => h.(div := ratio)
    case Volt(level) => h.(volt := level)
    case Rram(level) => h.(rram := level)
  }

  function Exec(h: Hw, acts: seq<Action>): Hw
    decreases |acts|
  {
    if acts == [] then h else Exec(Apply(h, acts[0]), acts[1..])
  }

  // In spec before the first action and after each one.
  predicate InSpecThroughout(h: Hw, acts: seq<Action>)
    decreases |acts|
  {
    InSpec(h) && (acts == [] || InSpecThroughout(Apply(h, acts[0]), acts[1..]))
  }

  lemma {:induction false} ExecAppend(h: Hw, a: seq<Action>, b: seq<Action>)
    ensures Exec(h, a + b) == Exec(Exec(h, a), b)
    ensures InSpecThroughout(h, a + b) <==> InSpecThroughout(h, a) && InSpecThroughout(Exec(h, a), b)
    decreases |a|
  {
    if a == [] {
      assert a + b == b;
    } else {
      assert (a + b)[1..] == a[1..] + b;
      ExecAppend(Apply(h, a[0]), a[1..], b);
    }
  }

  lemma ExecOne(h: Hw, a: Action)
    ensures Exec(h, [a]) == Apply(h, a)
    ensures InSpecThroughout(h, [a]) <==> InSpec(h) && InSpec(Apply(h, a))
  {
    assert [a][1..] == [];
  }

  lemma ExecTwo(h: Hw, a: Action, b: Action)
    ensures Exec(h, [a, b]) == Apply(Apply(h, a), b)
    ensures InSpecThroughout(h, [a, b]) <==> InSpec(h) && InSpec(Apply(h, a)) && InSpec(Apply(Apply(h, a), b))
  {
    assert [a, b][1..] == [b];
    ExecOne(Apply(h, a), b);
  }

  lemma {:induction false} ThroughoutMeansEveryPrefix(h: Hw, acts: seq<Action>)
    ensures InSpecThroughout(h, acts) <==> forall k :: 0 <= k <= |acts| ==> InSpec(Exec(h, acts[..k]))
    decreases |acts|
  {
    if acts == [] {
      assert acts[..0] == acts;
      assert InSpec(Exec(h, acts[..0])) == InSpec(h);
    } else {
      var h' := Apply(h, acts[0]);
      ThroughoutMeansEveryPrefix(h', acts[1..]);
      forall k | 0 < k <= |acts|
        ensures Exec(h, acts[..k]) == Exec(h', acts[1..][..k - 1])
      {
        assert acts[..k][1..] == acts[1..][..k - 1];
      }
      assert Exec(h, acts[..0]) == h;
      if forall k :: 0 <= k <= |acts| ==> InSpec(Exec(h, acts[..k])) {
        forall j | 0 <= j <= |acts[1..]| ensures InSpec(Exec(h', acts[1..][..j])) {
          assert InSpec(Exec(h, acts[..j + 1]));
        }
      }
    }
  }

  // SystemEnter* walks the supply one level at a time.
  function Climb(from: Mode, to: Mode): (path: seq<Action>)
    ensures |path| <= 2
  {
    match (from, to)
    case (ULP, HP) => [Volt(LP), Volt(HP)]
    case (HP, ULP) => [Volt(LP), Volt(ULP)]
    case _ => if from == to then [] else [Volt(to)]
  }

  // The part of the walk done by a step that stops after `moved` levels.
  function PartOf(path: seq<Action>, moved: nat): seq<Action> {
    if moved < |path| then path[..moved] else path
  }

  lemma ClimbArrives(h: Hw, to: Mode)
    ensures Exec(h, Climb(h.volt, to)) == h.(volt := to)
  {
    var path := Climb(h.volt, to);
    if |path| == 2 {
      ExecTwo(h, path[0], path[1]);
    } else if |path| == 1 {
      ExecOne(h, path[0]);
    }
  }

  /** The hardware itself.  `history` lists the actions since `origin`. */
  class Board {
    var volt: Mode
    var pathHz: nat
    var div: nat
    var rram: Mode
    ghost const origin: Hw
    ghost var history: seq<Action>

    function Now(): Hw reads this { Hw(volt, pathHz, div, rram) }

    ghost predicate Valid() reads this { Now() == Exec(origin, history) }

    constructor (h: Hw)
      ensures Valid() && Now() == h && origin == h && history == []
    {
      volt, pathHz, div, rram := h.volt, h.pathHz, h.div, h.rram;
      origin, history := h, [];
    }

    method SetPath(hz: nat)
      requires Valid()
      modifies this
      ensures Valid() && history == old(history) + [Path(hz)]
      ensures Now() == old(Now()).(pathHz := hz)
    {
      pathHz := hz;
      history := history + [Path(hz)];
      ExecAppend(origin, old(history), [Path(hz)]);
    }

    method ClkHfSetDivider(ratio: nat)
      requires Valid()
      modifies this
      ensures Valid() && history == old(history) + [Divide(ratio)]
      ensures Now() == old(Now()).(div := ratio)
    {
      div := ratio;
      history := history + [Divide(ratio)];
      ExecAppend(origin, old(history), [Divide(ratio)]);
    }

    method RramSetVoltageMode(level: Mode)
      requires Valid()
      modifies this
      ensures Valid() && history == old(history) + [Rram(level)]
      ensures Now() == old(Now()).(rram := level)
    {
      rram := level;
      history := history + [Rram(level)];
      ExecAppend(origin, old(history), [Rram(level)]);
    }

    // The supply walk inside SystemEnter*, possibly cut short.
    method StepVoltage(to: Mode, moved: nat)
      requires Valid()
      modifies this
      ensures Valid() && history == old(history) + PartOf(Climb(old(volt), to), moved)
      ensures Now() == old(Now()).(volt := volt)
      ensures moved >= |Climb(old(volt), to)| ==> volt == to
      ensures moved == 0 ==> volt == old(volt)
    {
      ghost var steps := PartOf(Climb(volt, to), moved);
      if moved > 0 && volt != to {
        var first := if volt != LP && to != LP && moved == 1 then LP else to;
        volt := first;
      }
      history := history + steps;
      ExecAppend(origin, old(history), steps);
      if moved >= |Climb(old(volt), to)| {
        ClimbArrives(old(Now()), to);
      } else if moved == 1 {
        assert steps == [Volt(LP)];
      }
    }
  }
}
