/** The per-transition cycle log: two fixed arrays of eight slots and a count. */
module PhaseLog {
  import opened Wrappers

  const WORD: int := 0x1_0000_0000
  type u32 = x: int | 0 <= x < 0x1_0000_0000

  const MAX_PHASES := 8

  datatype Phase = Phase(name: string, cycles: u32)

  // Subtraction of two k_cycle_get_32() readings.
  function Delta(later: u32, earlier: u32): u32 { (later - earlier) % WORD }

  // The 32-bit sum of the recorded phases, oldest first.
  function Total(phases: seq<Phase>): u32 {
    if phases == [] then 0
    else (Total(phases[..|phases| - 1]) + phases[|phases| - 1].cycles) % WORD
  }

  lemma DeltasAdd(x: u32, y: u32, z: u32)
    ensures (Delta(y, x) + Delta(z, y)) % WORD == Delta(z, x)
  {
    DeltaByCases(y, x);
    DeltaByCases(z, y);
    DeltaByCases(z, x);
    var sum := Delta(y, x) + Delta(z, y);
    assert sum % WORD == if sum < WORD then sum else sum - WORD;
  }

  lemma DeltaByCases(later: u32, earlier: u32)
    ensures Delta(later, earlier) == if later >= earlier then later - earlier else later - earlier + WORD
  {
  }

  // Three consecutive phases add up to the window, whatever wrapped in between.
  lemma Telescopes(a: string, b: string, c: string, t0: u32, t1: u32, t2: u32, t3: u32)
    ensures Total([Phase(a, Delta(t1, t0)), Phase(b, Delta(t2, t1)), Phase(c, Delta(t3, t2))]) == Delta(t3, t0)
  {
    var x, y, z := Delta(t1, t0), Delta(t2, t1), Delta(t3, t2);
    TotalOfThree(Phase(a, x), Phase(b, y), Phase(c, z));
    DeltasAdd(t0, t1, t2);
    DeltasAdd(t0, t2, t3);
  }

  lemma TotalOfThree(p: Phase, q: Phase, r: Phase)
    ensures Total([p, q, r]) == ((p.cycles + q.cycles) % WORD + r.cycles) % WORD
  {
    assert [p, q, r][..2] == [p, q] && [p, q][..1] == [p] && [p][..0] == [];
    assert Total([p]) == p.cycles;
    assert Total([p, q]) == (p.cycles + q.cycles) % WORD;
  }

  // The cycles recorded under a name.
  function CyclesOf(phases: seq<Phase>, name: string): nat {
    if phases == [] then 0
    else
      var last := phases[|phases| - 1];
      CyclesOf(phases[..|phases| - 1], name) + if last.name == name then last.cycles else 0
  }

  lemma CyclesOfThree(p: Phase, q: Phase, r: Phase)
    requires p.name != q.name && p.name != r.name && q.name != r.name
    ensures CyclesOf([p, q, r], p.name) == p.cycles
    ensures CyclesOf([p, q, r], q.name) == q.cycles
    ensures CyclesOf([p, q, r], r.name) == r.cycles
  {
    ThreeCycles(p, q, r, p.name);
    ThreeCycles(p, q, r, q.name);
    ThreeCycles(p, q, r, r.name);
  }

  lemma ThreeCycles(p: Phase, q: Phase, r: Phase, name: string)
    ensures CyclesOf([p, q, r], name)
            == (if p.name == name then p.cycles else 0) + (if q.name == name then q.cycles else 0)
               + if r.name == name then r.cycles else 0
  {
    assert [p, q, r][..2] == [p, q] && [p, q][..1] == [p] && [p][..0] == [];
    assert CyclesOf([p], name) == if p.name == name then p.cycles else 0;
    assert CyclesOf([p, q], name) == CyclesOf([p], name) + if q.name == name then q.cycles else 0;
  }

  class Log {
    const names: array<string>
    const cycles: array<u32>
    var count: nat
    var tag: string

    ghost predicate Valid() reads this {
      names.Length == cycles.Length == MAX_PHASES && count <= MAX_PHASES
    }

    function Phases(): seq<Phase>
      requires Valid()
      reads this, names, cycles
    {
      seq(count, i requires Valid() && 0 <= i < count reads this, names, cycles => Phase(names[i], cycles[i]))
    }

    constructor ()
      ensures Valid() && Phases() == [] && fresh(names) && fresh(cycles)
    {
      names := new string[MAX_PHASES](_ => "");
      cycles := new u32[MAX_PHASES](_ => 0);
      count, tag := 0, "";
    }

    // A missing label is the empty one.
    method Reset(title: Option<string>)
      requires Valid()
      modifies this
      ensures Valid() && Phases() == [] && tag == title.GetOr("")
    {
      tag := if title.Some? then title.value else "";
      count := 0;
    }

    // A missing name is recorded as "?", and a ninth phase would be dropped.
    method Record(name: Option<string>, delta: u32)
      requires Valid()
      modifies this, names, cycles
      ensures Valid() && tag == old(tag)
      ensures Phases() == old(Phases()) + if |old(Phases())| < 8 then [Phase(name.GetOr("?"), delta)] else []
    {
      if count < MAX_PHASES {
        names[count] := if name.Some? then name.value else "?";
        cycles[count] := delta;
        count := count + 1;
      }
    }

    // The three pm_phase_log_record calls that close a successful transition.
    method RecordThree(p: Phase, q: Phase, r: Phase)
      requires Valid() && count == 0
      modifies this, names, cycles
      ensures Valid() && tag == old(tag) && Phases() == [p, q, r]
    {
      Record(Some(p.name), p.cycles);
      Record(Some(q.name), q.cycles);
      Record(Some(r.name), r.cycles);
    }

    method TotalCycles() returns (total: u32)
      requires Valid()
      ensures total == Total(Phases())
    {
      total := 0;
      for i := 0 to count
        invariant total == Total(Phases()[..i])
      {
        assert Phases()[..i + 1][..i] == Phases()[..i];
        total := (total + cycles[i]) % WORD;
      }
      assert Phases()[..count] == Phases();
    }
  }
}
