/** The HF0-divider strategy: the PLL stays at 200 MHz and each mode has its own
    CLK_HF0 divider.  Going down, the divider is raised before the supply falls and
    restored when SystemEnter* fails; going up, it is dropped last. */
module HfDivider {
  import opened Soc
  import opened PhaseLog
  import opened Wrappers

  const DPLL_HZ := 200 * MHZ

  function DividerFor(m: Mode): nat {
    match m
    case HP => 1
    case LP => 3
    case ULP => 4
  }

  // Everything one call learns from outside: the verdict of SystemEnter*, how many
  // supply levels a failed SystemEnter* had already moved, and the cycle counter at
  // the four points where it is read.
  datatype Env = Env(ok: bool, moved: nat, t0: u32, t1: u32, t2: u32, t3: u32)

  predicate Effective(m: Mode, request: int) { IsCode(request) && request != Code(m) }

  predicate Lowers(m: Mode, request: int) { Effective(m, request) && request < Code(m) }

  function Walk(volt: Mode, target: Mode, env: Env): seq<Action> {
    PartOf(Climb(volt, target), if env.ok then 2 else env.moved)
  }

  // The hardware calls made by pm_switch_to(request).
  function Plan(m: Mode, volt: Mode, request: int, env: Env): seq<Action> {
    if !Effective(m, request) then []
    else
      var target := FromCode(request);
      if Lowers(m, request) then
        [Divide(DividerFor(target))] + Walk(volt, target, env)
        + if env.ok then [Rram(target)] else [Divide(DividerFor(m))]
      else
        Walk(volt, target, env) + if env.ok then [Rram(target), Divide(DividerFor(target))] else []
  }

  function Rc(m: Mode, request: int, env: Env): int {
    if request == Code(m) then 0 else if !IsCode(request) then EINVAL else if env.ok then 0 else EIO
  }

  function NextMode(m: Mode, request: int, env: Env): Mode {
    if Effective(m, request) && env.ok then FromCode(request) else m
  }

  // Phases are logged in the order the direction runs them.
  function Logged(m: Mode, request: int, env: Env): seq<Phase> {
    var first, second, third := Delta(env.t1, env.t0), Delta(env.t2, env.t1), Delta(env.t3, env.t2);
    if !env.ok then []
    else if Lowers(m, request) then [Phase("div", first), Phase("enter", second), Phase("rram", third)]
    else [Phase("enter", first), Phase("rram", second), Phase("div", third)]
  }

  class Switcher {
    var mode: Mode
    const board: Board
    const log: Log

    ghost predicate Valid() reads this, board, log { board.Valid() && log.Valid() }

    constructor (board: Board, log: Log)
      requires board.Valid() && log.Valid()
      ensures Valid() && this.board == board && this.log == log && mode == HP
    {
      this.board, this.log, mode := board, log, HP;
    }

    // trans_hp_to_lp, trans_hp_to_ulp and trans_lp_to_ulp, which differ in dividers only.
    method Lower(source: Mode, target: Mode, env: Env) returns (rc: int)
      requires Valid() && Lowers(source, Code(target))
      modifies board, log, log.names, log.cycles
      ensures Valid() && rc == Rc(source, Code(target), env)
      ensures board.history == old(board.history) + Plan(source, old(board.volt), Code(target), env)
      ensures log.Phases() == Logged(source, Code(target), env)
    {
      hide Exec; hide Delta; hide Climb; hide PartOf; hide DividerFor;
      log.Reset(Some("down"));
      board.ClkHfSetDivider(DividerFor(target));
      board.StepVoltage(target, if env.ok then 2 else env.moved);
      if !env.ok {
        board.ClkHfSetDivider(DividerFor(source));
        return EIO;
      }
      board.RramSetVoltageMode(target);
      log.RecordThree(Phase("div", Delta(env.t1, env.t0)), Phase("enter", Delta(env.t2, env.t1)),
                      Phase("rram", Delta(env.t3, env.t2)));
      return 0;
    }

    // trans_ulp_to_lp, trans_lp_to_hp and trans_ulp_to_hp.
    method Raise(source: Mode, target: Mode, env: Env) returns (rc: int)
      requires Valid() && Effective(source, Code(target)) && !Lowers(source, Code(target))
      modifies board, log, log.names, log.cycles
      ensures Valid() && rc == Rc(source, Code(target), env)
      ensures board.history == old(board.history) + Plan(source, old(board.volt), Code(target), env)
      ensures log.Phases() == Logged(source, Code(target), env)
    {
      hide Exec; hide Delta; hide Climb; hide PartOf; hide DividerFor;
      log.Reset(Some("up"));
      board.StepVoltage(target, if env.ok then 2 else env.moved);
      if !env.ok {
        return EIO;
      }
      board.RramSetVoltageMode(target);
      board.ClkHfSetDivider(DividerFor(target));
      log.RecordThree(Phase("enter", Delta(env.t1, env.t0)), Phase("rram", Delta(env.t2, env.t1)),
                      Phase("div", Delta(env.t3, env.t2)));
      return 0;
    }

    /** pm_switch_to.  The log is touched by effective calls only. */
    method SwitchTo(request: int, env: Env) returns (rc: int)
      requires Valid()
      modifies this, board, log, log.names, log.cycles
      ensures Valid() && rc == Rc(old(mode), request, env) && mode == NextMode(old(mode), request, env)
      ensures board.history == old(board.history) + Plan(old(mode), old(board.volt), request, env)
      ensures board.Now() == Exec(old(board.Now()), Plan(old(mode), old(board.volt), request, env))
      ensures log.Phases() == if Effective(old(mode), request) then Logged(old(mode), request, env) else old(log.Phases())
    {
      ExecAppend(board.origin, board.history, Plan(mode, board.volt, request, env));
      if request == Code(mode) {
        return 0;
      }
      if !IsCode(request) {
        return EINVAL;
      }
      var target := FromCode(request);
      if request < Code(mode) {
        rc := Lower(mode, target, env);
      } else {
        rc := Raise(mode, target, env);
      }
      if rc != 0 {
        return;
      }
      mode := target;
    }
  }

  // ---- One call ------------------------------------------------------------------

  // The state every successful switch to m leaves behind.
  function Home(m: Mode): Hw { Hw(m, DPLL_HZ, DividerFor(m), m) }

  // The only dangerous outcome: a failed step down that moved the supply anyway.
  predicate StrayedDown(m: Mode, request: int, env: Env) {
    Lowers(m, request) && !env.ok && env.moved > 0
  }

  /** From a mode's home state, a call stays in spec at every step unless it strays
      down, and it ends at the home of the reported mode unless a failed step moved
      the supply. */
  lemma CallFromHome(m: Mode, request: int, env: Env)
    ensures InSpecThroughout(Home(m), Plan(m, m, request, env)) <==> !StrayedDown(m, request, env)
    ensures Exec(Home(m), Plan(m, m, request, env)) == Home(NextMode(m, request, env))
            <==> !Effective(m, request) || env.ok || env.moved == 0
  {
    if Effective(m, request) {
      var target := FromCode(request);
      var walk := Walk(m, target, env);
      if Lowers(m, request) {
        var last := if env.ok then Rram(target) else Divide(DividerFor(m));
        var slow := Home(m).(div := DividerFor(target));
        ExecAppend(Home(m), [Divide(DividerFor(target))] + walk, [last]);
        ExecAppend(Home(m), [Divide(DividerFor(target))], walk);
        ExecOne(Home(m), Divide(DividerFor(target)));
        WalkEnds(slow, target, env);
        WalkInSpec(slow, target, env);
        ExecOne(Exec(slow, walk), last);
      } else {
        WalkEnds(Home(m), target, env);
        WalkInSpec(Home(m), target, env);
        if env.ok {
          ExecAppend(Home(m), walk, [Rram(target), Divide(DividerFor(target))]);
          ExecTwo(Exec(Home(m), walk), Rram(target), Divide(DividerFor(target)));
        } else {
          assert walk + [] == walk;
        }
      }
    }
  }

  // Where the supply stands after the walk.
  function Reached(volt: Mode, target: Mode, env: Env): Mode {
    if env.ok || env.moved >= 2 || (env.moved == 1 && (volt == LP || target == LP)) then target
    else if env.moved == 1 && volt != target then LP
    else volt
  }

  lemma WalkEnds(h: Hw, target: Mode, env: Env)
    ensures Exec(h, Walk(h.volt, target, env)) == h.(volt := Reached(h.volt, target, env))
  {
    var walk := Walk(h.volt, target, env);
    if |walk| == 2 {
      ClimbArrives(h, target);
    } else if |walk| == 1 {
      ExecOne(h, walk[0]);
    }
  }

  // With the divider of the slower end of the walk selected, every level is fast enough.
  lemma WalkInSpec(h: Hw, target: Mode, env: Env)
    requires h.pathHz == DPLL_HZ
    requires h.div == DividerFor(if Code(target) < Code(h.volt) then target else h.volt)
    ensures InSpecThroughout(h, Walk(h.volt, target, env))
  {
    var walk := Walk(h.volt, target, env);
    if |walk| == 2 {
      ExecTwo(h, walk[0], walk[1]);
    } else if |walk| == 1 {
      ExecOne(h, walk[0]);
    }
  }

  // 0, -EINVAL and -EIO, each exactly when.
  lemma ReturnCodes(m: Mode, request: int, env: Env)
    ensures Rc(m, request, env) == 0 <==> request == Code(m) || (0 <= request <= 2 && env.ok)
    ensures Rc(m, request, env) == -22 <==> !(0 <= request <= 2)
    ensures Rc(m, request, env) == -5 <==> 0 <= request <= 2 && request != Code(m) && !env.ok
  {
  }

  /** Of all integer dividers, a mode's own is the smallest that keeps 200 MHz within its
      ceiling. */
  lemma DividerIsTheSmallest(m: Mode, d: nat)
    ensures 200_000_000 <= CeilingHz(m) * d <==> d >= DividerFor(m)
  {
  }

  /** So a successful switch runs the core as fast as an integer divider of 200 MHz allows:
      at 200, 66 2/3 and 50 MHz. */
  lemma SuccessRunsFastest(m: Mode, h: Hw, request: int, env: Env, d: nat)
    requires h.pathHz == DPLL_HZ && Effective(m, request) && Rc(m, request, env) == 0
    ensures var after := Exec(h, Plan(m, h.volt, request, env));
            && after.pathHz == 200_000_000
            && (InSpec(after.(div := d)) <==> d >= after.div)
            && after.div == (match FromCode(request) case HP => 1 case LP => 3 case ULP => 4)
  {
    var target := FromCode(request);
    SuccessEndsAtHome(m, h, request, env);
    DividerIsTheSmallest(target, d);
  }

  lemma SuccessEndsAtHome(m: Mode, h: Hw, request: int, env: Env)
    requires Effective(m, request) && Rc(m, request, env) == 0
    ensures var target := FromCode(request);
            Exec(h, Plan(m, h.volt, request, env)) == h.(volt := target, div := DividerFor(target), rram := target)
  {
    var target := FromCode(request);
    var walk := Walk(h.volt, target, env);
    if Lowers(m, request) {
      var slow := h.(div := DividerFor(target));
      ExecAppend(h, [Divide(DividerFor(target))] + walk, [Rram(target)]);
      ExecAppend(h, [Divide(DividerFor(target))], walk);
      ExecOne(h, Divide(DividerFor(target)));
      WalkEnds(slow, target, env);
      ExecOne(Exec(slow, walk), Rram(target));
    } else {
      WalkEnds(h, target, env);
      ExecAppend(h, walk, [Rram(target), Divide(DividerFor(target))]);
      ExecTwo(Exec(h, walk), Rram(target), Divide(DividerFor(target)));
    }
  }

  /** What a return code of 0 is worth, wherever earlier failures left the supply: it is at
      the requested level, unless the request names the mode the software believes in and the
      supply is elsewhere. */
  lemma ZeroMeansThereIff(m: Mode, h: Hw, request: int, env: Env)
    requires Rc(m, request, env) == 0
    ensures IsCode(request)
    ensures Exec(h, Plan(m, h.volt, request, env)).volt == FromCode(request) <==> !(request == Code(m) && h.volt != m)
  {
    if Effective(m, request) {
      SuccessEndsAtHome(m, h, request, env);
    }
  }

  // ---- Whole runs ----------------------------------------------------------------

  datatype Call = Call(request: int, env: Env)

  function ModeAfter(m: Mode, calls: seq<Call>): Mode
    decreases |calls|
  {
    if calls == [] then m else ModeAfter(NextMode(m, calls[0].request, calls[0].env), calls[1..])
  }

  // All hardware calls of a run that starts in mode m on hardware h.
  function RunPlan(m: Mode, h: Hw, calls: seq<Call>): seq<Action>
    decreases |calls|
  {
    if calls == [] then []
    else
      var acts := Plan(m, h.volt, calls[0].request, calls[0].env);
      acts + RunPlan(NextMode(m, calls[0].request, calls[0].env), Exec(h, acts), calls[1..])
  }

  // The documented contract of SystemEnter*: failure leaves the supply where it was.
  predicate SupplyHeld(calls: seq<Call>) {
    forall k :: 0 <= k < |calls| ==> calls[k].env.ok || calls[k].env.moved == 0
  }

  // The last target any switch reached, read off the requests alone.
  function LastTarget(boot: Mode, calls: seq<Call>): Mode
    decreases |calls|
  {
    if calls == [] then boot
    else
      var c := calls[|calls| - 1];
      if c.env.ok && IsCode(c.request) then FromCode(c.request) else LastTarget(boot, calls[..|calls| - 1])
  }

  lemma {:induction false} RunInSpec(m: Mode, calls: seq<Call>)
    requires SupplyHeld(calls)
    ensures InSpecThroughout(Home(m), RunPlan(m, Home(m), calls))
    ensures Exec(Home(m), RunPlan(m, Home(m), calls)) == Home(ModeAfter(m, calls))
    decreases |calls|
  {
    if calls != [] {
      var c := calls[0];
      var acts := Plan(m, m, c.request, c.env);
      var m' := NextMode(m, c.request, c.env);
      CallFromHome(m, c.request, c.env);
      RunInSpec(m', calls[1..]);
      ExecAppend(Home(m), acts, RunPlan(m', Home(m'), calls[1..]));
    }
  }

  lemma {:induction false} ModeAfterAppend(m: Mode, calls: seq<Call>, c: Call)
    ensures ModeAfter(m, calls + [c]) == NextMode(ModeAfter(m, calls), c.request, c.env)
    decreases |calls|
  {
    if calls == [] {
      assert (calls + [c])[1..] == [];
    } else {
      assert (calls + [c])[1..] == calls[1..] + [c];
      ModeAfterAppend(NextMode(m, calls[0].request, calls[0].env), calls[1..], c);
    }
  }

  lemma {:induction false} ModeIsLastTarget(boot: Mode, calls: seq<Call>)
    ensures ModeAfter(boot, calls) == LastTarget(boot, calls)
    decreases |calls|
  {
    if calls != [] {
      var rest, c := calls[..|calls| - 1], calls[|calls| - 1];
      assert calls == rest + [c];
      ModeAfterAppend(boot, rest, c);
      ModeIsLastTarget(boot, rest);
    }
  }

  /** Path independence: divider, supply, RRAM mode and s_current_mode all follow from
      the last target reached, however it was reached and whatever failed on the way. */
  lemma FinalStateIsLastTarget(calls: seq<Call>)
    requires SupplyHeld(calls)
    ensures InSpecThroughout(Home(HP), RunPlan(HP, Home(HP), calls))
    ensures Exec(Home(HP), RunPlan(HP, Home(HP), calls)) == Home(LastTarget(HP, calls))
    ensures ModeAfter(HP, calls) == LastTarget(HP, calls)
  {
    RunInSpec(HP, calls);
    ModeIsLastTarget(HP, calls);
  }

  // ---- Whole runs, whatever SystemEnter* does ------------------------------------

  // In spec with the divider of the mode; a failed step may have left the supply higher.
  predicate Sound(m: Mode, h: Hw) { h.pathHz == DPLL_HZ && h.div == DividerFor(m) && InSpec(h) }

  // A failed step down that took the supply below the mode whose divider it restores.
  predicate Undercuts(m: Mode, volt: Mode, request: int, env: Env) {
    Lowers(m, request) && !env.ok && Code(Reached(volt, FromCode(request), env)) < Code(m)
  }

  lemma SoundIff(m: Mode, h: Hw)
    requires h.pathHz == DPLL_HZ && h.div == DividerFor(m)
    ensures InSpec(h) <==> Code(h.volt) >= Code(m)
  {
  }

  // A walk between levels that the divider allows stays in spec.
  lemma AnyWalkInSpec(m: Mode, h: Hw, target: Mode, env: Env)
    requires Sound(m, h) && Code(target) >= Code(m)
    ensures InSpecThroughout(h, Walk(h.volt, target, env)) && Sound(m, Exec(h, Walk(h.volt, target, env)))
  {
    SoundIff(m, h);
    WalkEnds(h, target, env);
    SoundIff(m, h.(volt := Reached(h.volt, target, env)));
    SoundIff(m, h.(volt := LP));
    SoundIff(m, h.(volt := target));
    var walk := Walk(h.volt, target, env);
    if |walk| == 2 {
      ExecTwo(h, walk[0], walk[1]);
    } else if |walk| == 1 {
      ExecOne(h, walk[0]);
    }
  }

  /** From a sound state a call leaves the envelope at some step if and only if it
      undercuts; otherwise it ends sound as well. */
  lemma CallInSpecIff(m: Mode, h: Hw, request: int, env: Env)
    requires Sound(m, h)
    ensures InSpecThroughout(h, Plan(m, h.volt, request, env)) <==> !Undercuts(m, h.volt, request, env)
    ensures !Undercuts(m, h.volt, request, env) ==>
              Sound(NextMode(m, request, env), Exec(h, Plan(m, h.volt, request, env)))
  {
    if Effective(m, request) {
      if Lowers(m, request) {
        DownInSpecIff(m, h, FromCode(request), env);
      } else {
        UpInSpec(m, h, FromCode(request), env);
      }
    }
  }

  lemma DownInSpecIff(m: Mode, h: Hw, target: Mode, env: Env)
    requires Sound(m, h) && Lowers(m, Code(target))
    ensures InSpecThroughout(h, Plan(m, h.volt, Code(target), env)) <==> !Undercuts(m, h.volt, Code(target), env)
    ensures !Undercuts(m, h.volt, Code(target), env) ==>
              Sound(if env.ok then target else m, Exec(h, Plan(m, h.volt, Code(target), env)))
  {
    var walk := Walk(h.volt, target, env);
    var last := if env.ok then Rram(target) else Divide(DividerFor(m));
    var slow := h.(div := DividerFor(target));
    SoundIff(m, h);
    SoundIff(target, slow);
    AnyWalkInSpec(target, slow, target, env);
    WalkEnds(slow, target, env);
    hide Exec;
    hide InSpecThroughout;
    hide Walk;
    ExecOne(h, Divide(DividerFor(target)));
    ExecAppend(h, [Divide(DividerFor(target))] + walk, [last]);
    ExecAppend(h, [Divide(DividerFor(target))], walk);
    ExecOne(Exec(slow, walk), last);
    SoundIff(m, h.(volt := Reached(h.volt, target, env)));
  }

  lemma UpInSpec(m: Mode, h: Hw, target: Mode, env: Env)
    requires Sound(m, h) && Code(m) < Code(target)
    ensures InSpecThroughout(h, Plan(m, h.volt, Code(target), env))
    ensures Sound(if env.ok then target else m, Exec(h, Plan(m, h.volt, Code(target), env)))
  {
    var walk := Walk(h.volt, target, env);
    AnyWalkInSpec(m, h, target, env);
    WalkEnds(h, target, env);
    hide Exec;
    hide InSpecThroughout;
    hide Walk;
    if env.ok {
      ExecAppend(h, walk, [Rram(target), Divide(DividerFor(target))]);
      ExecTwo(Exec(h, walk), Rram(target), Divide(DividerFor(target)));
      SoundIff(target, Exec(h, walk).(rram := target, div := DividerFor(target)));
    } else {
      assert walk + [] == walk;
    }
  }

  predicate NeverUndercuts(m: Mode, h: Hw, calls: seq<Call>)
    decreases |calls|
  {
    calls == []
    || (!Undercuts(m, h.volt, calls[0].request, calls[0].env)
        && NeverUndercuts(NextMode(m, calls[0].request, calls[0].env),
                          Exec(h, Plan(m, h.volt, calls[0].request, calls[0].env)), calls[1..]))
  }

  /** Every hardware step of every run is in spec exactly when no call of the run
      undercuts. */
  lemma {:induction false} RunInSpecIff(m: Mode, h: Hw, calls: seq<Call>)
    requires Sound(m, h)
    ensures InSpecThroughout(h, RunPlan(m, h, calls)) <==> NeverUndercuts(m, h, calls)
    decreases |calls|
  {
    if calls != [] {
      var c := calls[0];
      hide Plan;
      var acts, m' := Plan(m, h.volt, c.request, c.env), NextMode(m, c.request, c.env);
      CallInSpecIff(m, h, c.request, c.env);
      ExecAppend(h, acts, RunPlan(m', Exec(h, acts), calls[1..]));
      if !Undercuts(m, h.volt, c.request, c.env) {
        RunInSpecIff(m', Exec(h, acts), calls[1..]);
      }
    }
  }

  // ---- Phase log -----------------------------------------------------------------

  /** What each phase of a successful switch measures, for all 32-bit counter values: the time
      between the readings before and after the step it is named after, in the order of the
      direction. */
  lemma PhasesAreTheSteps(m: Mode, request: int, env: Env)
    requires Effective(m, request) && env.ok
    ensures var p, down := Logged(m, request, env), request < Code(m);
            && |p| == 3
            && CyclesOf(p, "div") == (if down then env.t1 - env.t0 else env.t3 - env.t2) % 0x1_0000_0000
            && CyclesOf(p, "enter") == (if down then env.t2 - env.t1 else env.t1 - env.t0) % 0x1_0000_0000
            && CyclesOf(p, "rram") == (if down then env.t3 - env.t2 else env.t2 - env.t1) % 0x1_0000_0000
  {
    var p := Logged(m, request, env);
    CyclesOfThree(p[0], p[1], p[2]);
    assert p == [p[0], p[1], p[2]];
  }

  lemma LoggedPhasesCoverTheWindow(m: Mode, request: int, env: Env)
    requires Effective(m, request)
    ensures env.ok ==> Total(Logged(m, request, env)) == Delta(env.t3, env.t0)
    ensures Logged(m, request, env) == [] <==> Rc(m, request, env) != 0
    ensures |Logged(m, request, env)| < MAX_PHASES
  {
    Telescopes("div", "enter", "rram", env.t0, env.t1, env.t2, env.t3);
    Telescopes("enter", "rram", "div", env.t0, env.t1, env.t2, env.t3);
  }
}
