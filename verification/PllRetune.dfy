/** The PLL-retune strategy: SysPm callbacks take DPLL_LP0 to an intermediate before
    the supply moves and to the mode's own frequency afterwards, while the console is
    clocked from the same PLL. */
module PllRetune {
  import opened Soc
  import opened PhaseLog
  import opened Console
  import opened Wrappers

  const ENABLE_NOT_REACHED: u32 := 0xFFFF_FFFF

  type Failure = st: u32 | st != 0 witness 1

  // The outcome of one PllConfigure / PllEnable pair.  The PLL output is automatic, so
  // a PLL that misses the lock timeout may still settle and take over the path.
  datatype Relock = ConfigureFails(st: Failure) | EnableFails(st: Failure, settles: bool) | Locks {
    predicate Settles() { Locks? || (EnableFails? && settles) }
  }

  // s_last_pll_*
  datatype Latch = Latch(targetHz: nat, configureSt: u32, enableSt: u32)

  function LatchFor(hz: nat, r: Relock): Latch {
    match r
    case ConfigureFails(st) => Latch(hz, st, ENABLE_NOT_REACHED)
    case EnableFails(st, _) => Latch(hz, 0, st)
    case Locks => Latch(hz, 0, 0)
  }

  /** What the outside decides during one call.  SystemEnter* may refuse at CHECK_READY,
      may abandon the transition when the BEFORE callback reports failure, may stop the
      supply short of the target, may give up when the supply is there but before the AFTER
      callback, and has the last word on the status it returns.  report is what printk
      writes before the closing marker, probe what it writes after it. */
  datatype Env = Env(
    ready: bool,
    pre: Relock, preBypass: BypassHz, abandons: bool,
    moved: nat, finishes: bool,
    post: Relock, postBypass: BypassHz, verdict: bool,
    uartReady: bool, report: string, probe: string,
    t0: u32, beforeEnd: u32, afterStart: u32, t3: u32)

  function IntermediateHz(target: Mode, volt: Mode): nat {
    match target
    case HP => 75 * MHZ
    case LP => if volt == ULP then 41 * MHZ else 75 * MHZ
    case ULP => 41 * MHZ
  }

  function FinalHz(target: Mode): nat {
    match target
    case HP => 200 * MHZ
    case LP => 80 * MHZ
    case ULP => 50 * MHZ
  }

  function Retune(hz: nat, bypass: BypassHz, r: Relock): seq<Action> {
    [Path(bypass)] + if r.Settles() then [Path(hz)] else []
  }

  predicate Effective(m: Mode, request: int) { IsCode(request) && request != Code(m) }

  // BEFORE ran and the PDL went on to the supply.
  predicate Proceeds(env: Env) { env.ready && (env.pre.Locks? || !env.abandons) }

  // The supply reaches the target and AFTER runs.
  predicate Finishes(volt: Mode, target: Mode, env: Env) { env.moved >= |Climb(volt, target)| && env.finishes }

  predicate Completes(volt: Mode, target: Mode, env: Env) { Proceeds(env) && Finishes(volt, target, env) }

  predicate Succeeds(volt: Mode, target: Mode, env: Env) { Completes(volt, target, env) && env.verdict }

  // The supply walk, then AFTER if it comes to that.
  function StepPlan(volt: Mode, target: Mode, env: Env): seq<Action> {
    if !Finishes(volt, target, env) then PartOf(Climb(volt, target), env.moved)
    else Climb(volt, target) + ([Rram(target)] + Retune(FinalHz(target), env.postBypass, env.post))
  }

  function EnterPlan(volt: Mode, target: Mode, env: Env): seq<Action> {
    if !env.ready then []
    else
      var before := Retune(IntermediateHz(target, volt), env.preBypass, env.pre);
      if !Proceeds(env) then before else before + StepPlan(volt, target, env)
  }

  function Plan(m: Mode, volt: Mode, request: int, env: Env): seq<Action> {
    if Effective(m, request) then EnterPlan(volt, FromCode(request), env) else []
  }

  function LatchAfter(l: Latch, volt: Mode, target: Mode, env: Env): Latch {
    if !env.ready then l
    else if Completes(volt, target, env) then LatchFor(FinalHz(target), env.post)
    else LatchFor(IntermediateHz(target, volt), env.pre)
  }

  function Rc(m: Mode, volt: Mode, request: int, env: Env): int {
    if request == Code(m) then 0
    else if !IsCode(request) then EINVAL
    else if Succeeds(volt, FromCode(request), env) then 0 else EIO
  }

  function NextMode(m: Mode, volt: Mode, request: int, env: Env): Mode {
    if Effective(m, request) && Succeeds(volt, FromCode(request), env) then FromCode(request) else m
  }

  // The boundary a callback recorded, or the edge of the window if it recorded 0.
  function Boundary(recorded: u32, edge: u32): u32 { if recorded == 0 then edge else recorded }

  function Logged(ok: bool, env: Env): seq<Phase> {
    var b, a := Boundary(env.beforeEnd, env.t0), Boundary(env.afterStart, env.t3);
    if ok then [Phase("pll_pre", Delta(b, env.t0)), Phase("volt", Delta(a, b)), Phase("pll_post", Delta(env.t3, a))]
    else []
  }

  function EnterMarker(target: Mode): string {
    match target
    case HP => "<T:switch:EnterHp>\n"
    case LP => "<T:switch:EnterLp>\n"
    case ULP => "<T:switch:EnterUlp>\n"
  }

  function Verdict(ok: bool): string { if ok then "<T:switch:complete>\n" else "<T:switch:FAIL>\n" }

  // The opening marker, and what the transition does to the baud divider.
  function Entered(v: ConsoleView, target: Mode, env: Env): ConsoleView {
    Printed(v, EnterMarker(target)).(baud := !env.ready && v.baud)
  }

  // The end of a successful switch: the UART retuned, the report, the marker, the clock probe.
  function Announced(v: ConsoleView, env: Env): ConsoleView {
    Printed(Printed(Printed(v.(baud := env.uartReady), env.report), Verdict(true)), env.probe)
  }

  function ConsoleAfter(v: ConsoleView, m: Mode, volt: Mode, request: int, env: Env): ConsoleView {
    if !Effective(m, request) then v
    else
      var entered := Entered(v, FromCode(request), env);
      if !Succeeds(volt, FromCode(request), env) then Printed(Printed(entered, env.report), Verdict(false))
      else Announced(entered, env)
  }

  class Switcher {
    var mode: Mode
    var latch: Latch
    var beforeEndCyc: u32
    var afterStartCyc: u32
    const board: Board
    const log: Log
    const scb: Scb

    ghost predicate Valid() reads this, board, log, scb { board.Valid() && log.Valid() && scb.Valid() }

    constructor (board: Board, log: Log, scb: Scb)
      requires board.Valid() && log.Valid() && scb.Valid()
      ensures Valid() && this.board == board && this.log == log && this.scb == scb
      ensures mode == HP && latch == Latch(0, 0, ENABLE_NOT_REACHED)
    {
      this.board, this.log, this.scb := board, log, scb;
      mode, latch, beforeEndCyc, afterStartCyc := HP, Latch(0, 0, ENABLE_NOT_REACHED), 0, 0;
    }

    // Cy_SysClk_PllDisable.  The console clock goes with the PLL, hence Idle().
    method PllDisable(bypass: BypassHz)
      requires Valid() && scb.Idle()
      modifies board, scb`baudMatches
      ensures Valid() && scb.Idle() && scb.View() == old(scb.View()).(baud := false)
      ensures board.history == old(board.history) + [Path(bypass)]
      ensures board.volt == old(board.volt)
    {
      scb.ClockLost();
      board.SetPath(bypass);
    }

    // pm_pll_reconfigure.
    method PllReconfigure(hz: nat, bypass: BypassHz, r: Relock) returns (ok: bool)
      requires Valid()
      modifies board, scb, this`latch
      ensures Valid() && scb.Idle() && scb.View() == old(scb.View()).(baud := false)
      ensures board.history == old(board.history) + Retune(hz, bypass, r)
      ensures board.volt == old(board.volt)
      ensures latch == LatchFor(hz, r) && ok == r.Locks?
    {
      scb.Flush();
      PllDisable(bypass);
      if r.Settles() {
        board.SetPath(hz);
      }
      match r
      case ConfigureFails(st) =>
        latch := Latch(hz, st, ENABLE_NOT_REACHED);
        return false;
      case EnableFails(st, _) =>
        latch := Latch(hz, 0, st);
        return false;
      case Locks =>
        latch := Latch(hz, 0, 0);
        return true;
    }

    // The BEFORE_TRANSITION phase of the target's callback.
    method Before(target: Mode, env: Env) returns (ok: bool)
      requires Valid()
      modifies board, scb, this`latch, this`beforeEndCyc
      ensures Valid() && scb.Idle() && scb.View() == old(scb.View()).(baud := false)
      ensures board.history == old(board.history) + Retune(IntermediateHz(target, old(board.volt)), env.preBypass, env.pre)
      ensures board.volt == old(board.volt)
      ensures latch == LatchFor(IntermediateHz(target, old(board.volt)), env.pre) && ok == env.pre.Locks?
      ensures beforeEndCyc == env.beforeEnd
    {
      var intermediate;
      match target {
        case HP => intermediate := 75 * MHZ;
        case LP => intermediate := if board.volt == ULP then 41 * MHZ else 75 * MHZ;
        case ULP => intermediate := 41 * MHZ;
      }
      ok := PllReconfigure(intermediate, env.preBypass, env.pre);
      beforeEndCyc := env.beforeEnd;
    }

    // The AFTER_TRANSITION phase.
    method After(target: Mode, env: Env)
      requires Valid()
      modifies board, scb, this`latch, this`afterStartCyc
      ensures Valid() && scb.Idle() && scb.View() == old(scb.View()).(baud := false)
      ensures board.history == old(board.history) + ([Rram(target)] + Retune(FinalHz(target), env.postBypass, env.post))
      ensures latch == LatchFor(FinalHz(target), env.post) && afterStartCyc == env.afterStart
    {
      afterStartCyc := env.afterStart;
      board.RramSetVoltageMode(target);
      var _ := PllReconfigure(FinalHz(target), env.postBypass, env.post);
    }

    // Cy_SysPm_SystemEnter*: CHECK_READY, BEFORE, the supply walk, AFTER.
    method SystemEnter(target: Mode, env: Env) returns (ok: bool)
      requires Valid()
      modifies board, scb, this`latch, this`beforeEndCyc, this`afterStartCyc
      ensures Valid() && ok == Succeeds(old(board.volt), target, env)
      ensures scb.View() == if env.ready then old(scb.View()).(baud := false) else old(scb.View())
      ensures board.history == old(board.history) + EnterPlan(old(board.volt), target, env)
      ensures latch == LatchAfter(old(latch), old(board.volt), target, env)
      ensures Completes(old(board.volt), target, env) ==> beforeEndCyc == env.beforeEnd && afterStartCyc == env.afterStart
    {
      hide Exec;
      hide Retune;
      hide StepPlan;
      ok := false;
      if env.ready {
        var prepared := Before(target, env);
        if prepared || !env.abandons {
          ok := StepSupply(target, env);
        }
      }
    }

    method StepSupply(target: Mode, env: Env) returns (ok: bool)
      requires Valid() && scb.Idle() && !scb.baudMatches
      modifies board, scb, this`latch, this`afterStartCyc
      ensures Valid() && scb.Idle() && scb.View() == old(scb.View()).(baud := false)
      ensures board.history == old(board.history) + StepPlan(old(board.volt), target, env)
      ensures ok == (Finishes(old(board.volt), target, env) && env.verdict)
      ensures if !Finishes(old(board.volt), target, env) then latch == old(latch)
              else latch == LatchFor(FinalHz(target), env.post) && afterStartCyc == env.afterStart
    {
      var levels := |Climb(board.volt, target)|;
      board.StepVoltage(target, env.moved);
      if env.moved < levels || !env.finishes {
        return false;
      }
      After(target, env);
      return env.verdict;
    }

    // pm_strategy_transition.
    method Transition(target: Mode, env: Env) returns (rc: int)
      requires Valid()
      modifies this, board, scb, log, log.names, log.cycles
      ensures Valid() && mode == old(mode)
      ensures rc == if Succeeds(old(board.volt), target, env) then 0 else EIO
      ensures var entered := Entered(old(scb.View()), target, env);
              scb.View() == if rc == 0 then entered else Printed(entered, env.report)
      ensures rc == 0 ==> !scb.baudMatches
      ensures board.history == old(board.history) + EnterPlan(old(board.volt), target, env)
      ensures latch == LatchAfter(old(latch), old(board.volt), target, env)
      ensures log.Phases() == Logged(rc == 0, env)
    {
      hide Exec; hide Delta; hide EnterPlan; hide StepPlan; hide LatchAfter;
      hide Printed; hide EnterMarker; hide Climb;
      log.Reset(Some("switch"));
      beforeEndCyc, afterStartCyc := 0, 0;
      scb.Trace(EnterMarker(target));
      var ok := SystemEnter(target, env);
      if !ok {
        scb.Print(env.report);
        return EIO;
      }
      LogPhases(env);
      return 0;
    }

    // The zero-sentinel fallback and the three records of a successful transition.
    method LogPhases(env: Env)
      requires log.Valid() && log.Phases() == [] && beforeEndCyc == env.beforeEnd && afterStartCyc == env.afterStart
      modifies this`beforeEndCyc, this`afterStartCyc, log, log.names, log.cycles
      ensures log.Valid() && log.Phases() == Logged(true, env)
    {
      hide Delta;
      if beforeEndCyc == 0 {
        beforeEndCyc := env.t0;
      }
      if afterStartCyc == 0 {
        afterStartCyc := env.t3;
      }
      log.RecordThree(Phase("pll_pre", Delta(beforeEndCyc, env.t0)), Phase("volt", Delta(afterStartCyc, beforeEndCyc)),
                      Phase("pll_post", Delta(env.t3, afterStartCyc)));
    }

    /** pm_switch_to.  A failed switch that reached the PLL leaves the console garbled
        until the next successful one; a successful one leaves it exact. */
    method SwitchTo(request: int, env: Env) returns (rc: int)
      requires Valid()
      modifies this, board, scb, log, log.names, log.cycles
      ensures Valid() && rc == Rc(old(mode), old(board.volt), request, env)
      ensures mode == NextMode(old(mode), old(board.volt), request, env)
      ensures board.history == old(board.history) + Plan(old(mode), old(board.volt), request, env)
      ensures board.Now() == Exec(old(board.Now()), Plan(old(mode), old(board.volt), request, env))
      ensures log.Phases() == if Effective(old(mode), request) then Logged(rc == 0, env) else old(log.Phases())
      ensures latch == if Effective(old(mode), request) then LatchAfter(old(latch), old(board.volt), FromCode(request), env)
                       else old(latch)
      ensures scb.View() == ConsoleAfter(old(scb.View()), old(mode), old(board.volt), request, env)
    {
      ExecAppend(board.origin, board.history, Plan(mode, board.volt, request, env));
      hide Exec;
      hide EnterPlan; hide LatchAfter; hide Succeeds; hide Logged;
      hide Printed; hide Announced; hide Entered; hide Verdict;
      if request == Code(mode) {
        return 0;
      }
      if !IsCode(request) {
        return EINVAL;
      }
      rc := Perform(FromCode(request), env);
    }

    // The rest of pm_switch_to, for a mode that is not the current one.
    method Perform(target: Mode, env: Env) returns (rc: int)
      requires Valid()
      modifies this, board, scb, log, log.names, log.cycles
      ensures Valid() && rc == if Succeeds(old(board.volt), target, env) then 0 else EIO
      ensures mode == if rc == 0 then target else old(mode)
      ensures board.history == old(board.history) + EnterPlan(old(board.volt), target, env)
      ensures log.Phases() == Logged(rc == 0, env)
      ensures latch == LatchAfter(old(latch), old(board.volt), target, env)
      ensures var entered := Entered(old(scb.View()), target, env);
              scb.View() == if rc == 0 then Announced(entered, env)
                            else Printed(Printed(entered, env.report), Verdict(false))
    {
      hide Exec; hide EnterPlan; hide LatchAfter; hide Succeeds; hide Logged;
      hide Printed; hide Announced; hide Entered; hide Verdict;
      rc := Transition(target, env);
      Conclude(target, rc, env);
    }

    // What pm_switch_to does with the transition's return code.
    method Conclude(target: Mode, rc: int, env: Env)
      requires Valid() && (rc == 0 ==> !scb.baudMatches)
      modifies this`mode, scb
      ensures Valid() && mode == if rc == 0 then target else old(mode)
      ensures scb.View() == if rc == 0 then Announced(old(scb.View()), env) else Printed(old(scb.View()), Verdict(false))
    {
      hide Printed; hide Announced; hide Verdict;
      if rc != 0 {
        scb.Trace(Verdict(false));
        return;
      }
      mode := target;
      Announce(env);
    }

    // diag_trace_flush and pm_reconfigure_console_uart, then what the call has to say.
    method Announce(env: Env)
      requires Valid() && !scb.baudMatches
      modifies scb
      ensures Valid() && scb.View() == Announced(old(scb.View()), env)
    {
      hide Printed;
      scb.Flush();
      if env.uartReady {
        scb.Reconfigure();
      }
      scb.Print(env.report);
      scb.Trace(Verdict(true));
      scb.Print(env.probe);
    }
  }

  // ---- One call ------------------------------------------------------------------

  // SystemEnterHp puts the path at 75 MHz before the supply has left 0.7 V.
  predicate Overdrives(m: Mode, volt: Mode, request: int, env: Env) {
    Effective(m, request) && FromCode(request) == HP && volt == ULP && env.ready && env.pre.Settles()
  }

  predicate Sound(h: Hw) { InSpec(h) && h.div == 1 }

  lemma RetuneEffect(h: Hw, hz: nat, bypass: BypassHz, r: Relock)
    requires h.div == 1
    ensures Exec(h, Retune(hz, bypass, r)) == h.(pathHz := if r.Settles() then hz else bypass)
    ensures InSpec(h) ==>
              (InSpecThroughout(h, Retune(hz, bypass, r)) <==> r.Settles() ==> hz <= CeilingHz(h.volt))
  {
    if r.Settles() {
      ExecTwo(h, Path(bypass), Path(hz));
    } else {
      ExecOne(h, Path(bypass));
    }
  }

  // The supply walk only visits levels between its ends.
  lemma WalkEffect(h: Hw, target: Mode, moved: nat)
    requires h.div == 1
    requires h.pathHz <= CeilingHz(h.volt) && h.pathHz <= CeilingHz(target) && h.pathHz <= 80 * MHZ
    ensures InSpecThroughout(h, PartOf(Climb(h.volt, target), moved))
    ensures Sound(Exec(h, PartOf(Climb(h.volt, target), moved)))
    ensures Exec(h, PartOf(Climb(h.volt, target), moved)).pathHz == h.pathHz
    ensures moved >= |Climb(h.volt, target)| ==> Exec(h, PartOf(Climb(h.volt, target), moved)) == h.(volt := target)
  {
    var walk := PartOf(Climb(h.volt, target), moved);
    if |walk| == 2 {
      ExecTwo(h, walk[0], walk[1]);
    } else if |walk| == 1 {
      ExecOne(h, walk[0]);
    }
    if moved >= |Climb(h.volt, target)| {
      ClimbArrives(h, target);
    }
  }

  // The supply walk and AFTER are safe once the path is slow enough for both ends.
  lemma StepEffect(h: Hw, target: Mode, env: Env)
    requires h.div == 1
    requires h.pathHz <= CeilingHz(h.volt) && h.pathHz <= CeilingHz(target) && h.pathHz <= 80 * MHZ
    ensures InSpecThroughout(h, StepPlan(h.volt, target, env))
    ensures Sound(Exec(h, StepPlan(h.volt, target, env)))
  {
    WalkEffect(h, target, env.moved);
    if Finishes(h.volt, target, env) {
      AfterEffect(h.(volt := target), target, env);
      ExecAppend(h, Climb(h.volt, target), [Rram(target)] + Retune(FinalHz(target), env.postBypass, env.post));
    }
  }

  lemma AfterEffect(h: Hw, target: Mode, env: Env)
    requires h.div == 1 && h.volt == target
    ensures var tail := [Rram(target)] + Retune(FinalHz(target), env.postBypass, env.post);
            && Exec(h, tail) == Hw(target, if env.post.Settles() then FinalHz(target) else env.postBypass, 1, target)
            && Sound(Exec(h, tail))
            && (InSpec(h) ==> InSpecThroughout(h, tail))
  {
    var mid := h.(rram := target);
    ExecAppend(h, [Rram(target)], Retune(FinalHz(target), env.postBypass, env.post));
    ExecOne(h, Rram(target));
    RetuneEffect(mid, FinalHz(target), env.postBypass, env.post);
  }

  /** The exception, exactly: from a sound state a call leaves the envelope at some step
      if and only if it overdrives; otherwise it ends sound as well. */
  lemma CallInSpecIff(m: Mode, h: Hw, request: int, env: Env)
    requires Sound(h)
    ensures InSpecThroughout(h, Plan(m, h.volt, request, env)) <==> !Overdrives(m, h.volt, request, env)
    ensures !Overdrives(m, h.volt, request, env) ==> Sound(Exec(h, Plan(m, h.volt, request, env)))
  {
    if Effective(m, request) && env.ready {
      var target := FromCode(request);
      var hz := IntermediateHz(target, h.volt);
      var before := Retune(hz, env.preBypass, env.pre);
      RetuneEffect(h, hz, env.preBypass, env.pre);
      if Proceeds(env) {
        ExecAppend(h, before, StepPlan(h.volt, target, env));
        if !Overdrives(m, h.volt, request, env) {
          StepEffect(Exec(h, before), target, env);
        }
      }
    }
  }

  const CALM := Env(true, Locks, 0, false, 2, true, Locks, 0, true, true, "", "", 0, 1, 1, 2)

  /** What a caller can check beforehand: the call is safe under every behaviour of the
      PDL unless it asks for HP while the supply is at ULP. */
  lemma GuardIff(m: Mode, h: Hw, request: int)
    requires Sound(h)
    ensures (forall env :: InSpecThroughout(h, Plan(m, h.volt, request, env)))
            <==> !(h.volt == ULP && request == Code(HP) && m != HP)
  {
    forall env
      ensures InSpecThroughout(h, Plan(m, h.volt, request, env)) <==> !Overdrives(m, h.volt, request, env)
    {
      CallInSpecIff(m, h, request, env);
    }
    if h.volt == ULP && request == Code(HP) && m != HP {
      assert Overdrives(m, h.volt, request, CALM);
    }
  }

  // A successful switch ends in a state that depends on the target and AFTER's relock only.
  lemma SuccessIsCanonical(m: Mode, h: Hw, request: int, env: Env)
    requires h.div == 1 && Effective(m, request) && Rc(m, h.volt, request, env) == 0
    ensures var target := FromCode(request);
            && NextMode(m, h.volt, request, env) == target
            && Exec(h, Plan(m, h.volt, request, env))
               == Hw(target, if env.post.Settles() then FinalHz(target) else env.postBypass, 1, target)
  {
    var target := FromCode(request);
    var before := Retune(IntermediateHz(target, h.volt), env.preBypass, env.pre);
    var tail := [Rram(target)] + Retune(FinalHz(target), env.postBypass, env.post);
    var slow := Exec(h, before);
    RetuneEffect(h, IntermediateHz(target, h.volt), env.preBypass, env.pre);
    ExecAppend(h, before, StepPlan(h.volt, target, env));
    ExecAppend(slow, Climb(h.volt, target), tail);
    ClimbArrives(slow, target);
    AfterEffect(slow.(volt := target), target, env);
  }

  // ---- Whole runs ----------------------------------------------------------------

  datatype Call = Call(request: int, env: Env)
  datatype State = State(mode: Mode, hw: Hw)

  function CallPlan(s: State, c: Call): seq<Action> { Plan(s.mode, s.hw.volt, c.request, c.env) }

  function Step(s: State, c: Call): State {
    State(NextMode(s.mode, s.hw.volt, c.request, c.env), Exec(s.hw, CallPlan(s, c)))
  }

  function Run(s: State, calls: seq<Call>): State
    decreases |calls|
  {
    if calls == [] then s else Run(Step(s, calls[0]), calls[1..])
  }

  function RunPlan(s: State, calls: seq<Call>): seq<Action>
    decreases |calls|
  {
    if calls == [] then [] else CallPlan(s, calls[0]) + RunPlan(Step(s, calls[0]), calls[1..])
  }

  predicate NeverOverdrives(s: State, calls: seq<Call>)
    decreases |calls|
  {
    calls == []
    || (!Overdrives(s.mode, s.hw.volt, calls[0].request, calls[0].env) && NeverOverdrives(Step(s, calls[0]), calls[1..]))
  }

  /** Every primitive step of every run is inside the envelope exactly when no call of
      the run is the exception, whatever failed and however stale s_current_mode got. */
  lemma {:induction false} RunInSpecIff(s: State, calls: seq<Call>)
    requires Sound(s.hw)
    ensures InSpecThroughout(s.hw, RunPlan(s, calls)) <==> NeverOverdrives(s, calls)
    ensures NeverOverdrives(s, calls) ==> Sound(Run(s, calls).hw)
    decreases |calls|
  {
    if calls != [] {
      var s' := Step(s, calls[0]);
      CallInSpecIff(s.mode, s.hw, calls[0].request, calls[0].env);
      ExecAppend(s.hw, CallPlan(s, calls[0]), RunPlan(s', calls[1..]));
      if !Overdrives(s.mode, s.hw.volt, calls[0].request, calls[0].env) {
        RunInSpecIff(s', calls[1..]);
      }
    }
  }

  const BOOT := State(HP, Hw(HP, 200 * MHZ, 1, HP))

  /** The software mode is no substitute for the live supply: an aborted LP->ULP switch
      leaves s_current_mode at LP with the supply at ULP, and the next request for HP
      overdrives although the firmware believes it is on the LP->HP edge. */
  lemma StaleModeReachesTheException()
    ensures exists calls: seq<Call> ::
              && NeverOverdrives(BOOT, calls)
              && Run(BOOT, calls).mode == LP && Run(BOOT, calls).hw.volt == ULP
              && Overdrives(LP, Run(BOOT, calls).hw.volt, Code(HP), CALM)
  {
    var toLp, toUlp := Call(Code(LP), CALM), Call(Code(ULP), CALM.(post := ConfigureFails(1), verdict := false));
    var calls := [toLp, toUlp];
    var s1 := Step(BOOT, toLp);
    SuccessIsCanonical(HP, BOOT.hw, Code(LP), CALM);
    assert s1 == State(LP, Hw(LP, 80 * MHZ, 1, LP));
    var s2 := Step(s1, toUlp);
    SuccessIsCanonical(LP, s1.hw, Code(ULP), toUlp.env.(verdict := true));
    assert CallPlan(s1, toUlp) == Plan(LP, LP, Code(ULP), toUlp.env.(verdict := true));
    assert s2 == State(LP, Hw(ULP, 0, 1, ULP));
    assert calls[1..] == [toUlp] && calls[1..][1..] == [];
    assert Run(s1, [toUlp]) == s2;
    assert Run(BOOT, calls) == s2;
    assert NeverOverdrives(s1, [toUlp]);
  }

  // While every effective switch succeeds and relocks, mode, supply, RRAM and path agree.
  predicate Agreed(s: State) { s.hw == Hw(s.mode, FinalHz(s.mode), 1, s.mode) }

  predicate AllSucceed(s: State, calls: seq<Call>)
    decreases |calls|
  {
    calls == []
    || ((Effective(s.mode, calls[0].request) ==>
           Succeeds(s.hw.volt, FromCode(calls[0].request), calls[0].env) && calls[0].env.post.Locks?)
        && AllSucceed(Step(s, calls[0]), calls[1..]))
  }

  lemma {:induction false} SuccessfulRunsAgree(s: State, calls: seq<Call>)
    requires Agreed(s) && AllSucceed(s, calls)
    ensures Agreed(Run(s, calls))
    decreases |calls|
  {
    if calls != [] {
      var c := calls[0];
      if Effective(s.mode, c.request) {
        SuccessIsCanonical(s.mode, s.hw, c.request, c.env);
      }
      SuccessfulRunsAgree(Step(s, c), calls[1..]);
    }
  }

  // 0, -EINVAL and -EIO, each exactly when: an effective request succeeds if it is not turned
  // away, the supply covers the levels to the target, AFTER runs and the verdict is good.
  lemma ReturnCodes(m: Mode, volt: Mode, request: int, env: Env)
    ensures var rc := Rc(m, volt, request, env);
            var levels := if request > Code(volt) then request - Code(volt) else Code(volt) - request;
            var works := env.ready && (env.pre.Locks? || !env.abandons) && env.moved >= levels && env.finishes && env.verdict;
            && (rc == 0 <==> request == Code(m) || (0 <= request <= 2 && works))
            && (rc == -22 <==> !(0 <= request <= 2))
            && (rc == -5 <==> 0 <= request <= 2 && request != Code(m) && !works)
  {
  }

  // The latches tell what the last reconfiguration came to, and zero in both means a lock.
  lemma LatchTellsTheRelock(hz: nat, r: Relock)
    ensures var l := LatchFor(hz, r);
            && l.targetHz == hz
            && (l.configureSt == 0 && l.enableSt == 0 <==> r.Locks?)
            && (r.ConfigureFails? ==> l.configureSt == r.st && l.enableSt == 0xFFFF_FFFF)
            && (r.EnableFails? ==> l.configureSt == 0 && l.enableSt == r.st)
  {
  }

  /** After any call, failed or not, zero in both latches means that the clock path carries the
      latched frequency, if it did before. */
  lemma LatchesTellThePath(l: Latch, m: Mode, h: Hw, request: int, env: Env)
    requires h.div == 1 && (l.configureSt == 0 && l.enableSt == 0 ==> h.pathHz == l.targetHz)
    ensures var after, l' := Exec(h, Plan(m, h.volt, request, env)),
                             if Effective(m, request) then LatchAfter(l, h.volt, FromCode(request), env) else l;
            l'.configureSt == 0 && l'.enableSt == 0 ==> after.pathHz == l'.targetHz
  {
    if Effective(m, request) && env.ready {
      var target := FromCode(request);
      var before := Retune(IntermediateHz(target, h.volt), env.preBypass, env.pre);
      var slow := Exec(h, before);
      RetuneEffect(h, IntermediateHz(target, h.volt), env.preBypass, env.pre);
      if Proceeds(env) {
        ExecAppend(h, before, StepPlan(h.volt, target, env));
        StepPath(slow, target, env);
      }
    }
  }

  lemma StepPath(h: Hw, target: Mode, env: Env)
    requires h.div == 1
    ensures Exec(h, StepPlan(h.volt, target, env)).pathHz
            == if !Finishes(h.volt, target, env) then h.pathHz
               else if env.post.Settles() then FinalHz(target) else env.postBypass
  {
    if Finishes(h.volt, target, env) {
      var tail := [Rram(target)] + Retune(FinalHz(target), env.postBypass, env.post);
      ClimbArrives(h, target);
      AfterEffect(h.(volt := target), target, env);
      ExecAppend(h, Climb(h.volt, target), tail);
    } else {
      var walk := PartOf(Climb(h.volt, target), env.moved);
      if |walk| == 2 {
        ExecTwo(h, walk[0], walk[1]);
      } else if |walk| == 1 {
        ExecOne(h, walk[0]);
      }
    }
  }

  // The markers all have the same frame, and tell every target and both outcomes apart.
  predicate Framed(marker: string, word: string) { marker == "<T:switch:" + word + ">\n" }

  lemma MarkersTell(a: Mode, b: Mode)
    ensures Framed(EnterMarker(a), match a case HP => "EnterHp" case LP => "EnterLp" case ULP => "EnterUlp")
    ensures Framed(Verdict(true), "complete") && Framed(Verdict(false), "FAIL")
    ensures EnterMarker(a) == EnterMarker(b) <==> a == b
    ensures Verdict(true) != Verdict(false) && EnterMarker(a) != Verdict(true) && EnterMarker(a) != Verdict(false)
  {
    assert EnterMarker(HP)[15] == 'H' && EnterMarker(LP)[15] == 'L' && EnterMarker(ULP)[15] == 'U';
    assert EnterMarker(a)[10] == 'E' && Verdict(true)[10] == 'c' && Verdict(false)[10] == 'F';
  }

  /** A successful, relocked switch runs the core at exactly the ceiling of its mode. */
  lemma SuccessRunsAtTheCeiling(m: Mode, h: Hw, request: int, env: Env)
    requires h.div == 1 && Effective(m, request) && Rc(m, h.volt, request, env) == 0 && env.post.Settles()
    ensures var after := Exec(h, Plan(m, h.volt, request, env));
            && after.pathHz == CeilingHz(after.volt) * after.div
            && after.pathHz == (match FromCode(request) case HP => 200_000_000 case LP => 80_000_000 case ULP => 50_000_000)
  {
    hide Exec; hide Plan;
    SuccessIsCanonical(m, h, request, env);
  }

  /** BEFORE's frequency is safe at both ends of the walk exactly when the request is not the
      one for HP from the ULP level; 41 MHz is selected for the walks that touch that level,
      that request excepted, and 75 MHz for the others. */
  lemma IntermediateIsSafeIff(target: Mode, volt: Mode)
    ensures IntermediateHz(target, volt) <= CeilingHz(volt) && IntermediateHz(target, volt) <= CeilingHz(target)
            <==> !(target == HP && volt == ULP)
    ensures IntermediateHz(target, volt)
            == if target != HP && (target == ULP || volt == ULP) then 41_000_000 else 75_000_000
  {
  }

  // ---- Return codes against the supply ----------------------------------------------

  // Where the supply is after one call.
  function Level(volt: Mode, target: Mode, env: Env): Mode {
    var walk := PartOf(Climb(volt, target), env.moved);
    if !Proceeds(env) || walk == [] then volt else walk[|walk| - 1].level
  }

  lemma LevelIsTheSupply(m: Mode, h: Hw, request: int, env: Env)
    requires h.div == 1
    ensures Exec(h, Plan(m, h.volt, request, env)).volt
            == if Effective(m, request) then Level(h.volt, FromCode(request), env) else h.volt
    ensures Exec(h, Plan(m, h.volt, request, env)).div == 1
    ensures Effective(m, request) && Rc(m, h.volt, request, env) == 0 ==>
              Level(h.volt, FromCode(request), env) == FromCode(request)
  {
    if Effective(m, request) && env.ready {
      var target := FromCode(request);
      var before := Retune(IntermediateHz(target, h.volt), env.preBypass, env.pre);
      var slow := Exec(h, before);
      RetuneEffect(h, IntermediateHz(target, h.volt), env.preBypass, env.pre);
      if Proceeds(env) {
        ExecAppend(h, before, StepPlan(h.volt, target, env));
        StepLevel(slow, target, env);
      }
    }
  }

  lemma StepLevel(h: Hw, target: Mode, env: Env)
    requires h.div == 1 && Proceeds(env)
    ensures Exec(h, StepPlan(h.volt, target, env)).volt == Level(h.volt, target, env)
    ensures Exec(h, StepPlan(h.volt, target, env)).div == 1
    ensures Finishes(h.volt, target, env) ==> Level(h.volt, target, env) == target
  {
    var walk := PartOf(Climb(h.volt, target), env.moved);
    if |walk| == 2 {
      ExecTwo(h, walk[0], walk[1]);
    } else if |walk| == 1 {
      ExecOne(h, walk[0]);
    }
    if Finishes(h.volt, target, env) {
      var tail := [Rram(target)] + Retune(FinalHz(target), env.postBypass, env.post);
      ClimbArrives(h, target);
      AfterEffect(h.(volt := target), target, env);
      ExecAppend(h, Climb(h.volt, target), tail);
    }
  }

  /** What a return code of 0 is worth: the supply is at the requested level, unless the
      request names the mode the software believes in and the supply is elsewhere; both can
      be read before the call. */
  lemma ZeroMeansThereIff(m: Mode, h: Hw, request: int, env: Env)
    requires h.div == 1 && Rc(m, h.volt, request, env) == 0
    ensures IsCode(request)
    ensures Exec(h, Plan(m, h.volt, request, env)).volt == FromCode(request) <==> !(request == Code(m) && h.volt != m)
  {
    hide Exec; hide Plan; hide Level; hide Succeeds;
    LevelIsTheSupply(m, h, request, env);
  }

  // Where the latest call that reached the supply left it: at the level of s_current_mode
  // or not.
  datatype Standing = Untouched | There | Elsewhere

  function LastStanding(s: State, calls: seq<Call>): Standing
    decreases |calls|
  {
    if calls == [] then Untouched
    else
      match LastStanding(Step(s, calls[0]), calls[1..])
      case Untouched =>
        var c := calls[0];
        if !Effective(s.mode, c.request) || !Proceeds(c.env) then Untouched
        else if Level(s.hw.volt, FromCode(c.request), c.env) == NextMode(s.mode, s.hw.volt, c.request, c.env) then There
        else Elsewhere
      case other => other
  }

  /** Over every run, failures included: s_current_mode is the level of the supply exactly
      when the latest call that reached the supply left it there. */
  lemma SupplyFitsIff(s: State, calls: seq<Call>)
    requires s.hw.div == 1 && s.hw.volt == s.mode
    ensures Run(s, calls).hw.volt == Run(s, calls).mode <==> LastStanding(s, calls) != Elsewhere
  {
    RunSupply(s, calls);
  }

  lemma {:induction false} RunSupply(s: State, calls: seq<Call>)
    requires s.hw.div == 1
    ensures match LastStanding(s, calls)
            case Untouched => Run(s, calls).hw.volt == s.hw.volt && Run(s, calls).mode == s.mode
            case There => Run(s, calls).hw.volt == Run(s, calls).mode
            case Elsewhere => Run(s, calls).hw.volt != Run(s, calls).mode
    decreases |calls|
  {
    hide Exec; hide Plan;
    if calls != [] {
      LevelIsTheSupply(s.mode, s.hw, calls[0].request, calls[0].env);
      RunSupply(Step(s, calls[0]), calls[1..]);
    }
  }

  /** From boot it can come to that: HP->ULP gives up after the supply has moved, and the
      next request for HP returns 0 with the core still at the ULP level. */
  lemma ZeroCanMeanElsewhere()
    ensures exists c: Call :: var s := Step(BOOT, c);
              && Rc(s.mode, s.hw.volt, Code(HP), CALM) == 0
              && Plan(s.mode, s.hw.volt, Code(HP), CALM) == [] && s.hw.volt == ULP
  {
    var c := Call(Code(ULP), CALM.(finishes := false));
    LevelIsTheSupply(HP, BOOT.hw, c.request, c.env);
    assert Step(BOOT, c).hw.volt == ULP && Step(BOOT, c).mode == HP;
  }

  // ---- Phase log and console -------------------------------------------------------

  lemma LoggedPhasesCoverTheWindow(ok: bool, env: Env)
    ensures ok ==> Total(Logged(ok, env)) == Delta(env.t3, env.t0)
    ensures !ok ==> Logged(ok, env) == []
    ensures |Logged(ok, env)| < MAX_PHASES
  {
    Telescopes("pll_pre", "volt", "pll_post",
               env.t0, Boundary(env.beforeEnd, env.t0), Boundary(env.afterStart, env.t3), env.t3);
  }

  /** What each phase of a successful switch measures, for all 32-bit counter values: up to the
      end of BEFORE, from there to the start of AFTER, and from there on.  A callback whose
      counter reads 0 loses its own phase only, and the window keeps its ends. */
  lemma PhasesAreTheCallbacks(env: Env)
    ensures var p, b, a := Logged(true, env), env.beforeEnd, env.afterStart;
            && |p| == 3
            && CyclesOf(p, "pll_pre") == (if b == 0 then 0 else (b - env.t0) % 0x1_0000_0000)
            && CyclesOf(p, "pll_post") == (if a == 0 then 0 else (env.t3 - a) % 0x1_0000_0000)
            && CyclesOf(p, "volt") == ((if a == 0 then env.t3 else a) - if b == 0 then env.t0 else b) % 0x1_0000_0000
  {
    var p := Logged(true, env);
    CyclesOfThree(p[0], p[1], p[2]);
    assert p == [p[0], p[1], p[2]];
  }

  function RunConsole(v: ConsoleView, s: State, calls: seq<Call>): ConsoleView
    decreases |calls|
  {
    if calls == [] then v
    else
      RunConsole(ConsoleAfter(v, s.mode, s.hw.volt, calls[0].request, calls[0].env), Step(s, calls[0]), calls[1..])
  }

  // A call that leaves the console readable: it does nothing, it is turned away before
  // the PLL is touched, or it succeeds and the UART is retuned.
  predicate Harmless(s: State, c: Call) {
    Effective(s.mode, c.request) ==>
      !c.env.ready || (Succeeds(s.hw.volt, FromCode(c.request), c.env) && c.env.uartReady)
  }

  predicate AllHarmless(s: State, calls: seq<Call>)
    decreases |calls|
  {
    calls == [] || (Harmless(s, calls[0]) && AllHarmless(Step(s, calls[0]), calls[1..]))
  }

  lemma {:induction false} GarbledStaysGarbled(v: ConsoleView, s: State, calls: seq<Call>)
    requires !v.clean
    ensures !RunConsole(v, s, calls).clean
    decreases |calls|
  {
    if calls != [] {
      GarbledStaysGarbled(ConsoleAfter(v, s.mode, s.hw.volt, calls[0].request, calls[0].env), Step(s, calls[0]), calls[1..]);
    }
  }

  // What the console shows of an effective call: the target, the report, the outcome as the
  // return code has it, and after a success the clock probe.
  lemma ConsoleTellsTheOutcome(v: ConsoleView, m: Mode, volt: Mode, request: int, env: Env)
    requires Effective(m, request)
    ensures ConsoleAfter(v, m, volt, request, env).text
            == v.text + CrLf(EnterMarker(FromCode(request))) + CrLf(env.report)
               + if Rc(m, volt, request, env) == 0 then CrLf("<T:switch:complete>\n") + CrLf(env.probe)
                 else CrLf("<T:switch:FAIL>\n")
  {
    hide CrLf; hide EnterMarker; hide Succeeds;
    NothingPrinted();
  }

  lemma NothingPrinted()
    ensures CrLf("") == ""
  {
  }

  /** Every byte of every marker and every printk of a run is readable exactly when every
      call of the run was harmless. */
  lemma {:induction false} ConsoleCleanIff(v: ConsoleView, s: State, calls: seq<Call>)
    requires v.clean && v.baud
    ensures RunConsole(v, s, calls).clean <==> AllHarmless(s, calls)
    ensures AllHarmless(s, calls) ==> RunConsole(v, s, calls).baud
    decreases |calls|
  {
    if calls != [] {
      var v' := ConsoleAfter(v, s.mode, s.hw.volt, calls[0].request, calls[0].env);
      if Harmless(s, calls[0]) {
        ConsoleCleanIff(v', Step(s, calls[0]), calls[1..]);
      } else {
        GarbledStaysGarbled(v', Step(s, calls[0]), calls[1..]);
      }
    }
  }
}
