/** The split HP/LP switch: the non-secure side writes the SRAM trims with interrupts
    masked, around a call into the secure partition that moves the HF0 divider and the
    core buck.  Neither side can do the other's half. */
module SecureSplit {
  import opened Soc
  import HfDivider

  const ENOTSUP := -134
  const PARTITION_EIO := -6
  const PSA_SUCCESS := 0
  const PSA_INVALID_ARGUMENT := -135
  const PSA_BUFFER_TOO_SMALL := -138
  const PSA_COMMUNICATION_FAILURE := -145

  const DPLL_HZ := 400 * MHZ

  // ---- Secure partition ------------------------------------------------------------

  function Hf0DivForMode(m: Mode): nat {
    match m
    case HP => 2
    case LP => 6
    case ULP => 8
  }

  /** Every mode runs the core at the frequency that the divider strategy of app 06 gives it. */
  lemma SameClocksAsDividerStrategy(m: Mode)
    ensures DPLL_HZ == 400_000_000 && DPLL_HZ * HfDivider.DividerFor(m) == HfDivider.DPLL_HZ * Hf0DivForMode(m)
  {
  }

  // The outside during one request: PSA plumbing, then the regulator.  `spm` is an error of
  // psa_call itself, raised before the handler runs or, when `late`, after it; `moved` is
  // how far a failed buck change took the supply anyway.
  datatype Env = Env(spm: int, late: bool, readOk: bool, ldoOk: bool, buckOk: bool, moved: nat)

  predicate BuckRuns(source: Mode, target: Mode, env: Env) {
    !(source == LP && target == ULP) || env.ldoOk
  }

  predicate BuckEntered(source: Mode, target: Mode, env: Env) {
    env.buckOk && (((source == LP && target == ULP) || (source == ULP && target == LP)) ==> env.ldoOk)
  }

  function BuckWalk(volt: Mode, source: Mode, target: Mode, env: Env): seq<Action> {
    if !BuckRuns(source, target, env) then []
    else PartOf(Climb(volt, target), if env.buckOk then 2 else env.moved)
  }

  // The SRAM LDO: on once the way down to ULP has begun, off again when the way up has succeeded.
  function LdoAfter(on: bool, source: Mode, target: Mode, env: Env): bool {
    if source == LP && target == ULP && env.ldoOk then true
    else if source == ULP && target == LP && env.buckOk && env.ldoOk then false
    else on
  }

  // trans_down and trans_up.
  function TransPlan(volt: Mode, source: Mode, target: Mode, env: Env): seq<Action> {
    var walk := BuckWalk(volt, source, target, env);
    if Code(target) < Code(source) then
      [Divide(Hf0DivForMode(target))] + walk
      + if BuckEntered(source, target, env) then [] else [Divide(Hf0DivForMode(source))]
    else
      walk + if BuckEntered(source, target, env) then [Divide(Hf0DivForMode(target))] else []
  }

  datatype Msg = Msg(inSize: nat, outSize: nat, source: int, target: int)

  const SWITCH_IN_SIZE := 8
  const SWITCH_OUT_SIZE := 4

  class Partition {
    const board: Board
    var profile: Mode
    var sramLdo: bool
    ghost var asked: seq<(Mode, Mode)>    // transitions the handler was asked to perform

    ghost predicate Valid() reads this, board { board.Valid() }

    constructor (board: Board)
      requires board.Valid()
      ensures Valid() && this.board == board && profile == HP && !sramLdo && asked == []
    {
      this.board, profile, sramLdo, asked := board, HP, false, [];
    }

    // Cy_SysPm_CoreBuckSetProfile and Cy_SysPm_CoreBuckStatus.
    method CoreBuck(target: Mode, env: Env) returns (ok: bool)
      requires Valid()
      modifies this`profile, board
      ensures Valid() && ok == env.buckOk && profile == target
      ensures board.history == old(board.history) + PartOf(Climb(old(board.volt), target), if env.buckOk then 2 else env.moved)
    {
      profile := target;
      board.StepVoltage(target, if env.buckOk then 2 else env.moved);
      ok := env.buckOk;
    }

    method CoreBuckOnlyEnter(source: Mode, target: Mode, env: Env) returns (ok: bool)
      requires Valid()
      modifies this`profile, this`sramLdo, board
      ensures Valid() && ok == BuckEntered(source, target, env)
      ensures profile == if BuckRuns(source, target, env) then target else old(profile)
      ensures board.history == old(board.history) + BuckWalk(old(board.volt), source, target, env)
      ensures sramLdo == LdoAfter(old(sramLdo), source, target, env)
    {
      if source == LP && target == ULP {
        if !env.ldoOk {
          return false;
        }
        sramLdo := true;
        ok := CoreBuck(ULP, env);
        return;
      }
      ok := CoreBuck(target, env);
      if source == ULP && target == LP && ok {
        sramLdo := if env.ldoOk then false else sramLdo;
        ok := env.ldoOk;
      }
    }

    method Transition(source: Mode, target: Mode, env: Env) returns (status: int)
      requires Valid() && source != target
      modifies this, board
      ensures Valid() && status == if BuckEntered(source, target, env) then 0 else PARTITION_EIO
      ensures profile == if BuckRuns(source, target, env) then target else old(profile)
      ensures board.history == old(board.history) + TransPlan(old(board.volt), source, target, env)
      ensures sramLdo == LdoAfter(old(sramLdo), source, target, env)
      ensures asked == old(asked) + [(source, target)]
    {
      hide Exec;
      hide Climb;
      asked := asked + [(source, target)];
      if Code(target) < Code(source) {
        board.ClkHfSetDivider(Hf0DivForMode(target));
        var ok := CoreBuckOnlyEnter(source, target, env);
        if !ok {
          board.ClkHfSetDivider(Hf0DivForMode(source));
        }
        status := if ok then 0 else PARTITION_EIO;
      } else {
        var ok := CoreBuckOnlyEnter(source, target, env);
        if ok {
          board.ClkHfSetDivider(Hf0DivForMode(target));
        }
        status := if ok then 0 else PARTITION_EIO;
      }
    }

    // z_pm_op_switch_active_mode.  `out` is what psa_write put in the reply, initially 0.
    method SwitchActiveMode(msg: Msg, env: Env) returns (st: int, out: int)
      requires Valid()
      modifies this, board
      ensures Valid() && (st, out) == HandlerReply(msg, env)
      ensures HandlerActs(msg, env) ==>
                var source, target := FromCode(msg.source), FromCode(msg.target);
                && asked == old(asked) + [(source, target)]
                && board.history == old(board.history) + TransPlan(old(board.volt), source, target, env)
                && profile == (if BuckRuns(source, target, env) then target else old(profile))
                && sramLdo == LdoAfter(old(sramLdo), source, target, env)
      ensures !HandlerActs(msg, env) ==>
                asked == old(asked) && board.history == old(board.history) && profile == old(profile) && sramLdo == old(sramLdo)
    {
      if msg.inSize < SWITCH_IN_SIZE {
        return PSA_INVALID_ARGUMENT, 0;
      }
      if msg.outSize < SWITCH_OUT_SIZE {
        return PSA_BUFFER_TOO_SMALL, 0;
      }
      if !env.readOk {
        return PSA_COMMUNICATION_FAILURE, 0;
      }
      if !IsCode(msg.source) || !IsCode(msg.target) {
        return PSA_INVALID_ARGUMENT, 0;
      }
      if msg.source == msg.target {
        return PSA_SUCCESS, 0;
      }
      out := Transition(FromCode(msg.source), FromCode(msg.target), env);
      st := PSA_SUCCESS;
    }
  }

  predicate HandlerActs(msg: Msg, env: Env) {
    && msg.inSize >= SWITCH_IN_SIZE && msg.outSize >= SWITCH_OUT_SIZE && env.readOk
    && IsCode(msg.source) && IsCode(msg.target) && msg.source != msg.target
  }

  function HandlerReply(msg: Msg, env: Env): (int, int) {
    if msg.inSize < SWITCH_IN_SIZE then (PSA_INVALID_ARGUMENT, 0)
    else if msg.outSize < SWITCH_OUT_SIZE then (PSA_BUFFER_TOO_SMALL, 0)
    else if !env.readOk then (PSA_COMMUNICATION_FAILURE, 0)
    else if !IsCode(msg.source) || !IsCode(msg.target) then (PSA_INVALID_ARGUMENT, 0)
    else if msg.source == msg.target then (PSA_SUCCESS, 0)
    else (PSA_SUCCESS, if BuckEntered(FromCode(msg.source), FromCode(msg.target), env) then 0 else PARTITION_EIO)
  }

  // ---- SRAM trims ------------------------------------------------------------------

  const TRIM_REGS := 9
  type Index = i: nat | i < 9
  datatype TrimWrite = TrimWrite(index: Index, value: nat)
  type Trims = t: seq<nat> | |t| == 9 witness [0, 0, 0, 0, 0, 0, 0, 0, 0]

  const HP_TO_LP_PRE: seq<TrimWrite> := [
    TrimWrite(0, 0x343), TrimWrite(1, 0x343), TrimWrite(2, 0x206), TrimWrite(3, 0x206), TrimWrite(4, 0x20F), TrimWrite(5, 0x20F),
    TrimWrite(6, 0x3F), TrimWrite(7, 0x3F), TrimWrite(8, 0xB), TrimWrite(2, 0x204), TrimWrite(3, 0x204), TrimWrite(4, 0x20C),
    TrimWrite(5, 0x20C), TrimWrite(6, 0x2D), TrimWrite(7, 0x2D), TrimWrite(4, 0x204), TrimWrite(5, 0x204), TrimWrite(0, 0x743),
    TrimWrite(1, 0x743), TrimWrite(2, 0x604), TrimWrite(3, 0x604), TrimWrite(6, 0x22D), TrimWrite(7, 0x22D)]

  const HP_TO_LP_POST: seq<TrimWrite> := [TrimWrite(4, 0x604), TrimWrite(5, 0x604)]

  const LP_TO_HP_PRE: seq<TrimWrite> := [
    TrimWrite(2, 0x606), TrimWrite(3, 0x606), TrimWrite(4, 0x606), TrimWrite(5, 0x606), TrimWrite(6, 0x23F), TrimWrite(7, 0x23F),
    TrimWrite(4, 0x607), TrimWrite(5, 0x607), TrimWrite(4, 0x60F), TrimWrite(5, 0x60F), TrimWrite(4, 0x20F), TrimWrite(5, 0x20F)]

  const LP_TO_HP_POST: seq<TrimWrite> := [
    TrimWrite(0, 0x343), TrimWrite(1, 0x343), TrimWrite(2, 0x206), TrimWrite(3, 0x206), TrimWrite(6, 0x3F),
    TrimWrite(7, 0x3F), TrimWrite(8, 0xA), TrimWrite(0, 0x342), TrimWrite(1, 0x342), TrimWrite(2, 0x202),
    TrimWrite(3, 0x202), TrimWrite(4, 0x20B), TrimWrite(5, 0x20B), TrimWrite(6, 0x1B), TrimWrite(7, 0x1B)]

  function Written(t: Trims, writes: seq<TrimWrite>): Trims {
    if writes == [] then t
    else
      var last := writes[|writes| - 1];
      Written(t, writes[..|writes| - 1])[last.index := last.value]
  }

  // The last write to a register decides it; registers never written keep their value.
  lemma {:induction false} LastWriteWins(t: Trims, writes: seq<TrimWrite>, i: Index, k: int)
    requires -1 <= k < |writes|
    requires k >= 0 ==> writes[k].index == i
    requires forall j :: k < j < |writes| ==> writes[j].index != i
    ensures Written(t, writes)[i] == if k >= 0 then writes[k].value else t[i]
  {
    if writes != [] && k < |writes| - 1 {
      var rest := writes[..|writes| - 1];
      assert writes[|writes| - 1].index != i;
      LastWriteWins(t, rest, i, k);
    }
  }

  const LP_TRIMS: Trims := [0x743, 0x743, 0x604, 0x604, 0x604, 0x604, 0x22D, 0x22D, 0xB]
  const HP_TRIMS: Trims := [0x342, 0x342, 0x202, 0x202, 0x20B, 0x20B, 0x1B, 0x1B, 0xA]

  function TrimsFor(m: Mode): Trims { if m == HP then HP_TRIMS else LP_TRIMS }

  // Between the two tables of a switch: the whole first table is there.  Down it fixes every
  // register, up all but three.
  const DOWN_TRIMS: Trims := [0x743, 0x743, 0x604, 0x604, 0x204, 0x204, 0x22D, 0x22D, 0xB]

  predicate HalfwayUp(t: Trims) {
    t[2] == t[3] == 0x606 && t[4] == t[5] == 0x20F && t[6] == t[7] == 0x23F
  }

  predicate Halfway(t: Trims) { t == DOWN_TRIMS || HalfwayUp(t) }

  lemma LpTrimsReached(t: Trims)
    ensures Written(t, HP_TO_LP_PRE) == DOWN_TRIMS
    ensures Written(Written(t, HP_TO_LP_PRE), HP_TO_LP_POST) == LP_TRIMS
  {
    var p := Written(t, HP_TO_LP_PRE);
    LastWriteWins(t, HP_TO_LP_PRE, 0, 17);
    LastWriteWins(t, HP_TO_LP_PRE, 1, 18);
    LastWriteWins(t, HP_TO_LP_PRE, 2, 19);
    LastWriteWins(t, HP_TO_LP_PRE, 3, 20);
    LastWriteWins(t, HP_TO_LP_PRE, 4, 15);
    LastWriteWins(t, HP_TO_LP_PRE, 5, 16);
    LastWriteWins(t, HP_TO_LP_PRE, 6, 21);
    LastWriteWins(t, HP_TO_LP_PRE, 7, 22);
    LastWriteWins(t, HP_TO_LP_PRE, 8, 8);
    forall i: Index | i != 4 && i != 5 ensures Written(p, HP_TO_LP_POST)[i] == p[i] {
      LastWriteWins(p, HP_TO_LP_POST, i, -1);
    }
    LastWriteWins(p, HP_TO_LP_POST, 4, 0);
    LastWriteWins(p, HP_TO_LP_POST, 5, 1);
  }

  lemma HpTrimsReached(t: Trims)
    ensures HalfwayUp(Written(t, LP_TO_HP_PRE))
    ensures Written(Written(t, LP_TO_HP_PRE), LP_TO_HP_POST) == HP_TRIMS
  {
    var p := Written(t, LP_TO_HP_PRE);
    LastWriteWins(t, LP_TO_HP_PRE, 2, 0);
    LastWriteWins(t, LP_TO_HP_PRE, 3, 1);
    LastWriteWins(t, LP_TO_HP_PRE, 4, 10);
    LastWriteWins(t, LP_TO_HP_PRE, 5, 11);
    LastWriteWins(t, LP_TO_HP_PRE, 6, 4);
    LastWriteWins(t, LP_TO_HP_PRE, 7, 5);
    LastWriteWins(p, LP_TO_HP_POST, 0, 7);
    LastWriteWins(p, LP_TO_HP_POST, 1, 8);
    LastWriteWins(p, LP_TO_HP_POST, 2, 9);
    LastWriteWins(p, LP_TO_HP_POST, 3, 10);
    LastWriteWins(p, LP_TO_HP_POST, 4, 11);
    LastWriteWins(p, LP_TO_HP_POST, 5, 12);
    LastWriteWins(p, LP_TO_HP_POST, 6, 13);
    LastWriteWins(p, LP_TO_HP_POST, 7, 14);
    LastWriteWins(p, LP_TO_HP_POST, 8, 6);
  }

  // ---- Non-secure side ---------------------------------------------------------------

  predicate Supported(request: int) { request == Code(HP) || request == Code(LP) }

  predicate Effective(m: Mode, request: int) { Supported(request) && request != Code(m) }

  // The request got through to the partition's transition body.
  predicate Delivered(env: Env) { (env.spm == PSA_SUCCESS || env.late) && env.readOk }

  // The reply got back as well.
  predicate Succeeds(source: Mode, target: Mode, env: Env) {
    env.spm == PSA_SUCCESS && Delivered(env) && BuckEntered(source, target, env)
  }

  function Rc(m: Mode, request: int, env: Env): int {
    if !Supported(request) then (if request == Code(ULP) then ENOTSUP else EINVAL)
    else if request == Code(m) then 0
    else if Succeeds(m, FromCode(request), env) then 0 else EIO
  }

  function NextMode(m: Mode, request: int, env: Env): Mode {
    if Effective(m, request) && Rc(m, request, env) == 0 then FromCode(request) else m
  }

  function NextTrims(t: Trims, m: Mode, request: int, env: Env): Trims {
    if !Effective(m, request) then t
    else
      if Rc(m, request, env) == 0 then Written(Written(t, PreOf(m)), PostOf(m)) else Written(t, PreOf(m))
  }

  // The tables of the switch out of a mode.
  function PreOf(m: Mode): seq<TrimWrite> { if m == HP then HP_TO_LP_PRE else LP_TO_HP_PRE }

  function PostOf(m: Mode): seq<TrimWrite> { if m == HP then HP_TO_LP_POST else LP_TO_HP_POST }

  // The partition selects the target's buck profile before it asks whether the buck followed,
  // and does not select the old one again when it did not.
  function NextProfile(profile: Mode, m: Mode, request: int, env: Env): Mode {
    if Effective(m, request) && Delivered(env) then FromCode(request) else profile
  }

  function Plan(m: Mode, volt: Mode, request: int, env: Env): seq<Action> {
    if Effective(m, request) && Delivered(env) then TransPlan(volt, m, FromCode(request), env) else []
  }

  // What the secure side is asked for during one call.
  function Asks(m: Mode, request: int, env: Env): seq<(Mode, Mode)> {
    if Effective(m, request) && Delivered(env) then [(m, FromCode(request))] else []
  }

  // One event of either side, and whether interrupts were masked: a store to a trim register,
  // the call into the partition, or a hardware action of the partition.
  datatype Entry = Store(write: TrimWrite, masked: bool) | PsaCall(masked: bool) | Act(action: Action, masked: bool)

  function Stores(writes: seq<TrimWrite>, masked: bool): (e: seq<Entry>)
    ensures |e| == |writes| && forall i :: 0 <= i < |e| ==> e[i] == Store(writes[i], masked)
  {
    seq(|writes|, i requires 0 <= i < |writes| => Store(writes[i], masked))
  }

  function Acts(plan: seq<Action>, masked: bool): (e: seq<Entry>)
    ensures |e| == |plan| && forall i :: 0 <= i < |e| ==> e[i] == Act(plan[i], masked)
  {
    seq(|plan|, i requires 0 <= i < |plan| => Act(plan[i], masked))
  }

  // Everything that happens during one step, on both sides, in order.
  function StepTrace(pre: seq<TrimWrite>, plan: seq<Action>, post: seq<TrimWrite>): seq<Entry> {
    Stores(pre, true) + [PsaCall(true)] + Acts(plan, true) + Stores(post, true)
  }

  lemma StepTraceJoins(past: seq<Entry>, pre: seq<TrimWrite>, plan: seq<Action>, post: seq<TrimWrite>)
    ensures past + Stores(pre, true) + [PsaCall(true)] + Acts(plan, true) == past + StepTrace(pre, plan, [])
    ensures past + Stores(pre, true) + [PsaCall(true)] + Acts(plan, true) + Stores(post, true)
            == past + StepTrace(pre, plan, post)
  {
    hide Stores; hide Acts;
    assert Stores([], true) == [];
  }

  function CallTrace(m: Mode, volt: Mode, request: int, env: Env): seq<Entry> {
    if !Effective(m, request) then []
    else StepTrace(PreOf(m), Plan(m, volt, request, env), if Rc(m, request, env) == 0 then PostOf(m) else [])
  }

  class Manager {
    var mode: Mode
    var primask: bool
    const trims: array<nat>
    const secure: Partition
    ghost var trace: seq<Entry>

    ghost predicate Valid() reads this, secure, secure.board {
      trims.Length == TRIM_REGS && secure.Valid() && mode != ULP
    }

    constructor (secure: Partition, trims: array<nat>)
      requires secure.Valid() && trims.Length == TRIM_REGS
      ensures Valid() && this.secure == secure && this.trims == trims && mode == HP && !primask && trace == []
    {
      this.secure, this.trims, mode, primask, trace := secure, trims, HP, false, [];
    }

    // One store to SRSS_TRIM_RAM_CTL; interrupts must be masked.
    method WriteTrim(w: TrimWrite)
      requires trims.Length == TRIM_REGS && primask
      modifies trims, this`trace
      ensures trims[..] == old(trims[..])[w.index := w.value] && trace == old(trace) + [Store(w, true)]
    {
      trims[w.index] := w.value;
      trace := trace + [Store(w, primask)];
    }

    method ApplyTrimSeq(writes: seq<TrimWrite>)
      requires trims.Length == TRIM_REGS && primask
      modifies trims, this`trace
      ensures trims[..] == Written(old(trims[..]), writes) && trace == old(trace) + Stores(writes, true)
    {
      for i := 0 to |writes|
        invariant trims[..] == Written(old(trims[..]), writes[..i])
        invariant trace == old(trace) + Stores(writes[..i], true)
      {
        WriteTrim(writes[i]);
        assert writes[..i + 1][..i] == writes[..i];
      }
      assert writes[..|writes|] == writes;
    }

    // z_pm_switch_active_mode.
    method CallPartition(source: Mode, target: Mode, env: Env) returns (st: int, rc: int)
      requires Valid() && source != target && source != ULP && target != ULP
      modifies this`trace, secure, secure.board
      ensures trace == old(trace) + [PsaCall(old(primask))]
                       + Acts(if Delivered(env) then TransPlan(old(secure.board.volt), source, target, env) else [], old(primask))
      ensures Valid() && (st == PSA_SUCCESS && rc == 0 <==> Succeeds(source, target, env))
      ensures secure.asked == old(secure.asked) + if Delivered(env) then [(source, target)] else []
      ensures secure.board.history == old(secure.board.history)
              + if Delivered(env) then TransPlan(old(secure.board.volt), source, target, env) else []
      ensures secure.profile == if Delivered(env) then target else old(secure.profile)
      ensures secure.sramLdo == old(secure.sramLdo)
    {
      hide Exec; hide TransPlan;
      trace := trace + [PsaCall(primask)];
      if env.spm != PSA_SUCCESS && !env.late {
        return env.spm, 0;
      }
      ghost var before := |secure.board.history|;
      st, rc := secure.SwitchActiveMode(Msg(SWITCH_IN_SIZE, SWITCH_OUT_SIZE, Code(source), Code(target)), env);
      trace := trace + Acts(secure.board.history[before..], primask);
      if env.spm != PSA_SUCCESS {
        st := env.spm;
      }
    }

    // step_transition.
    method StepTransition(source: Mode, target: Mode, pre: seq<TrimWrite>, post: seq<TrimWrite>, env: Env) returns (rc: int)
      requires Valid() && source != target && source != ULP && target != ULP
      modifies this`primask, this`trace, trims, secure, secure.board
      ensures Valid() && primask == old(primask)
      ensures trace == old(trace) + StepTrace(
                pre, if Delivered(env) then TransPlan(old(secure.board.volt), source, target, env) else [],
                if rc == 0 then post else [])
      ensures rc == if Succeeds(source, target, env) then 0 else EIO
      ensures trims[..] == if rc == 0 then Written(Written(old(trims[..]), pre), post) else Written(old(trims[..]), pre)
      ensures secure.asked == old(secure.asked) + if Delivered(env) then [(source, target)] else []
      ensures secure.board.history == old(secure.board.history)
              + if Delivered(env) then TransPlan(old(secure.board.volt), source, target, env) else []
      ensures secure.profile == if Delivered(env) then target else old(secure.profile)
      ensures secure.sramLdo == old(secure.sramLdo)
    {
      hide Exec; hide TransPlan; hide Written; hide StepTrace;
      var key := primask;
      primask := true;
      var ok := MaskedStep(source, target, pre, post, env);
      primask := key;
      rc := if ok then 0 else EIO;
    }

    // step_transition with interrupts masked.
    method MaskedStep(source: Mode, target: Mode, pre: seq<TrimWrite>, post: seq<TrimWrite>, env: Env) returns (ok: bool)
      requires Valid() && primask && source != target && source != ULP && target != ULP
      modifies this`trace, trims, secure, secure.board
      ensures Valid() && ok == Succeeds(source, target, env)
      ensures trace == old(trace) + StepTrace(
                pre, if Delivered(env) then TransPlan(old(secure.board.volt), source, target, env) else [],
                if ok then post else [])
      ensures trims[..] == if ok then Written(Written(old(trims[..]), pre), post) else Written(old(trims[..]), pre)
      ensures secure.asked == old(secure.asked) + if Delivered(env) then [(source, target)] else []
      ensures secure.board.history == old(secure.board.history)
              + if Delivered(env) then TransPlan(old(secure.board.volt), source, target, env) else []
      ensures secure.profile == if Delivered(env) then target else old(secure.profile)
      ensures secure.sramLdo == old(secure.sramLdo)
    {
      hide Exec; hide TransPlan; hide Written; hide Stores; hide Acts; hide Succeeds; hide Delivered; hide StepTrace;
      ghost var plan := if Delivered(env) then TransPlan(secure.board.volt, source, target, env) else [];
      StepTraceJoins(trace, pre, plan, post);
      ApplyTrimSeq(pre);
      var st, s := CallPartition(source, target, env);
      ok := st == PSA_SUCCESS && s == 0;
      if ok {
        ApplyTrimSeq(post);
      }
    }

    /** pm_switch_to. */
    method SwitchTo(request: int, env: Env) returns (rc: int)
      requires Valid()
      modifies this, trims, secure, secure.board
      ensures Valid() && primask == old(primask)
      ensures rc == Rc(old(mode), request, env) && mode == NextMode(old(mode), request, env)
      ensures trims[..] == NextTrims(old(trims[..]), old(mode), request, env)
      ensures trace == old(trace) + CallTrace(old(mode), old(secure.board.volt), request, env)
      ensures secure.asked == old(secure.asked) + Asks(old(mode), request, env)
      ensures secure.board.history == old(secure.board.history) + Plan(old(mode), old(secure.board.volt), request, env)
      ensures secure.board.Now() == Exec(old(secure.board.Now()), Plan(old(mode), old(secure.board.volt), request, env))
      ensures secure.profile == NextProfile(old(secure.profile), old(mode), request, env)
      ensures secure.sramLdo == old(secure.sramLdo)
    {
      ExecAppend(secure.board.origin, secure.board.history, Plan(mode, secure.board.volt, request, env));
      hide Exec; hide TransPlan; hide Written; hide StepTrace;
      if request != Code(HP) && request != Code(LP) {
        return if request == Code(ULP) then ENOTSUP else EINVAL;
      }
      if request == Code(mode) {
        return 0;
      }
      if mode == HP {
        rc := StepTransition(HP, LP, HP_TO_LP_PRE, HP_TO_LP_POST, env);
      } else {
        rc := StepTransition(LP, HP, LP_TO_HP_PRE, LP_TO_HP_POST, env);
      }
      if rc == 0 {
        mode := FromCode(request);
      }
    }
  }

  // Each return code exactly when.
  lemma ReturnCodes(m: Mode, request: int, env: Env)
    requires m != ULP
    ensures var rc, works := Rc(m, request, env), env.spm == 0 && env.readOk && env.buckOk;
            && (rc == 0 <==> request == Code(m) || ((request == 1 || request == 2) && works))
            && (rc == -134 <==> request == 0)
            && (rc == -22 <==> request < 0 || request > 2)
            && (rc == -5 <==> (request == 1 || request == 2) && request != Code(m) && !works)
  {
  }

  // The handler's replies: each status exactly when, and what it wrote for the client.
  lemma HandlerReplies(msg: Msg, env: Env)
    ensures var (st, out) := HandlerReply(msg, env);
            var sized, known := msg.inSize >= 8 && msg.outSize >= 4, 0 <= msg.source <= 2 && 0 <= msg.target <= 2;
            && (st == -138 <==> msg.inSize >= 8 && msg.outSize < 4)
            && (st == -145 <==> sized && !env.readOk)
            && (st == -135 <==> msg.inSize < 8 || (sized && env.readOk && !known))
            && (st == 0 <==> sized && env.readOk && known)
            && (HandlerActs(msg, env) <==> st == 0 && msg.source != msg.target)
            && (out == -6 <==> HandlerActs(msg, env) && !BuckEntered(FromCode(msg.source), FromCode(msg.target), env))
            && (out == 0 || out == -6)
  {
  }

  // The secure side is asked exactly when an effective request gets to it, whether or not its
  // reply gets back.
  lemma AskedIff(m: Mode, request: int, env: Env)
    ensures Asks(m, request, env)
            == if (request == 1 || request == 2) && request != Code(m) && env.readOk && (env.spm == 0 || env.late)
               then [(m, FromCode(request))] else []
  {
  }

  // The edges of the ULP level: down, the SRAM LDO comes first, and nothing but the divider
  // moves when it fails; up, it comes last, when the supply has moved.
  lemma LdoEdges(volt: Mode, on: bool, env: Env)
    ensures LdoAfter(on, LP, ULP, env) == (env.ldoOk || on) && LdoAfter(on, ULP, LP, env) == (on && !BuckEntered(ULP, LP, env))
    ensures LdoAfter(on, HP, LP, env) == LdoAfter(on, LP, HP, env) == on
    ensures LdoAfter(on, HP, ULP, env) == LdoAfter(on, ULP, HP, env) == on
    ensures BuckEntered(LP, ULP, env) <==> env.ldoOk && env.buckOk
    ensures BuckEntered(ULP, LP, env) <==> env.buckOk && env.ldoOk
    ensures BuckEntered(HP, LP, env) == BuckEntered(LP, HP, env) == env.buckOk
    ensures BuckEntered(HP, ULP, env) == BuckEntered(ULP, HP, env) == env.buckOk
    ensures !env.ldoOk ==> TransPlan(volt, LP, ULP, env) == [Divide(8), Divide(6)]
    ensures env.buckOk && !env.ldoOk ==> TransPlan(volt, ULP, LP, env) == Climb(volt, LP)
  {
  }

  // The trim registers come in pairs, and both of a pair are always written together: an even
  // one, then the odd one behind it, with the same value.
  predicate PairedAt(writes: seq<TrimWrite>, k: nat)
    requires k < |writes|
  {
    var w := writes[k];
    w.index == 8 || if w.index % 2 == 0 then k + 1 < |writes| && writes[k + 1] == TrimWrite(w.index + 1, w.value)
                    else k > 0 && writes[k - 1] == TrimWrite(w.index - 1, w.value)
  }

  lemma TablesComeInPairs(k: nat)
    ensures k < |HP_TO_LP_PRE| ==> PairedAt(HP_TO_LP_PRE, k)
    ensures k < |HP_TO_LP_POST| ==> PairedAt(HP_TO_LP_POST, k)
    ensures k < |LP_TO_HP_PRE| ==> PairedAt(LP_TO_HP_PRE, k)
    ensures k < |LP_TO_HP_POST| ==> PairedAt(LP_TO_HP_POST, k)
  {
    DownPairs(k);
    UpPairs(k);
  }

  lemma DownPairs(k: nat)
    ensures k < |HP_TO_LP_PRE| ==> PairedAt(HP_TO_LP_PRE, k)
    ensures k < |HP_TO_LP_POST| ==> PairedAt(HP_TO_LP_POST, k)
  {
    if {
      case k < 8 =>
      case 8 <= k < 16 =>
      case k >= 16 =>
    }
  }

  lemma UpPairs(k: nat)
    ensures k < |LP_TO_HP_PRE| ==> PairedAt(LP_TO_HP_PRE, k)
    ensures k < |LP_TO_HP_POST| ==> PairedAt(LP_TO_HP_POST, k)
  {
    if {
      case k < 8 =>
      case k >= 8 =>
    }
  }

  // ---- One call ------------------------------------------------------------------------

  // The hardware in mode m; RRAM VMODE is never touched on this build.
  function Home(m: Mode, rram: Mode): Hw { Hw(m, DPLL_HZ, Hf0DivForMode(m), rram) }

  predicate Strayed(source: Mode, target: Mode, env: Env) {
    BuckRuns(source, target, env) && !env.buckOk && env.moved > 0
  }

  /** The partition's transition body between any two modes stays in spec at every step
      unless a failed step down moved the supply: then the rollback overclocks it. */
  lemma TransitionInSpecIff(source: Mode, target: Mode, rram: Mode, env: Env)
    requires source != target
    ensures InSpecThroughout(Home(source, rram), TransPlan(source, source, target, env))
            <==> !(Code(target) < Code(source) && Strayed(source, target, env))
  {
    var h := Home(source, rram);
    var walk := BuckWalk(source, source, target, env);
    if Code(target) < Code(source) {
      var slow := h.(div := Hf0DivForMode(target));
      var tail := if BuckEntered(source, target, env) then [] else [Divide(Hf0DivForMode(source))];
      ExecAppend(h, [Divide(Hf0DivForMode(target))] + walk, tail);
      ExecAppend(h, [Divide(Hf0DivForMode(target))], walk);
      ExecOne(h, Divide(Hf0DivForMode(target)));
      WalkFacts(slow, source, target, env);
      ExecOne(Exec(slow, walk), Divide(Hf0DivForMode(source)));
    } else {
      var tail := if BuckEntered(source, target, env) then [Divide(Hf0DivForMode(target))] else [];
      WalkFacts(h, source, target, env);
      ExecAppend(h, walk, tail);
      ExecOne(Exec(h, walk), Divide(Hf0DivForMode(target)));
    }
  }

  lemma WalkFacts(h: Hw, source: Mode, target: Mode, env: Env)
    requires h.volt == source != target && h.pathHz == DPLL_HZ
    requires h.div == Hf0DivForMode(if Code(target) < Code(source) then target else source)
    ensures var walk := BuckWalk(source, source, target, env);
            && InSpecThroughout(h, walk)
            && (exists v: Mode :: Exec(h, walk) == h.(volt := v))
            && (env.buckOk && BuckRuns(source, target, env) ==> Exec(h, walk) == h.(volt := target))
            && (Exec(h, walk) == h <==> walk == [])
            && (Code(target) < Code(source) && walk != [] ==> Code(Exec(h, walk).volt) < Code(source))
  {
    var walk := BuckWalk(source, source, target, env);
    if |walk| == 2 {
      ExecTwo(h, walk[0], walk[1]);
      ClimbArrives(h, target);
    } else if |walk| == 1 {
      ExecOne(h, walk[0]);
      assert Exec(h, walk) == h.(volt := walk[0].level);
    } else {
      assert Exec(h, walk) == h.(volt := source);
    }
  }

  // The partition did its work, but the call reports an error.
  predicate Unreported(source: Mode, target: Mode, env: Env) { env.spm != PSA_SUCCESS && BuckEntered(source, target, env) }

  /** Between HP and LP a call from home ends at the home of the reported mode unless
      the supply strayed or the success was not reported. */
  lemma CallFromHome(m: Mode, rram: Mode, request: int, env: Env)
    requires m != ULP
    ensures Effective(m, request) && Delivered(env)
            && (Strayed(m, FromCode(request), env) || Unreported(m, FromCode(request), env))
            <==> Exec(Home(m, rram), Plan(m, m, request, env)) != Home(NextMode(m, request, env), rram)
  {
    if Effective(m, request) && Delivered(env) {
      var target := FromCode(request);
      var h := Home(m, rram);
      var walk := BuckWalk(m, m, target, env);
      if Code(target) < Code(m) {
        var slow := h.(div := Hf0DivForMode(target));
        var tail := if BuckEntered(m, target, env) then [] else [Divide(Hf0DivForMode(m))];
        ExecAppend(h, [Divide(Hf0DivForMode(target))] + walk, tail);
        ExecAppend(h, [Divide(Hf0DivForMode(target))], walk);
        ExecOne(h, Divide(Hf0DivForMode(target)));
        WalkFacts(slow, m, target, env);
        ExecOne(Exec(slow, walk), Divide(Hf0DivForMode(m)));
      } else {
        var tail := if BuckEntered(m, target, env) then [Divide(Hf0DivForMode(target))] else [];
        WalkFacts(h, m, target, env);
        ExecAppend(h, walk, tail);
        ExecOne(Exec(h, walk), Divide(Hf0DivForMode(target)));
      }
    }
  }

  /** A switch that has an effect leaves all nine trims at the table of the mode it ends
      in exactly when it succeeds; a failed one leaves a mixture that fits no mode. */
  lemma TrimsMatchIff(t: Trims, m: Mode, request: int, env: Env)
    requires m != ULP && Effective(m, request)
    ensures Rc(m, request, env) == 0 ==> NextTrims(t, m, request, env) == TrimsFor(FromCode(request))
    ensures Rc(m, request, env) != 0 ==> forall any: Mode :: NextTrims(t, m, request, env) != TrimsFor(any)
  {
    LpTrimsReached(t);
    HpTrimsReached(t);
    var t' := NextTrims(t, m, request, env);
    if Rc(m, request, env) != 0 {
      assert forall any: Mode :: TrimsFor(any)[4] != t'[4];
    }
  }

  // Wherever earlier failures left the machine, success fixes divider, supply, buck profile,
  // trims and mode.
  lemma SuccessIsCanonical(t: Trims, profile: Mode, m: Mode, h: Hw, request: int, env: Env)
    requires m != ULP && Effective(m, request) && Rc(m, request, env) == 0
    ensures var target := FromCode(request);
            && Exec(h, Plan(m, h.volt, request, env)) == h.(volt := target, div := Hf0DivForMode(target))
            && NextTrims(t, m, request, env) == TrimsFor(target)
            && NextProfile(profile, m, request, env) == target
            && NextMode(m, request, env) == target
  {
    TrimsMatchIff(t, m, request, env);
    var target := FromCode(request);
    var first := Divide(Hf0DivForMode(target));
    var walk := Climb(h.volt, target);
    if Code(target) < Code(m) {
      ExecAppend(h, [first], walk);
      ExecOne(h, first);
      ClimbArrives(h.(div := Hf0DivForMode(target)), target);
      assert [first] + walk + [] == [first] + walk;
    } else {
      ExecAppend(h, walk, [first]);
      ClimbArrives(h, target);
      ExecOne(h.(volt := target), first);
    }
  }

  // ---- Whole runs ------------------------------------------------------------------------

  datatype Call = Call(request: int, env: Env)
  datatype State = State(mode: Mode, profile: Mode, trims: Trims, hw: Hw)

  function Step(s: State, c: Call): State {
    State(NextMode(s.mode, c.request, c.env), NextProfile(s.profile, s.mode, c.request, c.env),
          NextTrims(s.trims, s.mode, c.request, c.env), Exec(s.hw, Plan(s.mode, s.hw.volt, c.request, c.env)))
  }

  function Run(s: State, calls: seq<Call>): State
    decreases |calls|
  {
    if calls == [] then s else Run(Step(s, calls[0]), calls[1..])
  }

  function RunPlan(s: State, calls: seq<Call>): seq<Action>
    decreases |calls|
  {
    if calls == [] then []
    else Plan(s.mode, s.hw.volt, calls[0].request, calls[0].env) + RunPlan(Step(s, calls[0]), calls[1..])
  }

  function RunAsks(s: State, calls: seq<Call>): seq<(Mode, Mode)>
    decreases |calls|
  {
    if calls == [] then []
    else Asks(s.mode, calls[0].request, calls[0].env) + RunAsks(Step(s, calls[0]), calls[1..])
  }

  // The contract of CoreBuckStatus: failure leaves the supply at the source level.
  predicate SupplyHeld(calls: seq<Call>) {
    forall k :: 0 <= k < |calls| ==> calls[k].env.buckOk || calls[k].env.moved == 0
  }

  // The contract of psa_call: its own errors come before the handler.
  predicate NoneLate(calls: seq<Call>) {
    forall k :: 0 <= k < |calls| ==> calls[k].env.spm == PSA_SUCCESS || !calls[k].env.late
  }

  predicate OnlyHpLp(asks: seq<(Mode, Mode)>) {
    forall k :: 0 <= k < |asks| ==> asks[k] == (HP, LP) || asks[k] == (LP, HP)
  }

  /** Over every run of requests with buck and psa_call keeping their contracts: the envelope
      holds at every hardware step, divider and supply are those of the non-secure side's mode
      between calls, and the partition is only ever asked for HP->LP and LP->HP. */
  lemma {:induction false} RunsAreSafe(s: State, rram: Mode, calls: seq<Call>)
    requires s.mode != ULP && s.hw == Home(s.mode, rram) && SupplyHeld(calls) && NoneLate(calls)
    ensures InSpecThroughout(s.hw, RunPlan(s, calls))
    ensures Run(s, calls).hw == Home(Run(s, calls).mode, rram) && Run(s, calls).mode != ULP
    ensures OnlyHpLp(RunAsks(s, calls))
    decreases |calls|
  {
    if calls != [] {
      var c := calls[0];
      CallFromHome(s.mode, rram, c.request, c.env);
      if Effective(s.mode, c.request) {
        TransitionInSpecIff(s.mode, FromCode(c.request), rram, c.env);
      }
      RunsAreSafe(Step(s, c), rram, calls[1..]);
      ExecAppend(s.hw, Plan(s.mode, s.hw.volt, c.request, c.env), RunPlan(Step(s, c), calls[1..]));
    }
  }

  // ---- Both sides in one order --------------------------------------------------------------

  // What a trace makes of trims and hardware.
  function TrimsAfter(t: Trims, trace: seq<Entry>): Trims {
    if trace == [] then t
    else
      var e, before := trace[|trace| - 1], TrimsAfter(t, trace[..|trace| - 1]);
      if e.Store? then before[e.write.index := e.write.value] else before
  }

  function ActionsOf(trace: seq<Entry>): seq<Action> {
    if trace == [] then []
    else
      var e := trace[|trace| - 1];
      ActionsOf(trace[..|trace| - 1]) + if e.Act? then [e.action] else []
  }

  // Divider and supply move only with interrupts masked and the trims halfway.
  ghost predicate Guarded(t: Trims, trace: seq<Entry>) {
    forall k :: 0 <= k < |trace| ==> trace[k].masked && (trace[k].Act? ==> Halfway(TrimsAfter(t, trace[..k])))
  }

  lemma {:induction false} TrimsAppend(t: Trims, a: seq<Entry>, b: seq<Entry>)
    ensures TrimsAfter(t, a + b) == TrimsAfter(TrimsAfter(t, a), b)
    ensures ActionsOf(a + b) == ActionsOf(a) + ActionsOf(b)
  {
    if b == [] {
      assert a + b == a;
    } else {
      assert (a + b)[..|a + b| - 1] == a + b[..|b| - 1];
      TrimsAppend(t, a, b[..|b| - 1]);
    }
  }

  lemma {:induction false} StoresAre(t: Trims, writes: seq<TrimWrite>)
    ensures TrimsAfter(t, Stores(writes, true)) == Written(t, writes) && ActionsOf(Stores(writes, true)) == []
  {
    if writes != [] {
      var n := |writes| - 1;
      assert Stores(writes, true)[..n] == Stores(writes[..n], true);
      StoresAre(t, writes[..n]);
    }
  }

  lemma {:induction false} ActsAre(t: Trims, plan: seq<Action>)
    ensures TrimsAfter(t, Acts(plan, true)) == t && ActionsOf(Acts(plan, true)) == plan
  {
    if plan != [] {
      var n := |plan| - 1;
      assert Acts(plan, true)[..n] == Acts(plan[..n], true);
      ActsAre(t, plan[..n]);
      assert plan == plan[..n] + [plan[n]];
    }
  }

  lemma CallIs(t: Trims)
    ensures TrimsAfter(t, [PsaCall(true)]) == t && ActionsOf([PsaCall(true)]) == []
  {
    assert [PsaCall(true)][..0] == [];
  }

  lemma {:induction false} GuardedAppend(t: Trims, a: seq<Entry>, b: seq<Entry>)
    requires Guarded(t, a) && Guarded(TrimsAfter(t, a), b)
    ensures Guarded(t, a + b)
  {
    hide Halfway;
    forall k | 0 <= k < |a + b|
      ensures (a + b)[k].masked && ((a + b)[k].Act? ==> Halfway(TrimsAfter(t, (a + b)[..k])))
    {
      if k < |a| {
        assert (a + b)[..k] == a[..k];
      } else {
        assert (a + b)[..k] == a + b[..k - |a|];
        TrimsAppend(t, a, b[..k - |a|]);
      }
    }
  }

  lemma StoresAreGuarded(t: Trims, writes: seq<TrimWrite>)
    ensures Guarded(t, Stores(writes, true)) && Guarded(t, [PsaCall(true)])
  {
    hide Halfway; hide TrimsAfter;
  }

  lemma ActsAreGuarded(t: Trims, plan: seq<Action>)
    requires Halfway(t)
    ensures Guarded(t, Acts(plan, true))
  {
    hide Halfway;
    forall k | 0 <= k < |plan| ensures Halfway(TrimsAfter(t, Acts(plan, true)[..k])) {
      assert Acts(plan, true)[..k] == Acts(plan[..k], true);
      ActsAre(t, plan[..k]);
    }
  }

  lemma PreIsHalfway(t: Trims, m: Mode)
    ensures Halfway(Written(t, PreOf(m)))
  {
    hide Written;
    LpTrimsReached(t);
    HpTrimsReached(t);
  }

  /** One call's trace is the call: its stores make the trims, its actions are the partition's,
      and every action comes after the whole first table and before the second, masked. */
  lemma TraceIsTheCall(t: Trims, m: Mode, volt: Mode, request: int, env: Env)
    ensures var trace := CallTrace(m, volt, request, env);
            && TrimsAfter(t, trace) == NextTrims(t, m, request, env)
            && ActionsOf(trace) == Plan(m, volt, request, env)
            && Guarded(t, trace)
  {
    hide Halfway; hide TransPlan; hide Guarded; hide Written; hide Delivered; hide Rc;
    if Effective(m, request) {
      var plan, post := Plan(m, volt, request, env), if Rc(m, request, env) == 0 then PostOf(m) else [];
      PreIsHalfway(t, m);
      StepTraceIs(t, PreOf(m), plan, post);
      WrittenNothing(NextTrims(t, m, request, env));
    } else {
      NothingIsGuarded(t);
    }
  }

  lemma WrittenNothing(t: Trims)
    ensures Written(t, []) == t
  {
  }

  lemma NothingIsGuarded(t: Trims)
    ensures Guarded(t, [])
  {
  }

  lemma StepTraceIs(t: Trims, pre: seq<TrimWrite>, plan: seq<Action>, post: seq<TrimWrite>)
    requires Halfway(Written(t, pre))
    ensures var trace := StepTrace(pre, plan, post);
            && TrimsAfter(t, trace) == Written(Written(t, pre), post)
            && ActionsOf(trace) == plan
            && Guarded(t, trace)
  {
    hide Halfway; hide Guarded; hide Written; hide TrimsAfter; hide ActionsOf; hide Stores; hide Acts;
    var mid := Written(t, pre);
    var a, b, c, d := Stores(pre, true), [PsaCall(true)], Acts(plan, true), Stores(post, true);
    StoresAre(t, pre);
    CallIs(mid);
    ActsAre(mid, plan);
    StoresAre(mid, post);
    TrimsAppend(t, a, b);
    TrimsAppend(t, a + b, c);
    TrimsAppend(t, a + b + c, d);
    StoresAreGuarded(t, pre);
    StoresAreGuarded(mid, post);
    ActsAreGuarded(mid, plan);
    GuardedAppend(t, a, b);
    GuardedAppend(t, a + b, c);
    GuardedAppend(t, a + b + c, d);
  }

  function RunTrace(s: State, calls: seq<Call>): seq<Entry>
    decreases |calls|
  {
    if calls == [] then []
    else CallTrace(s.mode, s.hw.volt, calls[0].request, calls[0].env) + RunTrace(Step(s, calls[0]), calls[1..])
  }

  /** Over every run, failures included: the two sides' work in one order.  Replaying the stores
      gives the trims, replaying the actions the hardware; every store, every call and every
      action happens with interrupts masked, and divider and supply only ever move after a
      whole first table has been written and before the second is begun. */
  lemma {:induction false} TraceIsTheRun(s: State, calls: seq<Call>)
    ensures TrimsAfter(s.trims, RunTrace(s, calls)) == Run(s, calls).trims
    ensures ActionsOf(RunTrace(s, calls)) == RunPlan(s, calls)
    ensures Guarded(s.trims, RunTrace(s, calls))
    decreases |calls|
  {
    hide Guarded; hide CallTrace; hide Plan; hide NextTrims; hide Exec;
    if calls == [] {
      NothingIsGuarded(s.trims);
    } else {
      var c := calls[0];
      var first, rest := CallTrace(s.mode, s.hw.volt, c.request, c.env), RunTrace(Step(s, c), calls[1..]);
      TraceIsTheCall(s.trims, s.mode, s.hw.volt, c.request, c.env);
      TraceIsTheRun(Step(s, c), calls[1..]);
      TrimsAppend(s.trims, first, rest);
      GuardedAppend(s.trims, first, rest);
    }
  }

  // How the latest call of a kind ended, if there was one.
  datatype Last = Untouched | Fine | Failed

  // The kinds: every call with an effect, or only those that reached the partition.
  predicate Counts(s: State, c: Call, delivered: bool) {
    Effective(s.mode, c.request) && (delivered ==> Delivered(c.env))
  }

  function LastOutcome(s: State, calls: seq<Call>, delivered: bool): Last
    decreases |calls|
  {
    if calls == [] then Untouched
    else
      match LastOutcome(Step(s, calls[0]), calls[1..], delivered)
      case Untouched =>
        if !Counts(s, calls[0], delivered) then Untouched
        else if Rc(s.mode, calls[0].request, calls[0].env) == 0 then Fine else Failed
      case other => other
  }

  /** Over every run: the SRAM trims fit the current mode exactly when the latest switch
      that had an effect succeeded (or nothing has touched trims that fitted). */
  lemma TrimsFitIff(s: State, calls: seq<Call>)
    requires s.mode != ULP && s.trims == TrimsFor(s.mode)
    ensures Run(s, calls).trims == TrimsFor(Run(s, calls).mode) <==> LastOutcome(s, calls, false) != Failed
  {
    RunTrims(s, calls);
  }

  lemma {:induction false} RunTrims(s: State, calls: seq<Call>)
    requires s.mode != ULP
    ensures match LastOutcome(s, calls, false)
            case Untouched => Run(s, calls).trims == s.trims && Run(s, calls).mode == s.mode
            case Fine => Run(s, calls).trims == TrimsFor(Run(s, calls).mode)
            case Failed => forall any: Mode :: Run(s, calls).trims != TrimsFor(any)
    decreases |calls|
  {
    if calls != [] {
      var c := calls[0];
      hide Exec;
      hide Plan;
      RunTrims(Step(s, c), calls[1..]);
      if Effective(s.mode, c.request) {
        TrimsMatchIff(s.trims, s.mode, c.request, c.env);
      }
    }
  }

  /** Over every run: the buck profile fits the current mode exactly when the latest switch
      that reached the partition succeeded. */
  lemma ProfileFitsIff(s: State, calls: seq<Call>)
    requires s.mode != ULP && s.profile == s.mode
    ensures Run(s, calls).profile == Run(s, calls).mode <==> LastOutcome(s, calls, true) != Failed
  {
    RunProfile(s, calls);
  }

  lemma {:induction false} RunProfile(s: State, calls: seq<Call>)
    requires s.mode != ULP
    ensures match LastOutcome(s, calls, true)
            case Untouched => Run(s, calls).profile == s.profile && Run(s, calls).mode == s.mode
            case Fine => Run(s, calls).profile == Run(s, calls).mode
            case Failed => Run(s, calls).profile != Run(s, calls).mode
    decreases |calls|
  {
    if calls != [] {
      hide Exec;
      hide Plan;
      hide NextTrims;
      RunProfile(Step(s, calls[0]), calls[1..]);
    }
  }

  // ---- Whole runs, whatever the buck does ----------------------------------------------------

  // In spec on one of the two dividers.  Nothing is said about s_current_mode: a failed step may
  // have left the supply higher, and an unreported success the machine in the other mode.
  predicate Sound(m: Mode, h: Hw) {
    && m != ULP && h.volt != ULP && h.pathHz == DPLL_HZ && InSpec(h)
    && (h.div == Hf0DivForMode(HP) || h.div == Hf0DivForMode(LP))
  }

  // A delivered step down that failed with the supply down: the rollback overclocks it.
  predicate Undercuts(m: Mode, volt: Mode, request: int, env: Env) {
    m == HP && request == Code(LP) && Delivered(env) && !env.buckOk && (env.moved > 0 || volt == LP)
  }

  lemma CallInSpecIff(m: Mode, h: Hw, request: int, env: Env)
    requires Sound(m, h)
    ensures InSpecThroughout(h, Plan(m, h.volt, request, env)) <==> !Undercuts(m, h.volt, request, env)
    ensures !Undercuts(m, h.volt, request, env) ==>
              Sound(NextMode(m, request, env), Exec(h, Plan(m, h.volt, request, env)))
  {
    if Effective(m, request) && Delivered(env) {
      if m == HP {
        DownInSpecIff(h, env);
      } else {
        UpIsSound(h, env);
      }
    }
  }

  lemma DownInSpecIff(h: Hw, env: Env)
    requires Sound(HP, h) && Delivered(env)
    ensures InSpecThroughout(h, TransPlan(h.volt, HP, LP, env)) <==> !Undercuts(HP, h.volt, Code(LP), env)
    ensures !Undercuts(HP, h.volt, Code(LP), env) ==> Sound(LP, Exec(h, TransPlan(h.volt, HP, LP, env)))
  {
    var walk := BuckWalk(h.volt, HP, LP, env);
    var slow := h.(div := Hf0DivForMode(LP));
    var tail := if env.buckOk then [] else [Divide(Hf0DivForMode(HP))];
    ExecAppend(h, [Divide(Hf0DivForMode(LP))] + walk, tail);
    ExecAppend(h, [Divide(Hf0DivForMode(LP))], walk);
    ExecOne(h, Divide(Hf0DivForMode(LP)));
    ShortWalk(slow, LP, walk);
    ExecOne(Exec(slow, walk), Divide(Hf0DivForMode(HP)));
  }

  lemma UpIsSound(h: Hw, env: Env)
    requires Sound(LP, h) && Delivered(env)
    ensures InSpecThroughout(h, TransPlan(h.volt, LP, HP, env)) && Sound(HP, Exec(h, TransPlan(h.volt, LP, HP, env)))
  {
    var walk := BuckWalk(h.volt, LP, HP, env);
    var tail := if env.buckOk then [Divide(Hf0DivForMode(HP))] else [];
    ExecAppend(h, walk, tail);
    ShortWalk(h, HP, walk);
    ExecOne(Exec(h, walk), Divide(Hf0DivForMode(HP)));
  }

  // Between LP and HP the walk is at most one step.
  lemma ShortWalk(h: Hw, target: Mode, walk: seq<Action>)
    requires h.volt != ULP && target != ULP && h.pathHz == DPLL_HZ
    requires walk == [] || (walk == [Volt(target)] && h.volt != target)
    ensures InSpec(h) && (walk == [] || target == HP || h.div == Hf0DivForMode(LP)) ==> InSpecThroughout(h, walk)
    ensures Exec(h, walk) == if walk == [] then h else h.(volt := target)
  {
    if walk != [] {
      ExecOne(h, Volt(target));
    }
  }

  predicate NeverUndercuts(s: State, calls: seq<Call>)
    decreases |calls|
  {
    calls == []
    || (!Undercuts(s.mode, s.hw.volt, calls[0].request, calls[0].env) && NeverUndercuts(Step(s, calls[0]), calls[1..]))
  }

  /** Every hardware step of every run is in spec exactly when no call of the run undercuts. */
  lemma {:induction false} RunInSpecIff(s: State, calls: seq<Call>)
    requires Sound(s.mode, s.hw)
    ensures InSpecThroughout(s.hw, RunPlan(s, calls)) <==> NeverUndercuts(s, calls)
    decreases |calls|
  {
    if calls != [] {
      var c := calls[0];
      CallInSpecIff(s.mode, s.hw, c.request, c.env);
      ExecAppend(s.hw, Plan(s.mode, s.hw.volt, c.request, c.env), RunPlan(Step(s, c), calls[1..]));
      if !Undercuts(s.mode, s.hw.volt, c.request, c.env) {
        RunInSpecIff(Step(s, c), calls[1..]);
      }
    }
  }
}
