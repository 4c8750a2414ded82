/** The capture script's command sequence: one loop is an Euler circuit over the six
    directed mode changes. */
module CommandLoop {
  import opened Soc
  import opened HfDivider
  import PllRetune

  const COMMANDS: seq<Mode> := [ULP, LP, ULP, HP, LP, HP]

  // Calls that send the commands in order, every one of them succeeding.
  predicate Drives(calls: seq<Call>) {
    forall i :: 0 <= i < |calls| ==> calls[i].request == Code(COMMANDS[i % 6]) && calls[i].env.ok
  }

  // How often a run takes the directed edge from a to b.
  function Taken(a: Mode, b: Mode, m: Mode, calls: seq<Call>): nat
    decreases |calls|
  {
    if calls == [] then 0
    else
      var m' := NextMode(m, calls[0].request, calls[0].env);
      (if m == a && m' == b && Effective(m, calls[0].request) then 1 else 0) + Taken(a, b, m', calls[1..])
  }

  predicate NeverIdle(m: Mode, calls: seq<Call>)
    decreases |calls|
  {
    calls == []
    || (Effective(m, calls[0].request) && NeverIdle(NextMode(m, calls[0].request, calls[0].env), calls[1..]))
  }

  lemma OneCommand(a: Mode, b: Mode, m: Mode, calls: seq<Call>, target: Mode)
    requires calls != [] && calls[0].request == Code(target) && calls[0].env.ok && m != target
    ensures Taken(a, b, m, calls) == (if (a, b) == (m, target) then 1 else 0) + Taken(a, b, target, calls[1..])
    ensures ModeAfter(m, calls) == ModeAfter(target, calls[1..])
    ensures NeverIdle(m, calls) <==> NeverIdle(target, calls[1..])
  {
  }

  lemma {:induction false} OneLoop(a: Mode, b: Mode, calls: seq<Call>)
    requires |calls| >= 6 && Drives(calls)
    ensures Taken(a, b, HP, calls) == (if a == b then 0 else 1) + Taken(a, b, HP, calls[6..])
    ensures ModeAfter(HP, calls) == ModeAfter(HP, calls[6..])
    ensures NeverIdle(HP, calls) <==> NeverIdle(HP, calls[6..])
  {
    assert forall k :: 0 <= k < 6 ==> calls[k..][0] == calls[k] && calls[k..][1..] == calls[k + 1..];
    OneCommand(a, b, HP, calls, ULP);
    OneCommand(a, b, ULP, calls[1..], LP);
    OneCommand(a, b, LP, calls[2..], ULP);
    OneCommand(a, b, ULP, calls[3..], HP);
    OneCommand(a, b, HP, calls[4..], LP);
    OneCommand(a, b, LP, calls[5..], HP);
  }

  /** However many loops are run, every directed edge is taken once per loop, no
      command is a no-op and the machine is back in HP. */
  lemma {:induction false} EveryEdgeOncePerLoop(loops: nat, calls: seq<Call>)
    requires |calls| == 6 * loops && Drives(calls)
    ensures forall a: Mode, b: Mode :: Taken(a, b, HP, calls) == if a == b then 0 else loops
    ensures NeverIdle(HP, calls) && ModeAfter(HP, calls) == HP
  {
    if loops > 0 {
      forall i | 0 <= i < |calls[6..]| ensures calls[6..][i].request == Code(COMMANDS[i % 6]) && calls[6..][i].env.ok {
        assert calls[6..][i] == calls[i + 6];
        assert (i + 6) % 6 == i % 6;
      }
      forall a: Mode, b: Mode
        ensures Taken(a, b, HP, calls) == (if a == b then 0 else 1) + Taken(a, b, HP, calls[6..])
      {
        OneLoop(a, b, calls);
      }
      OneLoop(HP, HP, calls);
      EveryEdgeOncePerLoop(loops - 1, calls[6..]);
    }
  }

  // ---- The same loop under PLL retune --------------------------------------------------

  // Calls that send the commands in order, every one of them succeeding with both relocks.
  predicate DrivesPll(calls: seq<PllRetune.Call>) {
    forall i :: 0 <= i < |calls| ==> calls[i].request == Code(COMMANDS[i % 6]) && Smooth(calls[i].env)
  }

  predicate Smooth(env: PllRetune.Env) {
    env.ready && env.pre.Locks? && env.moved >= 2 && env.finishes && env.post.Locks? && env.verdict
  }

  // How many calls of a run take the core out of the envelope.
  function Overdriven(s: PllRetune.State, calls: seq<PllRetune.Call>): nat
    decreases |calls|
  {
    if calls == [] then 0
    else
      (if PllRetune.Overdrives(s.mode, s.hw.volt, calls[0].request, calls[0].env) then 1 else 0)
      + Overdriven(PllRetune.Step(s, calls[0]), calls[1..])
  }

  function PllHome(m: Mode): PllRetune.State { PllRetune.State(m, Hw(m, PllRetune.FinalHz(m), 1, m)) }

  // The mode after k commands.
  function After(k: nat): Mode { if k == 0 then HP else COMMANDS[(k - 1) % 6] }

  lemma {:induction false} RunOneMore(s: PllRetune.State, calls: seq<PllRetune.Call>, c: PllRetune.Call)
    ensures PllRetune.Run(s, calls + [c]) == PllRetune.Step(PllRetune.Run(s, calls), c)
    decreases |calls|
  {
    if calls == [] {
      assert (calls + [c])[1..] == [];
    } else {
      assert (calls + [c])[1..] == calls[1..] + [c];
      RunOneMore(PllRetune.Step(s, calls[0]), calls[1..], c);
    }
  }

  /** After every command the machine is in that command's home state, and the next command
      names another mode: under PLL retune, too, no command is a no-op, and the modes run
      through the same circuit. */
  lemma {:induction false} PllFollowsTheCommands(calls: seq<PllRetune.Call>, k: nat)
    requires DrivesPll(calls) && k <= |calls|
    ensures PllRetune.Run(PllRetune.BOOT, calls[..k]) == PllHome(After(k))
    ensures k < |calls| ==> PllRetune.Effective(After(k), calls[k].request)
  {
    hide After; hide PllRetune.Run; hide PllRetune.Step; hide PllHome;
    AfterCommands(k);
    if k > 0 {
      PllFollowsTheCommands(calls, k - 1);
      assert calls[..k] == calls[..k - 1] + [calls[k - 1]];
      RunOneMore(PllRetune.BOOT, calls[..k - 1], calls[k - 1]);
      AfterCommands(k - 1);
      OneStep(After(k - 1), calls[k - 1], After(k));
    } else {
      BootIsHome(calls);
    }
  }

  lemma AfterCommands(k: nat)
    ensures After(0) == HP && After(k + 1) == COMMANDS[k % 6] != After(k)
  {
    Alternates(k);
  }

  lemma BootIsHome(calls: seq<PllRetune.Call>)
    ensures PllRetune.Run(PllRetune.BOOT, calls[..0]) == PllHome(HP)
  {
  }

  // A command that succeeds leads from one home to the next.
  lemma OneStep(m: Mode, c: PllRetune.Call, target: Mode)
    requires c.request == Code(target) && Smooth(c.env) && m != target
    ensures PllRetune.Step(PllHome(m), c) == PllHome(target)
  {
    PllRetune.SuccessIsCanonical(m, PllHome(m).hw, c.request, c.env);
  }

  lemma Alternates(k: nat)
    ensures After(k) != COMMANDS[k % 6]
  {
    if k > 0 {
      assert k % 6 == ((k - 1) % 6 + 1) % 6;
    }
  }

  lemma OnePllCommand(m: Mode, calls: seq<PllRetune.Call>, target: Mode)
    requires calls != [] && calls[0].request == Code(target) && Smooth(calls[0].env) && m != target
    ensures Overdriven(PllHome(m), calls)
            == (if m == ULP && target == HP then 1 else 0) + Overdriven(PllHome(target), calls[1..])
    ensures PllRetune.Run(PllHome(m), calls) == PllRetune.Run(PllHome(target), calls[1..])
  {
    OneStep(m, calls[0], target);
  }

  lemma {:induction false} OnePllLoop(calls: seq<PllRetune.Call>)
    requires |calls| >= 6 && DrivesPll(calls)
    ensures Overdriven(PllHome(HP), calls) == 1 + Overdriven(PllHome(HP), calls[6..])
    ensures PllRetune.Run(PllHome(HP), calls) == PllRetune.Run(PllHome(HP), calls[6..])
  {
    assert forall k :: 0 <= k < 6 ==> calls[k..][0] == calls[k] && calls[k..][1..] == calls[k + 1..];
    hide Overdriven;
    hide PllHome;
    OnePllCommand(HP, calls, ULP);
    OnePllCommand(ULP, calls[1..], LP);
    OnePllCommand(LP, calls[2..], ULP);
    OnePllCommand(ULP, calls[3..], HP);
    OnePllCommand(HP, calls[4..], LP);
    OnePllCommand(LP, calls[5..], HP);
  }

  /** Under PLL retune every loop takes ULP->HP once, so that L loops leave the envelope
      exactly L times although every command succeeds, and end where they began. */
  lemma {:induction false} PllLoopsOverdriveOncePerLoop(loops: nat, calls: seq<PllRetune.Call>)
    requires |calls| == 6 * loops && DrivesPll(calls)
    ensures Overdriven(PllRetune.BOOT, calls) == loops
    ensures PllRetune.Run(PllRetune.BOOT, calls) == PllRetune.BOOT
  {
    if loops > 0 {
      forall i | 0 <= i < |calls[6..]| ensures calls[6..][i].request == Code(COMMANDS[i % 6]) && Smooth(calls[6..][i].env) {
        assert calls[6..][i] == calls[i + 6];
        assert (i + 6) % 6 == i % 6;
      }
      OnePllLoop(calls);
      PllLoopsOverdriveOncePerLoop(loops - 1, calls[6..]);
    }
  }
}
