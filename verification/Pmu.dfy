/** The PMU driver: bit fields under read-modify-write refine a plain record, the P-state table
    a plain list, and initialization enables DVFS only when everything else is in place. */
module Pmu {

  import opened Wrappers

  const CTRL := 0x04
  const REQ := 0x08
  const STATUS := 0x0C
  const TABLE := 0x100

  const MAX_PSTATES := 10
  const EIO := 5
  const EINVAL := 22
  const ETIMEDOUT := 116


  // ---- DVFSCTRL as a record ------------------------------------------------------------

  // The masks are written out: 0x0000_0001 DVFSEN, 0x0000_0002 MODESEL, 0x0000_00F0 NUMSTATES,
  // 0x00FF_FF00 TRANSTIMEOUT, and 0xFF00_000C for the reserved bits.

  datatype Ctrl = Ctrl(enabled: bool, signal: bool, numStates: bv32, timeoutUs: bv32, reserved: bv32)

  predicate Enabled(reg: bv32) { reg & 0x0000_0001 != 0 }

  predicate Signal(reg: bv32) { reg & 0x0000_0002 != 0 }

  function NumStates(reg: bv32): bv32 { (reg & 0x0000_00F0) >> 4 }

  function TimeoutUs(reg: bv32): bv32 { (reg & 0x00FF_FF00) >> 8 }

  function Reserved(reg: bv32): bv32 { reg & 0xFF00_000C }

  function Decode(reg: bv32): Ctrl { Ctrl(Enabled(reg), Signal(reg), NumStates(reg), TimeoutUs(reg), Reserved(reg)) }

  // The record is all of the register.
  lemma DecodeIsFaithful(a: bv32, b: bv32)
    ensures Decode(a) == Decode(b) <==> a == b
  {
  }

  datatype Setter = SetNumStates(num: bv8) | SetTimeoutUs(us: bv16) | SetMode(signal: bool) | Enable(on: bool)

  predicate Rejected(s: Setter) { s.SetNumStates? && (s.num == 0 || s.num > 10) }

  function Rmw(reg: bv32, mask: bv32, val: bv32): bv32 { (reg & !mask) | (val & mask) }

  function Num32(num: bv8): bv32 { num as bv32 }

  function Extended(x: bv16): bv32 { x as bv32 }

  function NumField(num: bv8): bv32 { Num32(num) << 4 }

  function TimeoutField(us: bv16): bv32 { Extended(us) << 8 }

  // The bits under the mask are the new ones, the others stay.
  predicate Masked(before: bv32, after: bv32, mask: bv32, val: bv32) {
    after & mask == val & mask && after & !mask == before & !mask
  }

  lemma RmwUnderMask(reg: bv32, mask: bv32, val: bv32)
    ensures Masked(reg, Rmw(reg, mask, val), mask, val)
  {
    RmwBits(reg, mask, val);
    hide Rmw;
  }

  lemma RmwBits(reg: bv32, mask: bv32, val: bv32)
    ensures Rmw(reg, mask, val) & mask == val & mask && Rmw(reg, mask, val) & !mask == reg & !mask
  {
  }

  // The bits of a mask, or none.
  function When(mask: bv32, on: bool): bv32 { if on then mask else 0 }

  // What a setter does to the register.
  function OnReg(reg: bv32, s: Setter): bv32 {
    if Rejected(s) then reg
    else
      match s
      case SetNumStates(num) => Rmw(reg, 0x0000_00F0, NumField(num))
      case SetTimeoutUs(us) => Rmw(reg, 0x00FF_FF00, TimeoutField(us))
      case SetMode(signal) => Rmw(reg, 0x0000_0002, When(0x0000_0002, signal))
      case Enable(on) => Rmw(reg, 0x0000_0001, When(0x0000_0001, on))
  }

  // What it means: one field of the record, or nothing when the call is rejected.
  function OnRecord(c: Ctrl, s: Setter): Ctrl {
    if Rejected(s) then c
    else
      match s
      case SetNumStates(num) => c.(numStates := Num32(num))
      case SetTimeoutUs(us) => c.(timeoutUs := Extended(us))
      case SetMode(signal) => c.(signal := signal)
      case Enable(on) => c.(enabled := on)
  }

  // Each change under a mask reaches its own field and no other.
  lemma NumStatesOnly(reg: bv32, num: bv8)
    requires num <= 10
    ensures Decode(Rmw(reg, 0x0000_00F0, NumField(num))) == Decode(reg).(numStates := Num32(num))
  {
  }

  lemma TimeoutOnly(reg: bv32, us: bv16)
    ensures Decode(Rmw(reg, 0x00FF_FF00, TimeoutField(us))) == Decode(reg).(timeoutUs := Extended(us))
  {
  }

  lemma ModeOnly(reg: bv32, on: bool)
    ensures Decode(Rmw(reg, 0x0000_0002, When(0x0000_0002, on))) == Decode(reg).(signal := on)
  {
    if on {
    } else {
    }
  }

  lemma EnableOnly(reg: bv32, on: bool)
    ensures Decode(Rmw(reg, 0x0000_0001, When(0x0000_0001, on))) == Decode(reg).(enabled := on)
  {
    if on {
    } else {
    }
  }

  lemma SetterRefines(reg: bv32, s: Setter)
    ensures Decode(OnReg(reg, s)) == OnRecord(Decode(reg), s)
  {
    hide Rmw; hide Decode; hide NumField; hide TimeoutField; hide Num32; hide Extended;
    if !Rejected(s) {
      match s {
        case SetNumStates(num) => NumStatesOnly(reg, num);
        case SetTimeoutUs(us) => TimeoutOnly(reg, us);
        case SetMode(signal) => ModeOnly(reg, signal);
        case Enable(on) => EnableOnly(reg, on);
      }
    }
  }

  // The value sits where the register map has it: DVFSEN in bit 0, MODESEL in bit 1,
  // NUMSTATES from bit 4 on, TRANSTIMEOUT from bit 8 on.
  predicate ReadsBack(reg: bv32, s: Setter) {
    match s
    case SetNumStates(num) => NumStatesIs(reg, num)
    case SetTimeoutUs(us) => TimeoutIs(reg, us)
    case SetMode(signal) => ModeIs(reg, signal)
    case Enable(on) => EnableIs(reg, on)
  }

  predicate NumStatesIs(reg: bv32, num: bv8) { (reg >> 4) & 0xF == num as bv32 }

  predicate TimeoutIs(reg: bv32, us: bv16) { (reg >> 8) & 0xFFFF == us as bv32 }

  predicate ModeIs(reg: bv32, signal: bool) { (reg >> 1) & 1 == if signal then 1 else 0 }

  predicate EnableIs(reg: bv32, on: bool) { reg & 1 == if on then 1 else 0 }

  lemma SetterReadsBack(reg: bv32, s: Setter)
    requires !Rejected(s)
    ensures ReadsBack(OnReg(reg, s), s)
  {
    hide Rmw; hide NumField; hide TimeoutField; hide When; hide NumStatesIs; hide TimeoutIs; hide ModeIs; hide EnableIs;
    match s
    case SetNumStates(num) => NumStatesBack(reg, num);
    case SetTimeoutUs(us) => TimeoutBack(reg, us);
    case SetMode(signal) => ModeBack(reg, signal);
    case Enable(on) => EnableBack(reg, on);
  }

  lemma NumStatesBack(reg: bv32, num: bv8)
    requires num <= 10
    ensures NumStatesIs(Rmw(reg, 0x0000_00F0, NumField(num)), num)
  {
  }

  lemma TimeoutBack(reg: bv32, us: bv16)
    ensures TimeoutIs(Rmw(reg, 0x00FF_FF00, TimeoutField(us)), us)
  {
  }

  lemma ModeBack(reg: bv32, signal: bool)
    ensures ModeIs(Rmw(reg, 0x0000_0002, When(0x0000_0002, signal)), signal)
  {
    if signal {
    } else {
    }
  }

  lemma EnableBack(reg: bv32, on: bool)
    ensures EnableIs(Rmw(reg, 0x0000_0001, When(0x0000_0001, on)), on)
  {
    if on {
    } else {
    }
  }

  predicate SameField(a: Setter, b: Setter) {
    match a
    case SetNumStates(_) => b.SetNumStates?
    case SetTimeoutUs(_) => b.SetTimeoutUs?
    case SetMode(_) => b.SetMode?
    case Enable(_) => b.Enable?
  }

  lemma RecordsCommute(c: Ctrl, a: Setter, b: Setter)
    ensures !SameField(a, b) ==> OnRecord(OnRecord(c, a), b) == OnRecord(OnRecord(c, b), a)
    ensures SameField(a, b) && !Rejected(b) ==> OnRecord(OnRecord(c, a), b) == OnRecord(c, b)
  {
    hide Num32; hide Extended;
  }

  // Calls on different fields commute; of two accepted calls on one field the later counts.
  lemma SettersCommute(reg: bv32, a: Setter, b: Setter)
    ensures !SameField(a, b) ==> OnReg(OnReg(reg, a), b) == OnReg(OnReg(reg, b), a)
    ensures SameField(a, b) && !Rejected(b) ==> OnReg(OnReg(reg, a), b) == OnReg(reg, b)
  {
    hide Decode; hide OnReg; hide OnRecord; hide Rejected; hide SameField;
    RecordsCommute(Decode(reg), a, b);
    SetterRefines(reg, a);
    SetterRefines(reg, b);
    SetterRefines(OnReg(reg, a), b);
    SetterRefines(OnReg(reg, b), a);
    DecodeIsFaithful(OnReg(OnReg(reg, a), b), OnReg(OnReg(reg, b), a));
    DecodeIsFaithful(OnReg(OnReg(reg, a), b), OnReg(reg, b));
  }

  // ---- Table entries -------------------------------------------------------------------

  datatype Entry = Entry(freqMhz: bv16, voltageMv: bv16)

  function Word(e: Entry): bv32 { ((e.voltageMv as bv32) << 16) | ((e.freqMhz as bv32) & 0xFFFF) }

  function EntryOf(word: bv32): Entry { Entry((word & 0xFFFF) as bv16, ((word & 0xFFFF_0000) >> 16) as bv16) }

  // Frequency in the low half, voltage in the high half.
  lemma EntryLayout(e: Entry)
    ensures Word(e) & 0xFFFF == e.freqMhz as bv32 && Word(e) >> 16 == e.voltageMv as bv32
  {
  }

  lemma EntriesSurvive(e: Entry, word: bv32)
    ensures EntryOf(Word(e)) == e && Word(EntryOf(word)) == word
  {
  }

  // ---- The register block --------------------------------------------------------------

  datatype Write = Write(offset: nat, val: bv32)

  function At(regs: map<nat, bv32>, offset: nat): bv32 { if offset in regs then regs[offset] else 0 }

  // The control and request registers and the ten table entries keep what is written.
  predicate Stored(offset: nat) {
    offset == CTRL || offset == REQ || (TABLE <= offset < TABLE + 4 * MAX_PSTATES && offset % 4 == 0)
  }

  // The hardware's side: in DVFSSTATUS the ERROR bit clears where a one is written; voltage
  // and frequency are read-only, and the rest of the window is reserved.
  function AfterWrite(regs: map<nat, bv32>, w: Write): map<nat, bv32> {
    if Stored(w.offset) then regs[w.offset := w.val]
    else if w.offset == STATUS then regs[STATUS := At(regs, STATUS) & !(w.val & 0x0000_0200)]
    else regs
  }

  function AfterWrites(regs: map<nat, bv32>, ws: seq<Write>): map<nat, bv32> {
    if ws == [] then regs else AfterWrite(AfterWrites(regs, ws[..|ws| - 1]), ws[|ws| - 1])
  }

  lemma {:induction false} WritesAppend(regs: map<nat, bv32>, a: seq<Write>, b: seq<Write>)
    ensures AfterWrites(regs, a + b) == AfterWrites(AfterWrites(regs, a), b)
  {
    if b == [] {
      assert a + b == a;
    } else {
      assert (a + b)[..|a + b| - 1] == a + b[..|b| - 1];
      WritesAppend(regs, a, b[..|b| - 1]);
    }
  }

  // ---- The device as a record ----------------------------------------------------------

  datatype View = View(ctrl: Ctrl, target: bv32, table: seq<Entry>)

  function ViewOf(regs: map<nat, bv32>): (v: View)
    ensures |v.table| == MAX_PSTATES
  {
    View(Decode(At(regs, CTRL)), At(regs, REQ), seq(MAX_PSTATES, i requires 0 <= i => EntryOf(At(regs, TABLE + 4 * i))))
  }

  datatype Call = Field(s: Setter) | SetEntry(idx: nat, e: Entry) | Request(target: bv8) | ClearError

  predicate Refused(c: Call) {
    match c
    case Field(s) => Rejected(s)
    case SetEntry(idx, _) => idx >= MAX_PSTATES
    case Request(idx) => idx >= 10
    case ClearError => false
  }

  // The writes of one API call, given the registers it finds.
  function Writes(regs: map<nat, bv32>, c: Call): seq<Write> {
    if Refused(c) then []
    else
      match c
      case Field(s) => [Write(CTRL, OnReg(At(regs, CTRL), s))]
      case SetEntry(idx, e) => [Write(TABLE + 4 * idx, Word(e))]
      case Request(idx) => [Write(REQ, Target(idx))]
      case ClearError => [Write(STATUS, 0x0000_0200)]
  }

  function Target(idx: bv8): bv32 { (idx as bv32) & 0xF }

  lemma TargetIsTheIndex(idx: bv8)
    requires idx < 10
    ensures Target(idx) == Num32(idx) == idx as bv32
  {
  }

  function OnRegs(regs: map<nat, bv32>, c: Call): map<nat, bv32> { AfterWrites(regs, Writes(regs, c)) }

  function OnView(v: View, c: Call): View
    requires |v.table| == MAX_PSTATES
  {
    if Refused(c) then v
    else
      match c
      case Field(s) => v.(ctrl := OnRecord(v.ctrl, s))
      case SetEntry(idx, e) => v.(table := v.table[idx := e])
      case Request(idx) => v.(target := Num32(idx))
      case ClearError => v
  }

  lemma Nothing(regs: map<nat, bv32>)
    ensures AfterWrites(regs, []) == regs
  {
  }

  lemma OneWrite(regs: map<nat, bv32>, w: Write)
    ensures AfterWrites(regs, [w]) == AfterWrite(regs, w)
  {
    assert [w][..0] == [];
  }

  // Each call changes its own part of the device, and a refused call changes nothing.
  lemma CallRefines(regs: map<nat, bv32>, c: Call)
    ensures ViewOf(OnRegs(regs, c)) == OnView(ViewOf(regs), c)
    ensures Refused(c) ==> OnRegs(regs, c) == regs
  {
    if Refused(c) {
      Nothing(regs);
    } else {
      hide Decode; hide OnReg; hide OnRecord; hide EntryOf; hide Word; hide Target; hide ViewOf; hide AfterWrites; hide At;
      OneWrite(regs, Writes(regs, c)[0]);
      match c {
        case Field(s) =>
          SetterRefines(At(regs, CTRL), s);
          OtherWritesSeen(regs, OnReg(At(regs, CTRL), s));
        case SetEntry(idx, e) =>
          EntriesSurvive(e, 0);
          TableWriteSeen(regs, idx, Word(e));
        case Request(idx) =>
          TargetIsTheIndex(idx);
          OtherWritesSeen(regs, Target(idx));
        case ClearError => OtherWritesSeen(regs, At(regs, STATUS) & !(0x0000_0200 as bv32));
      }
    }
  }

  lemma TableWriteSeen(regs: map<nat, bv32>, idx: nat, val: bv32)
    requires idx < MAX_PSTATES
    ensures ViewOf(regs[TABLE + 4 * idx := val]) == ViewOf(regs).(table := ViewOf(regs).table[idx := EntryOf(val)])
  {
    hide Decode; hide EntryOf;
    assert ViewOf(regs[TABLE + 4 * idx := val]).table == ViewOf(regs).table[idx := EntryOf(val)];
  }

  lemma OtherWritesSeen(regs: map<nat, bv32>, val: bv32)
    ensures ViewOf(regs[CTRL := val]) == ViewOf(regs).(ctrl := Decode(val))
    ensures ViewOf(regs[REQ := val]) == ViewOf(regs).(target := val)
    ensures ViewOf(regs[STATUS := val]) == ViewOf(regs)
    ensures Decode(At(regs, CTRL)) == ViewOf(regs).ctrl
  {
    hide Decode; hide EntryOf;
    assert ViewOf(regs[CTRL := val]).table == ViewOf(regs).table;
    assert ViewOf(regs[REQ := val]).table == ViewOf(regs).table;
    assert ViewOf(regs[STATUS := val]).table == ViewOf(regs).table;
  }

  function RunRegs(regs: map<nat, bv32>, calls: seq<Call>): map<nat, bv32> {
    if calls == [] then regs else OnRegs(RunRegs(regs, calls[..|calls| - 1]), calls[|calls| - 1])
  }

  function RunView(v: View, calls: seq<Call>): (r: View)
    requires |v.table| == MAX_PSTATES
    ensures |r.table| == MAX_PSTATES
  {
    if calls == [] then v else OnView(RunView(v, calls[..|calls| - 1]), calls[|calls| - 1])
  }

  // Under any sequence of calls the registers are the record.
  lemma {:induction false} RunRefines(regs: map<nat, bv32>, calls: seq<Call>)
    ensures ViewOf(RunRegs(regs, calls)) == RunView(ViewOf(regs), calls)
  {
    hide ViewOf; hide OnRegs; hide OnView;
    if calls != [] {
      RunRefines(regs, calls[..|calls| - 1]);
      CallRefines(RunRegs(regs, calls[..|calls| - 1]), calls[|calls| - 1]);
    }
  }

  // ---- Initialization ------------------------------------------------------------------

  datatype Config = Config(numPstates: nat, timeoutUs: bv16, initEnable: bool, initPstate: nat, table: Option<seq<bv32>>)

  // Both counts are bytes.
  predicate Bytes(cfg: Config) { cfg.numPstates < 256 && cfg.initPstate < 256 }

  function Wide(n: nat): bv32
    requires n < 256
  {
    n as bv32
  }

  function Truncated(x: bv32): bv16 { (x & 0xFFFF) as bv16 }

  function Listed(table: seq<bv32>, i: nat): Entry
    requires 2 * i + 1 < |table|
  {
    Entry(Truncated(table[2 * i]), Truncated(table[2 * i + 1]))
  }

  function TableWrites(table: seq<bv32>, n: nat): (ws: seq<Write>)
    requires 2 * n <= |table|
    ensures |ws| == n
    ensures forall i :: 0 <= i < n ==> ws[i] == Write(TABLE + 4 * i, Word(Listed(table, i)))
  {
    if n == 0 then [] else TableWrites(table, n - 1) + [Write(TABLE + 4 * (n - 1), Word(Listed(table, n - 1)))]
  }

  // The timeout field when the state count spills over.
  function Spilled(us: bv32, num: bv32): bv32 { us | (num >> 4) }

  function Fields(num: bv32, us: bv16): bv32 { (num << 4) | TimeoutField(us) }

  function CtrlWord(cfg: Config): bv32
    requires Bytes(cfg)
  {
    Fields(Wide(cfg.numPstates), cfg.timeoutUs)
  }

  predicate TableFits(cfg: Config) { cfg.table.None? || |cfg.table.value| == 2 * cfg.numPstates }

  predicate CanEnable(cfg: Config) { cfg.table.Some? && cfg.initPstate < cfg.numPstates }

  function InitRc(cfg: Config): int {
    if !TableFits(cfg) || (cfg.initEnable && !CanEnable(cfg)) then -EINVAL else 0
  }

  // The writes before DVFS may be enabled.
  function QuietWrites(cfg: Config): seq<Write>
    requires Bytes(cfg)
  {
    [Write(CTRL, 0), Write(REQ, 0)]
    + if !TableFits(cfg) then []
      else (if cfg.table.None? then [] else TableWrites(cfg.table.value, cfg.numPstates)) + [Write(CTRL, CtrlWord(cfg))]
  }

  function InitWrites(cfg: Config): seq<Write>
    requires Bytes(cfg)
  {
    QuietWrites(cfg)
    + if InitRc(cfg) == 0 && cfg.initEnable
      then [Write(REQ, Wide(cfg.initPstate)), Write(CTRL, CtrlWord(cfg) | 0x0000_0001)] else []
  }

  // What the register holds of the configured counts; the state count spills into the timeout
  // when it does not fit its four bits.
  lemma CtrlWordReadsBack(cfg: Config)
    requires Bytes(cfg)
    ensures var c, num := Decode(CtrlWord(cfg)), Wide(cfg.numPstates);
            && !c.enabled && !c.signal && c.reserved == 0
            && (c.numStates == num <==> cfg.numPstates < 16)
            && c.timeoutUs == Spilled(Extended(cfg.timeoutUs), num)
            && (cfg.numPstates < 16 ==> c.timeoutUs == Extended(cfg.timeoutUs))
            && Decode(CtrlWord(cfg) | 0x0000_0001) == c.(enabled := true)
  {
    hide Wide; hide Fields; hide Extended; hide Spilled; hide Decode;
    SmallOrNot(cfg.numPstates);
    Spill(Wide(cfg.numPstates), cfg.timeoutUs);
    Nibbles(Wide(cfg.numPstates), Extended(cfg.timeoutUs));
  }

  lemma Spill(num: bv32, us: bv16)
    requires num & 0xFFFF_FF00 == 0
    ensures var word := Fields(num, us);
            && Decode(word) == Ctrl(false, false, num & 0x0F, Spilled(Extended(us), num), 0)
            && Decode(word | 0x0000_0001) == Ctrl(true, false, num & 0x0F, Spilled(Extended(us), num), 0)
  {
  }

  lemma Nibbles(num: bv32, us: bv32)
    requires num & 0xFFFF_FF00 == 0
    ensures num & 0x0F == num <==> num & 0xF0 == 0
    ensures num & 0xF0 == 0 ==> Spilled(us, num) == us
  {
  }

  lemma SmallOrNot(n: nat)
    requires n < 256
    ensures Wide(n) & 0xFFFF_FF00 == 0
    ensures n < 16 <==> Wide(n) & 0xF0 == 0
  {
  }

  predicate Quiet(ws: seq<Write>) { forall i :: 0 <= i < |ws| && ws[i].offset == CTRL ==> !Enabled(ws[i].val) }

  lemma {:induction false} QuietStaysOff(regs: map<nat, bv32>, ws: seq<Write>)
    requires Quiet(ws) && (!Enabled(At(regs, CTRL)) || (ws != [] && ws[0].offset == CTRL))
    ensures !Enabled(At(AfterWrites(regs, ws), CTRL))
  {
    if ws != [] {
      if |ws| > 1 || ws[0].offset != CTRL {
        QuietStaysOff(regs, ws[..|ws| - 1]);
      }
    }
  }

  lemma QuietWritesAreQuiet(cfg: Config)
    requires Bytes(cfg)
    ensures Quiet(QuietWrites(cfg))
  {
    CtrlWordReadsBack(cfg);
  }

  // A register that is not written keeps its value, and one that is written last keeps that.
  lemma {:induction false} LastWriteStays(regs: map<nat, bv32>, ws: seq<Write>, i: nat)
    requires i < |ws| && Stored(ws[i].offset)
    requires forall k :: i < k < |ws| ==> ws[k].offset != ws[i].offset
    ensures At(AfterWrites(regs, ws), ws[i].offset) == ws[i].val
  {
    var n := |ws| - 1;
    if i < n {
      LastWriteStays(regs, ws[..n], i);
      assert ws[n].offset != ws[i].offset;
    }
  }

  // The entry is the i-th listed pair, uncut.
  predicate Holds(e: Entry, listed: seq<bv32>, i: nat)
    requires 2 * i + 1 < |listed|
  {
    Extended(e.freqMhz) == listed[2 * i] && Extended(e.voltageMv) == listed[2 * i + 1]
  }

  // The table begins with the listed pairs, all of them and uncut.
  ghost predicate Loaded(table: seq<Entry>, listed: seq<bv32>) {
    |listed| / 2 <= |table| && forall i :: 0 <= i < |listed| / 2 ==> Holds(table[i], listed, i)
  }

  // What a devicetree can be checked for: as many pairs as the table has room for, and no
  // value that needs more than 16 bits.
  predicate Representable(listed: seq<bv32>) {
    |listed| / 2 <= MAX_PSTATES && forall i :: 0 <= i < |listed| ==> listed[i] < 0x1_0000
  }

  // Everything the enable bit relies on: the device's table begins with the configured pairs,
  // and count, timeout and an in-range target are what was configured.
  ghost predicate Ready(regs: map<nat, bv32>, cfg: Config)
    requires Bytes(cfg)
  {
    && cfg.table.Some? && TableFits(cfg) && Loaded(ViewOf(regs).table, cfg.table.value)
    && ViewOf(regs).ctrl.numStates == Wide(cfg.numPstates)
    && ViewOf(regs).ctrl.timeoutUs == Extended(cfg.timeoutUs)
    && ViewOf(regs).target == Wide(cfg.initPstate) && cfg.initPstate < cfg.numPstates
  }

  lemma CutIsWholeIff(x: bv32)
    ensures Extended(Truncated(x)) == x <==> x < 0x1_0000
  {
  }

  // A cut pair is the listed one exactly when neither value needs the cut.
  lemma ListedHoldsIff(listed: seq<bv32>, i: nat)
    requires 2 * i + 1 < |listed|
    ensures Holds(Listed(listed, i), listed, i) <==> listed[2 * i] < 0x1_0000 && listed[2 * i + 1] < 0x1_0000
  {
    hide Extended; hide Truncated;
    CutIsWholeIff(listed[2 * i]);
    CutIsWholeIff(listed[2 * i + 1]);
  }

  // Once the whole sequence has run, the table holds the listed pairs cut to 16 bits, as many
  // as it has room for; it holds the pairs as they are listed if and only if there are at most
  // ten and every value fits 16 bits.
  lemma TableReadsBackIff(regs: map<nat, bv32>, cfg: Config)
    requires Bytes(cfg) && cfg.table.Some? && TableFits(cfg)
    ensures var table, listed := ViewOf(AfterWrites(regs, InitWrites(cfg))).table, cfg.table.value;
            && (forall i :: 0 <= i < cfg.numPstates && i < MAX_PSTATES ==> table[i] == Listed(listed, i))
            && (Loaded(table, listed) <==> Representable(listed))
  {
    hide InitWrites; hide AfterWrites; hide EntryOf; hide Listed; hide Decode; hide Holds;
    var table, listed := ViewOf(AfterWrites(regs, InitWrites(cfg))).table, cfg.table.value;
    forall i | 0 <= i < cfg.numPstates && i < MAX_PSTATES ensures table[i] == Listed(listed, i) {
      EntryReadsBack(regs, cfg, i);
    }
    CutTableLoadedIff(table, listed);
  }

  lemma CutTableLoadedIff(table: seq<Entry>, listed: seq<bv32>)
    requires |table| == MAX_PSTATES && |listed| % 2 == 0
    requires forall i :: 0 <= i < |listed| / 2 && i < MAX_PSTATES ==> table[i] == Listed(listed, i)
    ensures Loaded(table, listed) <==> Representable(listed)
  {
    hide Listed; hide Holds;
    forall i | 0 <= i < |listed| / 2
      ensures Holds(Listed(listed, i), listed, i) <==> listed[2 * i] < 0x1_0000 && listed[2 * i + 1] < 0x1_0000
    {
      ListedHoldsIff(listed, i);
    }
    if Loaded(table, listed) {
      forall k | 0 <= k < |listed| ensures listed[k] < 0x1_0000 {
        assert Holds(table[k / 2], listed, k / 2);
      }
    }
  }

  lemma EntryReadsBack(regs: map<nat, bv32>, cfg: Config, i: nat)
    requires Bytes(cfg) && cfg.table.Some? && TableFits(cfg) && i < cfg.numPstates && i < MAX_PSTATES
    ensures EntryOf(At(AfterWrites(regs, InitWrites(cfg)), TABLE + 4 * i)) == Listed(cfg.table.value, i)
  {
    hide InitWrites; hide AfterWrites; hide EntryOf; hide Word; hide Listed; hide At;
    TableIsThird(cfg, TableWrites(cfg.table.value, cfg.numPstates));
    EntriesSurvive(Listed(cfg.table.value, i), 0);
    assert Stored(TABLE + 4 * i);
    LastWriteStays(regs, InitWrites(cfg), i + 2);
  }

  lemma TableIsThird(cfg: Config, tw: seq<Write>)
    requires Bytes(cfg) && cfg.table.Some? && TableFits(cfg)
    requires tw == TableWrites(cfg.table.value, cfg.numPstates)
    ensures var ws, n := InitWrites(cfg), cfg.numPstates;
            && |ws| >= n + 3 && ws[2..n + 2] == tw
            && forall k :: n + 2 <= k < |ws| ==> ws[k].offset == CTRL || ws[k].offset == REQ
  {
  }

  lemma ReadyInTheEnd(regs: map<nat, bv32>, cfg: Config)
    requires Bytes(cfg) && InitRc(cfg) == 0 && cfg.initEnable
    ensures Ready(AfterWrites(regs, InitWrites(cfg)), cfg) <==> Representable(cfg.table.value)
  {
    hide Wide; hide EntryOf; hide Word; hide Truncated; hide TableWrites; hide CtrlWord; hide Decode;
    var ws := InitWrites(cfg);
    TableReadsBackIff(regs, cfg);
    hide Loaded;
    hide Representable;
    LastWriteStays(regs, ws, |ws| - 1);
    LastWriteStays(regs, ws, |ws| - 2);
    CtrlWordReadsBack(cfg);
  }

  // In every prefix of the writes after the first, DVFS is enabled only when the table, the
  // state count, the timeout and an in-range target are in place, for every table that the
  // device can hold; with any other it is enabled when they are not.
  lemma EnabledOnlyWhenReady(regs: map<nat, bv32>, cfg: Config, k: nat)
    requires Bytes(cfg) && 1 <= k <= |InitWrites(cfg)|
    ensures Decode(At(AfterWrites(regs, InitWrites(cfg)[..k]), CTRL)).enabled ==>
              && cfg.table.Some?
              && (Ready(AfterWrites(regs, InitWrites(cfg)[..k]), cfg) <==> Representable(cfg.table.value))
  {
    var ws, q := InitWrites(cfg), QuietWrites(cfg);
    hide Wide; hide CtrlWord; hide TableWrites; hide Ready; hide AfterWrites;
    if k < |ws| || ws == q {
      QuietPrefix(cfg, k);
      QuietStaysOff(regs, ws[..k]);
    } else {
      assert ws[..k] == ws;
      ReadyInTheEnd(regs, cfg);
    }
  }

  // The devicetree node.  PMU_DEFINE puts its numbers into fields of 8, 16 and 8 bits.
  datatype Devicetree = Devicetree(
    numPstates: nat, timeoutUs: bv32, initEnable: bool, initPstate: nat, table: Option<seq<bv32>>)

  function FromDevicetree(dt: Devicetree): (cfg: Config)
    ensures Bytes(cfg)
  {
    Config(dt.numPstates % 256, Truncated(dt.timeoutUs), dt.initEnable, dt.initPstate % 256, dt.table)
  }

  // The device holds what the devicetree says.
  ghost predicate Honoured(regs: map<nat, bv32>, dt: Devicetree) {
    && dt.numPstates < 256 && dt.initPstate < dt.numPstates && ViewOf(regs).ctrl.timeoutUs == dt.timeoutUs
    && ViewOf(regs).ctrl.numStates == Wide(dt.numPstates) && ViewOf(regs).target == Wide(dt.initPstate)
    && dt.table.Some? && |dt.table.value| == 2 * dt.numPstates && Loaded(ViewOf(regs).table, dt.table.value)
  }

  // From the devicetree on: when initialization enables DVFS, the device holds what the node
  // says exactly when the device can hold the table and the numbers fit their fields.
  lemma DevicetreeHonouredIff(regs: map<nat, bv32>, dt: Devicetree)
    requires InitRc(FromDevicetree(dt)) == 0 && dt.initEnable
    ensures Honoured(AfterWrites(regs, InitWrites(FromDevicetree(dt))), dt)
            <==> Representable(dt.table.value) && dt.numPstates < 256 && dt.initPstate < 256 && dt.timeoutUs < 0x1_0000
  {
    var cfg := FromDevicetree(dt);
    hide Wide; hide EntryOf; hide Word; hide Truncated; hide TableWrites; hide Decode; hide Extended;
    hide AfterWrites; hide Loaded; hide Representable; hide InitWrites; hide ViewOf; hide Listed; hide Holds;
    TableReadsBackIff(regs, cfg);
    ReadyInTheEnd(regs, cfg);
    CutIsWholeIff(dt.timeoutUs);
  }

  // What else initialization leaves behind: the target is 0 unless DVFS was enabled, and an
  // error in the table leaves the control register 0 as well.
  lemma RestAfterInit(regs: map<nat, bv32>, cfg: Config)
    requires Bytes(cfg)
    ensures var v := ViewOf(AfterWrites(regs, InitWrites(cfg)));
            && v.target == (if InitRc(cfg) == 0 && cfg.initEnable then Wide(cfg.initPstate) else 0)
            && (!TableFits(cfg) ==> v.ctrl == Decode(0))
    ensures InitRc(cfg) == -22 <==>
              (cfg.table.Some? && |cfg.table.value| != 2 * cfg.numPstates)
              || (cfg.initEnable && (cfg.table.None? || cfg.initPstate >= cfg.numPstates))
    ensures InitRc(cfg) == 0 || InitRc(cfg) == -22
  {
    hide Wide; hide EntryOf; hide Word; hide Truncated; hide CtrlWord; hide Decode; hide AfterWrites; hide At; hide TableWrites;
    var ws := InitWrites(cfg);
    TableOnlyBetween(cfg);
    if !TableFits(cfg) {
      LastWriteStays(regs, ws, 0);
      LastWriteStays(regs, ws, 1);
    } else if InitRc(cfg) == 0 && cfg.initEnable {
      LastWriteStays(regs, ws, |ws| - 2);
    } else {
      LastWriteStays(regs, ws, 1);
    }
  }

  lemma TableOnlyBetween(cfg: Config)
    requires Bytes(cfg)
    ensures var ws := InitWrites(cfg);
            && |ws| >= 2 && ws[0] == Write(CTRL, 0) && ws[1] == Write(REQ, 0)
            && (if InitRc(cfg) == 0 && cfg.initEnable
                then |ws| >= 4 && ws[|ws| - 2] == Write(REQ, Wide(cfg.initPstate)) && ws[|ws| - 1].offset == CTRL
                else forall k :: 1 < k < |ws| ==> ws[k].offset != REQ)
            && (!TableFits(cfg) ==> |ws| == 2)
  {
    hide Wide; hide Word; hide Truncated; hide CtrlWord;
  }

  // A table that is not: 70000 MHz comes out as 4464, and DVFS goes on all the same.
  lemma CutFrequencyIsEnabled(regs: map<nat, bv32>)
    ensures var cfg := Config(1, 100, true, 0, Some([70000, 900]));
            && Decode(At(AfterWrites(regs, InitWrites(cfg)), CTRL)).enabled
            && ViewOf(AfterWrites(regs, InitWrites(cfg))).table[0] == Entry(4464, 900)
  {
    var cfg := Config(1, 100, true, 0, Some([70000, 900]));
    assert Listed(cfg.table.value, 0) == Entry(4464, 900);
    hide InitWrites; hide AfterWrites; hide EntryOf; hide Decode; hide Listed;
    EnabledAfterInitIff(regs, cfg);
    TableReadsBackIff(regs, cfg);
  }

  lemma QuietPrefix(cfg: Config, k: nat)
    requires Bytes(cfg) && 1 <= k <= |InitWrites(cfg)| && (k < |InitWrites(cfg)| || InitWrites(cfg) == QuietWrites(cfg))
    ensures Quiet(InitWrites(cfg)[..k]) && InitWrites(cfg)[0].offset == CTRL
  {
    QuietWritesAreQuiet(cfg);
    var ws, q := InitWrites(cfg), QuietWrites(cfg);
    assert forall i :: 0 <= i < |q| ==> ws[i] == q[i];
  }

  // Whatever the configuration, an error return leaves DVFS off, and a success leaves it on
  // exactly when init-enable is set.
  lemma EnabledAfterInitIff(regs: map<nat, bv32>, cfg: Config)
    requires Bytes(cfg)
    ensures Decode(At(AfterWrites(regs, InitWrites(cfg)), CTRL)).enabled <==> InitRc(cfg) == 0 && cfg.initEnable
  {
    var ws := InitWrites(cfg);
    assert ws[..|ws|] == ws;
    if InitRc(cfg) == 0 && cfg.initEnable {
      LastWriteStays(regs, ws, |ws| - 1);
      CtrlWordReadsBack(cfg);
    } else {
      QuietPrefix(cfg, |ws|);
      QuietStaysOff(regs, ws);
    }
  }

  // ---- The driver ----------------------------------------------------------------------

  datatype Status = Status(currPstate: bv32, pending: bool, busy: bool, phase: bv32, error: bool)

  function StatusOf(reg: bv32): Status {
    Status(reg & 0xF, reg & 0x0000_0010 != 0, reg & 0x0000_0020 != 0, (reg & 0x1C0) >> 6, reg & 0x0000_0200 != 0)
  }

  // The record is all that the register map defines: the current state from bit 0, pending in
  // bit 4, busy in bit 5, the phase from bit 6, the error in bit 9.
  lemma StatusLayout(reg: bv32)
    ensures var s := StatusOf(reg);
            reg & 0x3FF == s.currPstate | ((if s.pending then 1 else 0) << 4) | ((if s.busy then 1 else 0) << 5)
                           | (s.phase << 6) | ((if s.error then 1 else 0) << 9)
    ensures StatusOf(reg).currPstate < 16 && StatusOf(reg).phase < 8
  {
  }

  // One poll of the wait: the status read, and whether the time is up afterwards.
  datatype Poll = Poll(reg: bv32, expired: bool)

  predicate Settled(p: Poll) { !StatusOf(p.reg).busy && !StatusOf(p.reg).pending }

  // Pending is bit 4 and busy bit 5: a poll that ends the wait has neither.
  lemma SettledIff(p: Poll)
    ensures Settled(p) <==> p.reg & 0x30 == 0
  {
    BothClear(p.reg);
  }

  class Driver {
    const regSize: nat
    var regs: map<nat, bv32>
    var initialized: bool
    ghost var writes: seq<Write>

    constructor (size: nat, found: map<nat, bv32>)
      ensures regSize == size && regs == found && writes == [] && !initialized
    {
      regSize, regs, writes, initialized := size, found, [], false;
    }

    method SysWrite(offset: nat, val: bv32)
      modifies `regs, `writes
      ensures writes == old(writes) + [Write(offset, val)]
      ensures regs == AfterWrite(old(regs), Write(offset, val))
    {
      regs := AfterWrite(regs, Write(offset, val));
      writes := writes + [Write(offset, val)];
    }

    ghost predicate Ok(offset: nat) { offset % 4 == 0 && offset < regSize }

    method RegCheck(offset: nat) returns (rc: int)
      ensures rc == if Ok(offset) then 0 else -22
    {
      if offset % 4 != 0 {
        return -EINVAL;
      }
      if offset >= regSize {
        return -EINVAL;
      }
      return 0;
    }

    method ReadReg(offset: nat) returns (rc: int, val: bv32)
      ensures rc == (if Ok(offset) then 0 else -EINVAL) && (rc == 0 ==> val == At(regs, offset))
    {
      rc := RegCheck(offset);
      val := 0;
      if rc == 0 {
        val := At(regs, offset);
      }
    }

    method WriteReg(offset: nat, val: bv32) returns (rc: int)
      modifies `regs, `writes
      ensures rc == if Ok(offset) then 0 else -EINVAL
      ensures rc == 0 && Stored(offset) ==> At(regs, offset) == val
      ensures forall other :: other != offset || rc != 0 ==> At(regs, other) == At(old(regs), other)
      ensures regs == if rc == 0 then AfterWrite(old(regs), Write(offset, val)) else old(regs)
    {
      rc := RegCheck(offset);
      if rc == 0 {
        SysWrite(offset, val);
      }
    }

    method CtrlRmw(mask: bv32, val: bv32)
      modifies `regs, `writes
      ensures Masked(At(old(regs), CTRL), At(regs, CTRL), mask, val)
      ensures At(regs, CTRL) == Rmw(At(old(regs), CTRL), mask, val)
      ensures forall offset :: offset != CTRL ==> At(regs, offset) == At(old(regs), offset)
      ensures regs == AfterWrites(old(regs), [Write(CTRL, Rmw(At(old(regs), CTRL), mask, val))])
    {
      var reg := At(regs, CTRL);
      RmwUnderMask(reg, mask, val);
      reg := Rmw(reg, mask, val);
      OneWrite(regs, Write(CTRL, reg));
      hide Rmw; hide Masked;
      SysWrite(CTRL, reg);
    }

    // The four setters.
    method SetNumStates(num: bv8) returns (rc: int)
      modifies `regs, `writes
      ensures rc == if 1 <= num <= 10 then 0 else -22
      ensures regs == OnRegs(old(regs), Field(Setter.SetNumStates(num)))
      ensures rc == 0 ==> NumStatesIs(At(regs, 0x04), num)
    {
      Nothing(regs);
      if num == 0 || num > 10 {
        return -EINVAL;
      }
      NumStatesBack(At(regs, CTRL), num);
      hide NumStatesIs;
      hide Masked; hide Rmw; hide AfterWrites; hide NumField; hide TimeoutField; hide When;
      CtrlRmw(0x0000_00F0, NumField(num));
      return 0;
    }

    method SetTimeoutUs(us: bv16) returns (rc: int)
      modifies `regs, `writes
      ensures rc == 0
      ensures regs == OnRegs(old(regs), Field(Setter.SetTimeoutUs(us)))
      ensures rc == 0 ==> TimeoutIs(At(regs, 0x04), us)
    {
      TimeoutBack(At(regs, CTRL), us);
      hide TimeoutIs;
      hide Masked; hide Rmw; hide AfterWrites; hide NumField; hide TimeoutField; hide When;
      CtrlRmw(0x00FF_FF00, TimeoutField(us));
      return 0;
    }

    method SetMode(signal: bool) returns (rc: int)
      modifies `regs, `writes
      ensures rc == 0
      ensures regs == OnRegs(old(regs), Field(Setter.SetMode(signal)))
      ensures rc == 0 ==> ModeIs(At(regs, 0x04), signal)
    {
      ModeBack(At(regs, CTRL), signal);
      hide ModeIs;
      hide Masked; hide Rmw; hide AfterWrites; hide NumField; hide TimeoutField; hide When;
      CtrlRmw(0x0000_0002, When(0x0000_0002, signal));
      return 0;
    }

    method EnableDvfs(on: bool) returns (rc: int)
      modifies `regs, `writes
      ensures rc == 0
      ensures regs == OnRegs(old(regs), Field(Setter.Enable(on)))
      ensures rc == 0 ==> EnableIs(At(regs, 0x04), on)
    {
      EnableBack(At(regs, CTRL), on);
      hide EnableIs;
      hide Masked; hide Rmw; hide AfterWrites; hide NumField; hide TimeoutField; hide When;
      CtrlRmw(0x0000_0001, When(0x0000_0001, on));
      return 0;
    }

    method SetPstateEntry(idx: nat, freqMhz: bv16, voltageMv: bv16) returns (rc: int)
      modifies `regs, `writes
      ensures rc == if idx < 10 then 0 else -22
      ensures regs == OnRegs(old(regs), SetEntry(idx, Entry(freqMhz, voltageMv)))
      ensures rc == 0 ==>
                At(regs, 0x100 + 4 * idx) & 0xFFFF == freqMhz as bv32 && At(regs, 0x100 + 4 * idx) >> 16 == voltageMv as bv32
    {
      EntryLayout(Entry(freqMhz, voltageMv));
      if idx >= MAX_PSTATES {
        return -EINVAL;
      }
      hide Word; hide AfterWrites;
      var val := Word(Entry(freqMhz, voltageMv));
      OneWrite(regs, Write(TABLE + 4 * idx, val));
      SysWrite(TABLE + 4 * idx, val);
      return 0;
    }

    method GetPstateEntry(idx: nat) returns (rc: int, e: Entry)
      ensures rc == if idx < 10 then 0 else -22
      ensures rc == 0 ==> e == ViewOf(regs).table[idx]
    {
      if idx >= MAX_PSTATES {
        return -EINVAL, Entry(0, 0);
      }
      hide EntryOf; hide Decode;
      return 0, EntryOf(At(regs, TABLE + 4 * idx));
    }

    method RequestPstate(idx: bv8) returns (rc: int)
      modifies `regs, `writes
      ensures rc == if idx < 10 then 0 else -22
      ensures regs == OnRegs(old(regs), Request(idx))
      ensures rc == 0 ==> At(regs, 0x08) == idx as bv32
    {
      if idx >= 10 {
        return -EINVAL;
      }
      TargetIsTheIndex(idx);
      OneWrite(regs, Write(REQ, Target(idx)));
      SysWrite(REQ, Target(idx));
      return 0;
    }

    method ClearTheError()
      modifies `regs, `writes
      ensures regs == OnRegs(old(regs), ClearError)
      ensures !StatusOf(At(regs, 0x0C)).error
      ensures StatusOf(At(regs, 0x0C)) == StatusOf(At(old(regs), 0x0C)).(error := false)
    {
      OneWrite(regs, Write(STATUS, 0x0000_0200));
      SysWrite(STATUS, 0x0000_0200);
    }

    // pmu_api_wait_idle over the polls to come; None when they run out before it returns.
    static method WaitIdle(polls: seq<Poll>) returns (rc: Option<int>, n: nat)
      ensures n <= |polls| && forall k :: 0 <= k < n ==> !Settled(polls[k]) && !polls[k].expired
      ensures rc.None? <==> n == |polls|
      ensures rc.Some? ==> Settled(polls[n]) || polls[n].expired
      ensures rc.Some? ==> rc.value == if !Settled(polls[n]) then -116 else if StatusOf(polls[n].reg).error then -5 else 0
    {
      n := 0;
      while n < |polls|
        invariant n <= |polls| && forall k :: 0 <= k < n ==> !Settled(polls[k]) && !polls[k].expired
      {
        var reg := polls[n].reg;
        BothClear(reg);
        if reg & (0x0000_0020 | 0x0000_0010) == 0 {
          return Some(if reg & 0x0000_0200 != 0 then -EIO else 0), n;
        }
        if polls[n].expired {
          return Some(-ETIMEDOUT), n;
        }
        n := n + 1;
      }
      return None, n;
    }

    // pmu_init's loop over the configured pairs.
    method LoadTable(ghost before: map<nat, bv32>, table: seq<bv32>, n: nat)
      requires |table| == 2 * n && regs == AfterWrites(before, writes)
      modifies `regs, `writes
      ensures writes == old(writes) + TableWrites(table, n) && regs == AfterWrites(before, writes)
    {
      hide Word; hide Truncated; hide AfterWrites;
      for i := 0 to n
        invariant writes == old(writes) + TableWrites(table, i) && regs == AfterWrites(before, writes)
      {
        var freq, volt := Truncated(table[2 * i]), Truncated(table[2 * i + 1]);
        Step(before, TABLE + 4 * i, Word(Entry(freq, volt)));
      }
    }

    // pmu_init up to its decision about init-enable.
    method Prepare(ghost before: map<nat, bv32>, cfg: Config) returns (ok: bool)
      requires Bytes(cfg) && writes == [] && regs == before
      modifies `regs, `writes
      ensures ok == TableFits(cfg) && writes == QuietWrites(cfg) && regs == AfterWrites(before, writes)
    {
      hide CtrlWord; hide AfterWrites; hide TableWrites;
      assert regs == AfterWrites(before, writes) by { Nothing(before); }
      Step(before, CTRL, 0);
      Step(before, REQ, 0);
      if cfg.table.Some? {
        var table := cfg.table.value;
        if |table| != 2 * cfg.numPstates {
          return false;
        }
        LoadTable(before, table, cfg.numPstates);
      }
      Step(before, CTRL, CtrlWord(cfg));
      return true;
    }

    // pmu_init.
    method Init(cfg: Config) returns (rc: int)
      requires Bytes(cfg) && writes == [] && !initialized
      modifies this
      ensures rc == InitRc(cfg) && writes == InitWrites(cfg)
      ensures regs == AfterWrites(old(regs), writes)
      ensures initialized <==> rc == 0
    {
      hide CtrlWord; hide Wide; hide AfterWrites; hide QuietWrites;
      ghost var before := regs;
      var ok := Prepare(before, cfg);
      if !ok {
        return -EINVAL;
      }
      if cfg.initEnable {
        if cfg.table.None? {
          return -EINVAL;
        }
        if cfg.initPstate >= cfg.numPstates {
          return -EINVAL;
        }
        Step(before, REQ, Wide(cfg.initPstate));
        Step(before, CTRL, CtrlWord(cfg) | 0x0000_0001);
      }
      initialized := true;
      return 0;
    }

    method Step(ghost before: map<nat, bv32>, offset: nat, val: bv32)
      requires regs == AfterWrites(before, writes)
      modifies `regs, `writes
      ensures writes == old(writes) + [Write(offset, val)] && regs == AfterWrites(before, writes)
    {
      OneWrite(regs, Write(offset, val));
      WritesAppend(before, writes, [Write(offset, val)]);
      SysWrite(offset, val);
    }
  }

  lemma BothClear(reg: bv32)
    ensures reg & (0x0000_0020 | 0x0000_0010) == 0 <==> reg & 0x0000_0020 == 0 && reg & 0x0000_0010 == 0
  {
  }
}
