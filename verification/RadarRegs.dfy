/** The BGT60TR13C driver's register side: 32-bit SPI commands, the configuration loop, and the
    SFCTL fields that later calls share. */
module RadarRegs {

  type Addr = bv8
  datatype Reg = Reg(addr: Addr)

  const MAIN: Addr := 0x00
  const SFCTL: Addr := 0x06
  const RESET_SW: bv32 := 0x0000_0002
  const RESET_FSM: bv32 := 0x0000_0004
  const EINVAL := 22
  const ETIMEDOUT := 116
  const SOFT_RESET_TIMEOUT := 0xFFFF_FFFF

  // ---- SPI commands --------------------------------------------------------------------

  // Address in bits 31..25, bit 24 set, data in bits 23..0.
  function WriteWord(addr: Addr, val: bv32): bv32 {
    (((addr as bv32) << 25) & 0xFE00_0000) | 0x0100_0000 | (val & 0x00FF_FFFF)
  }

  function ReadWord(addr: Addr): bv32 { ((addr as bv32) << 25) & 0xFE00_0000 }

  predicate IsWrite(word: bv32) { word & 0x0100_0000 != 0 }

  function AddrOf(word: bv32): Addr { ((word >> 25) & 0x7F) as bv8 }

  function DataOf(word: bv32): bv32 { word & 0x00FF_FFFF }

  // The four bytes on the wire, most significant first, and back.
  function Wire(word: bv32): (b: seq<bv8>)
    ensures |b| == 4
  {
    [((word >> 24) & 0xFF) as bv8, ((word >> 16) & 0xFF) as bv8, ((word >> 8) & 0xFF) as bv8, (word & 0xFF) as bv8]
  }

  function FromWire(b: seq<bv8>): bv32
    requires |b| == 4
  {
    ((b[0] as bv32) << 24) | ((b[1] as bv32) << 16) | ((b[2] as bv32) << 8) | (b[3] as bv32)
  }

  lemma WireIsFaithful(word: bv32)
    ensures FromWire(Wire(word)) == word
  {
  }

  // The sensor decodes what the driver encoded, for the seven bits that an address has.
  lemma CommandsArrive(addr: Addr, val: bv32)
    ensures IsWrite(WriteWord(addr, val)) && DataOf(WriteWord(addr, val)) == DataOf(val)
    ensures AddrOf(WriteWord(addr, val)) == addr & 0x7F
    ensures !IsWrite(ReadWord(addr)) && AddrOf(ReadWord(addr)) == addr & 0x7F
  {
  }

  // The sensor's side: a write command stores 24 bits.
  function Received(regs: map<Reg, bv32>, word: bv32): map<Reg, bv32> {
    if IsWrite(word) then regs[Reg(AddrOf(word)) := DataOf(word)] else regs
  }

  function At(regs: map<Reg, bv32>, addr: Addr): bv32 { if Reg(addr) in regs then DataOf(regs[Reg(addr)]) else 0 }

  // Its answer to a read command: four status bits, then the register.
  function Answer(regs: map<Reg, bv32>, word: bv32, status: bv32): bv32 {
    ((status << 24) & 0x0F00_0000) | At(regs, AddrOf(word))
  }

  lemma AnswerArrives(regs: map<Reg, bv32>, addr: Addr, status: bv32)
    ensures DataOf(Answer(regs, ReadWord(addr), status)) == At(regs, addr & 0x7F)
  {
    hide ReadWord; hide AddrOf; hide WriteWord; hide IsWrite;
    CommandsArrive(addr, 0);
    StatusIsNoData(status, if Reg(addr & 0x7F) in regs then regs[Reg(addr & 0x7F)] else 0);
  }

  lemma StatusIsNoData(status: bv32, val: bv32)
    ensures DataOf(((status << 24) & 0x0F00_0000) | DataOf(val)) == DataOf(val)
  {
  }

  // ---- Configuration -------------------------------------------------------------------

  function WithoutFifoBits(data: bv32): bv32 { (data & !(0x0000_1FFF as bv32)) & !(0x0001_0000 as bv32) }

  // SFCTL loses the FIFO threshold and the high-speed bit; other registers pass.
  function Kept(addr: Addr, data: bv32): bv32 {
    if addr == SFCTL then WithoutFifoBits(data) else data
  }

  // The command that config sends for a recipe word.
  function Emitted(word: bv32): bv32 { WriteWord(AddrOf(word), Kept(AddrOf(word), DataOf(word))) }

  function EmittedAll(recipe: seq<bv32>): (ws: seq<bv32>)
    ensures |ws| == |recipe| && forall i :: 0 <= i < |recipe| ==> ws[i] == Emitted(recipe[i])
  {
    seq(|recipe|, i requires 0 <= i < |recipe| => Emitted(recipe[i]))
  }

  // A recipe word is sent as it is, but for the SFCTL bits and exactly if its write bit is set.
  lemma EmittedIsTheRecipeIff(word: bv32)
    ensures AddrOf(word) != SFCTL ==> (Emitted(word) == word <==> IsWrite(word))
    ensures AddrOf(word) == SFCTL ==> (Emitted(word) == word & 0xFFFE_E000 <==> IsWrite(word))
    ensures AddrOf(Emitted(word)) == AddrOf(word) && IsWrite(Emitted(word))
    ensures DataOf(Emitted(word)) == Kept(AddrOf(word), DataOf(word))
  {
    hide WriteWord; hide AddrOf; hide DataOf; hide IsWrite;
    SevenBits(word);
    OtherWord(word);
    SfctlWord(word);
    CommandsArrive(AddrOf(word), Kept(AddrOf(word), DataOf(word)));
    KeptIs24Bits(AddrOf(word), word);
  }

  lemma SevenBits(word: bv32)
    ensures AddrOf(word) & 0x7F == AddrOf(word)
  {
  }

  lemma KeptIs24Bits(addr: Addr, word: bv32)
    ensures DataOf(Kept(addr, DataOf(word))) == Kept(addr, DataOf(word))
  {
    if addr == SFCTL {
    } else {
    }
  }

  lemma OtherWord(word: bv32)
    ensures WriteWord(AddrOf(word), DataOf(word)) == word <==> IsWrite(word)
  {
  }

  lemma SfctlWord(word: bv32)
    ensures WriteWord(AddrOf(word), WithoutFifoBits(DataOf(word))) == word & 0xFFFE_E000 <==> IsWrite(word)
  {
  }

  function AfterWords(regs: map<Reg, bv32>, words: seq<bv32>): map<Reg, bv32> {
    if words == [] then regs else Received(AfterWords(regs, words[..|words| - 1]), words[|words| - 1])
  }

  // ---- SFCTL as a record ---------------------------------------------------------------

  datatype Sfctl = Sfctl(cref: bv32, highSpeed: bool, lfsr: bool, rest: bv32)

  function Decode(v: bv32): Sfctl {
    Sfctl(v & 0x0000_1FFF, v & 0x0001_0000 != 0, v & 0x0002_0000 != 0, v & 0x00FC_E000)
  }

  // The record is all of the register.
  lemma DecodeIsFaithful(a: bv32, b: bv32)
    ensures Decode(a) == Decode(b) ==> DataOf(a) == DataOf(b)
  {
    hide Joined; hide DataOf;
    Reassembled(a);
    Reassembled(b);
    FlagsDecide(a, b);
  }

  function Joined(p: bv32, q: bv32, r: bv32, t: bv32): bv32 { p | q | r | t }

  lemma Reassembled(v: bv32)
    ensures Joined(v & 0x0000_1FFF, v & 0x0001_0000, v & 0x0002_0000, v & 0x00FC_E000) == DataOf(v)
  {
  }

  lemma FlagsDecide(a: bv32, b: bv32)
    ensures (a & 0x0001_0000 != 0) == (b & 0x0001_0000 != 0) ==> a & 0x0001_0000 == b & 0x0001_0000
    ensures (a & 0x0002_0000 != 0) == (b & 0x0002_0000 != 0) ==> a & 0x0002_0000 == b & 0x0002_0000
  {
  }

  // bgt60tr13c_set_fifo_limit's argument check and its new register value.
  predicate BadLimit(n: bv32) { n & 1 != 0 || n / 2 > 8192 }

  function WithLimit(v: bv32, n: bv32): bv32 { (v & !(0x0000_1FFF as bv32)) | ((n / 2 - 1) & 0x0000_1FFF) }

  function WithTestMode(v: bv32, on: bool): bv32 {
    if on then v | 0x0002_0000 else v & !(0x0002_0000 as bv32)
  }

  function Threshold(n: bv32): bv32 { (n / 2 - 1) & 0x0000_1FFF }

  lemma LimitRefines(v: bv32, n: bv32)
    ensures Decode(DataOf(WithLimit(v, n))) == Decode(v).(cref := Threshold(n))
  {
  }

  lemma TestModeRefines(v: bv32, on: bool)
    ensures Decode(DataOf(WithTestMode(v, on))) == Decode(v).(lfsr := on)
  {
    if on {
      BitOn(v);
    } else {
      BitOff(v);
    }
  }

  lemma BitOn(v: bv32)
    ensures Decode(DataOf(v | 0x0002_0000)) == Decode(v).(lfsr := true)
  {
  }

  lemma BitOff(v: bv32)
    ensures Decode(DataOf(v & !(0x0002_0000 as bv32))) == Decode(v).(lfsr := false)
  {
  }

  // The threshold holds n / 2 - 1 whole exactly when an accepted n is not zero; zero gives
  // the same threshold as the largest n.
  lemma ThresholdIsExactIff(n: bv32)
    requires !BadLimit(n)
    ensures Threshold(n) == n / 2 - 1 <==> n != 0
    ensures n != 0 ==> 2 * (Threshold(n) + 1) == n
    ensures Threshold(0) == Threshold(16384)
  {
  }

  lemma KeptDecodes(data: bv32)
    ensures Decode(DataOf(Kept(SFCTL, data))) == Decode(data).(cref := 0, highSpeed := false)
  {
  }

  // ---- The driver ----------------------------------------------------------------------

  // One SPI transfer's result: negative when it failed, and then the sensor saw nothing.
  type Spi = int

  datatype Poll = Poll(spi: Spi, val: bv32)

  predicate Cleared(val: bv32, kind: bv32) { val & kind == 0 }

  predicate Pending(p: Poll, kind: bv32) { p.spi >= 0 && !Cleared(p.val, kind) }

  // Polling stops after n polls that found the reset pending: at the first that failed or
  // found it done, or when the count is used up.
  ghost predicate AwaitEnds(kind: bv32, polls: nat -> Poll, n: nat) {
    && n <= SOFT_RESET_TIMEOUT && (forall k :: 0 <= k < n ==> Pending(polls(k), kind))
    && (n < SOFT_RESET_TIMEOUT ==> !Pending(polls(n), kind))
  }

  function AwaitRc(polls: nat -> Poll, n: nat): int {
    if n >= SOFT_RESET_TIMEOUT then -ETIMEDOUT else if polls(n).spi < 0 then polls(n).spi else 0
  }

  // The command asks for one kind of reset: it writes MAIN with the bits of that kind set and
  // every other bit as it was.
  predicate AsksReset(word: bv32, kind: bv32, main: bv32) {
    IsWrite(word) && AddrOf(word) == 0x00 && Adds(DataOf(word), kind, main)
  }

  predicate Adds(data: bv32, kind: bv32, main: bv32) {
    data & kind == DataOf(kind) && data & !kind == DataOf(main) & !kind
  }

  lemma ResetIsAsked(main: bv32, kind: bv32)
    ensures AsksReset(WriteWord(MAIN, main | kind), kind, main)
  {
    hide WriteWord; hide IsWrite; hide AddrOf; hide DataOf; hide Adds;
    CommandsArrive(MAIN, main | kind);
    KindAdded(main, kind);
  }

  lemma KindAdded(main: bv32, kind: bv32)
    ensures Adds(DataOf(main | kind), kind, main)
  {
    KindSet(main, kind);
    OthersKept(main, kind);
    hide DataOf;
  }

  lemma KindSet(main: bv32, kind: bv32)
    ensures DataOf(main | kind) & kind == DataOf(kind)
  {
  }

  lemma OthersKept(main: bv32, kind: bv32)
    ensures DataOf(main | kind) & !kind == DataOf(main) & !kind
  {
  }

  // When polling ends well, when it times out and when it fails.
  lemma AwaitReturns(kind: bv32, polls: nat -> Poll, n: nat)
    requires AwaitEnds(kind, polls, n)
    ensures n == 0xFFFF_FFFF ==> AwaitRc(polls, n) == -116
    ensures n < 0xFFFF_FFFF ==> AwaitRc(polls, n) == if polls(n).spi < 0 then polls(n).spi else 0
  {
  }

  // A stop is a reset of the frame state machine: polled is the verdict of its polling, main
  // what it leaves in MAIN, and no other register is touched.
  datatype Op =
    | SetLimit(n: bv32, rd: Spi, wr: Spi)
    | TestMode(on: bool, rd: Spi, wr: Spi)
    | StartFrame(rd: Spi, wr: Spi)
    | StopFrame(rd: Spi, wr: Spi, polled: int, main: bv32)

  function OpRc(op: Op): int {
    if op.SetLimit? && BadLimit(op.n) then -EINVAL
    else if op.rd < 0 then op.rd
    else if op.wr < 0 || !op.StopFrame? then op.wr
    else op.polled
  }

  // Who decides a call's return code: the argument check, the read, the write, and for a stop
  // the polling.
  lemma OpReturns(op: Op)
    ensures op.SetLimit? && !(op.n & 1 == 0 && op.n <= 16384) ==> OpRc(op) == -22
    ensures !(op.SetLimit? && !(op.n & 1 == 0 && op.n <= 16384)) ==>
              && (op.rd < 0 ==> OpRc(op) == op.rd)
              && (op.rd >= 0 && op.wr < 0 ==> OpRc(op) == op.wr)
              && (op.rd >= 0 && op.wr >= 0 ==> OpRc(op) == if op.StopFrame? then op.polled else op.wr)
  {
    if op.SetLimit? {
      LimitsAccepted(op.n);
      hide BadLimit;
    }
  }

  lemma LimitsAccepted(n: bv32)
    ensures !BadLimit(n) <==> n & 1 == 0 && n <= 16384
  {
  }

  predicate Succeeds(op: Op) { OpRc(op) >= 0 }

  function Register(op: Op): Addr { if op.StartFrame? || op.StopFrame? then MAIN else SFCTL }

  function NewValue(op: Op, v: bv32): bv32 {
    match op
    case SetLimit(n, _, _) => WithLimit(v, n)
    case TestMode(on, _, _) => WithTestMode(v, on)
    case StartFrame(_, _) => v | 0x0000_0001
    case StopFrame(_, _, _, main) => main
  }

  function OnRegs(regs: map<Reg, bv32>, op: Op): map<Reg, bv32> {
    if op.rd < 0 || op.wr < 0 || (op.SetLimit? && BadLimit(op.n)) then regs
    else if op.StopFrame? then regs[Reg(MAIN) := op.main]
    else Received(regs, WriteWord(Register(op), NewValue(op, At(regs, Register(op)))))
  }

  // What a successful start does: bit 0 of MAIN is set, its other 23 bits and every other
  // register are as they were.
  ghost predicate Started(before: map<Reg, bv32>, after: map<Reg, bv32>) {
    FrameStarted(At(before, 0x00), At(after, 0x00)) && forall addr :: addr != 0x00 ==> At(after, addr) == At(before, addr)
  }

  predicate FrameStarted(before: bv32, after: bv32) {
    after & 0x0000_0001 == 1 && after & 0x00FF_FFFE == before & 0x00FF_FFFE
  }

  // The sensor holds what was written, and only that is new.
  lemma WriteIsSeen(regs: map<Reg, bv32>, addr: Addr, val: bv32)
    requires addr & 0x7F == addr
    ensures At(Received(regs, WriteWord(addr, val)), addr) == DataOf(val)
    ensures forall other :: other != addr ==> At(Received(regs, WriteWord(addr, val)), other) == At(regs, other)
  {
    hide WriteWord; hide IsWrite; hide AddrOf; hide DataOf;
    CommandsArrive(addr, val);
    TwiceIsOnce(val);
  }

  lemma StartIsSeen(regs: map<Reg, bv32>, rd: Spi, wr: Spi)
    requires rd >= 0 && wr >= 0
    ensures Started(regs, OnRegs(regs, StartFrame(rd, wr)))
  {
    hide WriteWord; hide Received; hide DataOf; hide FrameStarted; hide At; hide OnRegs;
    var v := At(regs, MAIN);
    var w := v | 0x0000_0001;
    StartWrites(regs, rd, wr, v, w);
    WriteIsSeen(regs, MAIN, w);
    BitZeroAdded(v);
  }

  lemma StartWrites(regs: map<Reg, bv32>, rd: Spi, wr: Spi, v: bv32, w: bv32)
    requires rd >= 0 && wr >= 0 && v == At(regs, MAIN) && w == v | 0x0000_0001
    ensures OnRegs(regs, StartFrame(rd, wr)) == Received(regs, WriteWord(MAIN, w))
  {
    hide WriteWord; hide Received; hide At;
  }

  lemma BitZeroAdded(v: bv32)
    ensures FrameStarted(v, DataOf(v | 0x0000_0001))
  {
  }

  class Radar {
    var regs: map<Reg, bv32>
    ghost var sent: seq<bv32>

    constructor (found: map<Reg, bv32>)
      ensures regs == found && sent == []
    {
      regs, sent := found, [];
    }

    // bgt60tr13c_read_reg: the command goes out as four bytes, and so does the answer.
    method ReadReg(addr: Addr, spi: Spi) returns (rc: int, val: bv32)
      ensures rc == (if spi < 0 then spi else 0) && (rc >= 0 ==> val == At(regs, addr & 0x7F))
    {
      hide ReadWord; hide AddrOf; hide Answer; hide DataOf; hide Wire; hide FromWire; hide At;
      var tx := Wire(ReadWord(addr));
      if spi < 0 {
        return spi, 0;
      }
      var status: bv32 := *;
      WireIsFaithful(ReadWord(addr));
      var rx := Wire(Answer(regs, FromWire(tx), status));
      WireIsFaithful(Answer(regs, ReadWord(addr), status));
      AnswerArrives(regs, addr, status);
      return 0, DataOf(FromWire(rx));
    }

    // bgt60tr13c_write_reg: the sensor rebuilds the word from the four bytes.
    method WriteReg(addr: Addr, val: bv32, spi: Spi) returns (rc: int)
      modifies this
      ensures rc == spi
      ensures regs == (if rc >= 0 then Received(old(regs), WriteWord(addr, val)) else old(regs))
      ensures sent == old(sent) + if rc >= 0 then [WriteWord(addr, val)] else []
    {
      hide WriteWord; hide Received; hide Wire; hide FromWire;
      rc := spi;
      var tx := Wire(WriteWord(addr, val));
      WireIsFaithful(WriteWord(addr, val));
      if spi >= 0 {
        regs := Received(regs, FromWire(tx));
        sent := sent + [FromWire(tx)];
      }
    }

    // The polling loop of bgt60tr13c_soft_reset; the polls answer for the sensor.
    static method AwaitClear(kind: bv32, polls: nat -> Poll) returns (rc: int, n: nat)
      ensures AwaitEnds(kind, polls, n) && rc == AwaitRc(polls, n)
      ensures rc == 0 ==> polls(n).spi >= 0 && polls(n).val & kind == 0
      ensures forall k :: 0 <= k < n ==> polls(k).spi >= 0 && polls(k).val & kind != 0
    {
      n := 0;
      var timeout := SOFT_RESET_TIMEOUT;
      while timeout > 0
        invariant 0 <= timeout == SOFT_RESET_TIMEOUT - n
        invariant forall k :: 0 <= k < n ==> Pending(polls(k), kind)
      {
        if polls(n).spi < 0 {
          return polls(n).spi, n;
        }
        if Cleared(polls(n).val, kind) {
          return 0, n;
        }
        timeout := timeout - 1;
        n := n + 1;
      }
      rc := -ETIMEDOUT;
    }

    // bgt60tr13c_soft_reset; after is what the reset leaves in the sensor's registers.
    method SoftReset(kind: bv32, rd: Spi, wr: Spi, polls: nat -> Poll, after: map<Reg, bv32>) returns (rc: int, n: nat)
      modifies this
      ensures rd < 0 ==> rc == rd && regs == old(regs) && sent == old(sent)
      ensures rd >= 0 && wr < 0 ==> rc == wr && regs == old(regs) && sent == old(sent)
      ensures rd >= 0 && wr >= 0 ==> regs == after && |sent| == |old(sent)| + 1 && sent[..|old(sent)|] == old(sent)
      ensures rd >= 0 && wr >= 0 ==> AsksReset(sent[|old(sent)|], kind, At(old(regs), MAIN))
      ensures rd >= 0 && wr >= 0 ==> AwaitEnds(kind, polls, n) && rc == AwaitRc(polls, n)
      ensures rd >= 0 && wr >= 0 && rc == 0 ==> polls(n).spi >= 0 && polls(n).val & kind == 0
    {
      hide AwaitEnds; hide AwaitRc; hide WriteWord; hide At; hide AsksReset;
      n := 0;
      var tmp: bv32;
      rc, tmp := ReadReg(MAIN, rd);
      if rc < 0 {
        return;
      }
      ResetIsAsked(tmp, kind);
      rc := WriteReg(MAIN, tmp | kind, wr);
      if rc < 0 {
        return;
      }
      regs := after;
      rc, n := AwaitClear(kind, polls);
    }

    // bgt60tr13c_config after its reset: the loop over the recipe, up to the first failure.
    method SendRecipe(recipe: seq<bv32>, spi: seq<Spi>) returns (rc: int, ghost n: nat)
      requires |spi| == |recipe|
      modifies this
      ensures n <= |recipe| && forall k :: 0 <= k < n ==> spi[k] >= 0
      ensures rc == if n == |recipe| then 0 else spi[n]
      ensures n < |recipe| ==> rc < 0
      ensures sent == old(sent) + EmittedAll(recipe[..n])
      ensures regs == AfterWords(old(regs), EmittedAll(recipe[..n]))
    {
      hide WriteWord; hide AddrOf; hide DataOf; hide WithoutFifoBits;
      hide Emitted; hide EmittedAll; hide AfterWords; hide Received;
      n := 0;
      ghost var done, found := sent, regs;
      NothingEmitted(found, recipe);
      for i := 0 to |recipe|
        invariant n == i && forall k :: 0 <= k < i ==> spi[k] >= 0
        invariant sent == done + EmittedAll(recipe[..i]) && regs == AfterWords(found, EmittedAll(recipe[..i]))
      {
        var addr, data := AddrOf(recipe[i]), DataOf(recipe[i]);
        if addr == SFCTL {
          data := WithoutFifoBits(data);
        }
        EmittedIs(recipe[i]);
        EmittedOneMore(found, recipe, i);
        rc := WriteReg(addr, data, spi[i]);
        if rc < 0 {
          return;
        }
        n := n + 1;
      }
      rc := 0;
    }

    // bgt60tr13c_config: a software reset, then the recipe.
    // With polled polls that found the reset pending, done recipe words went out; all of them
    // exactly when the call succeeds.
    method Config(recipe: seq<bv32>, rd: Spi, wr: Spi, polls: nat -> Poll, after: map<Reg, bv32>, spi: seq<Spi>)
      returns (rc: int, polled: nat, ghost done: nat)
      requires |spi| == |recipe|
      modifies this
      ensures rd < 0 || wr < 0 ==> rc == (if rd < 0 then rd else wr) && regs == old(regs) && sent == old(sent) && done == 0
      ensures rd >= 0 && wr >= 0 ==>
                && AwaitEnds(0x0000_0002, polls, polled) && done <= |recipe|
                && |sent| > |old(sent)| && AsksReset(sent[|old(sent)|], 0x0000_0002, At(old(regs), MAIN))
                && sent == old(sent) + [sent[|old(sent)|]] + EmittedAll(recipe[..done])
                && regs == AfterWords(after, EmittedAll(recipe[..done]))
                && (if AwaitRc(polls, polled) < 0 then rc == AwaitRc(polls, polled) && done == 0
                    else rc == (if done == |recipe| then 0 else spi[done])
                         && (done < |recipe| ==> rc < 0) && forall k :: 0 <= k < done ==> spi[k] >= 0)
      ensures rc == 0 ==> done == |recipe|
    {
      hide WriteWord; hide At; hide AwaitEnds; hide AwaitRc; hide AfterWords; hide EmittedAll; hide AsksReset;
      done := 0;
      NothingEmitted(after, recipe);
      rc, polled := SoftReset(RESET_SW, rd, wr, polls, after);
      if rc < 0 {
        return;
      }
      rc, done := SendRecipe(recipe, spi);
    }

    method SetFifoLimit(n: bv32, rd: Spi, wr: Spi) returns (rc: int)
      modifies this
      ensures rc == OpRc(SetLimit(n, rd, wr)) && regs == OnRegs(old(regs), SetLimit(n, rd, wr))
    {
      if n & 1 != 0 || n / 2 > 8192 {
        return -EINVAL;
      }
      var tmp: bv32;
      rc, tmp := ReadReg(SFCTL, rd);
      if rc < 0 {
        return;
      }
      rc := WriteReg(SFCTL, WithLimit(tmp, n), wr);
    }

    method EnableTestMode(on: bool, rd: Spi, wr: Spi) returns (rc: int)
      modifies this
      ensures rc == OpRc(TestMode(on, rd, wr)) && regs == OnRegs(old(regs), TestMode(on, rd, wr))
    {
      var tmp: bv32;
      rc, tmp := ReadReg(SFCTL, rd);
      if rc < 0 {
        return;
      }
      rc := WriteReg(SFCTL, WithTestMode(tmp, on), wr);
    }

    // bgt60tr13c_start_frame(true).
    method Start(rd: Spi, wr: Spi) returns (rc: int)
      modifies this
      ensures rc == OpRc(StartFrame(rd, wr)) && regs == OnRegs(old(regs), StartFrame(rd, wr))
      ensures rd >= 0 && wr >= 0 ==> Started(old(regs), regs)
    {
      if rd >= 0 && wr >= 0 {
        StartIsSeen(regs, rd, wr);
      }
      hide Started; hide At; hide WriteWord; hide Received;
      var tmp: bv32;
      rc, tmp := ReadReg(MAIN, rd);
      if rc < 0 {
        return;
      }
      rc := WriteReg(MAIN, tmp | 0x0000_0001, wr);
    }

    // bgt60tr13c_start_frame(false).
    method Stop(rd: Spi, wr: Spi, polls: nat -> Poll, main: bv32) returns (rc: int, n: nat)
      modifies this
      ensures rd >= 0 && wr >= 0 ==> AwaitEnds(0x0000_0004, polls, n)
      ensures rd >= 0 && wr >= 0 ==>
                |sent| == |old(sent)| + 1 && AsksReset(sent[|old(sent)|], 0x0000_0004, At(old(regs), MAIN))
      ensures var op := StopFrame(rd, wr, AwaitRc(polls, n), main); rc == OpRc(op) && regs == OnRegs(old(regs), op)
    {
      hide AwaitEnds; hide AwaitRc; hide AsksReset; hide At;
      rc, n := SoftReset(RESET_FSM, rd, wr, polls, regs[Reg(MAIN) := main]);
    }
  }

  lemma NothingEmitted(regs: map<Reg, bv32>, recipe: seq<bv32>)
    ensures EmittedAll(recipe[..0]) == [] && AfterWords(regs, EmittedAll(recipe[..0])) == regs
  {
  }

  lemma EmittedIs(word: bv32)
    ensures Emitted(word)
            == WriteWord(AddrOf(word), if AddrOf(word) == SFCTL then WithoutFifoBits(DataOf(word)) else DataOf(word))
  {
    hide WriteWord; hide AddrOf; hide DataOf; hide WithoutFifoBits;
  }

  lemma EmittedOneMore(regs: map<Reg, bv32>, recipe: seq<bv32>, i: nat)
    requires i < |recipe|
    ensures EmittedAll(recipe[..i + 1]) == EmittedAll(recipe[..i]) + [Emitted(recipe[i])]
    ensures AfterWords(regs, EmittedAll(recipe[..i + 1]))
            == Received(AfterWords(regs, EmittedAll(recipe[..i])), Emitted(recipe[i]))
  {
    hide Emitted; hide Received;
    assert EmittedAll(recipe[..i + 1]) == EmittedAll(recipe[..i]) + [Emitted(recipe[i])];
    assert (EmittedAll(recipe[..i]) + [Emitted(recipe[i])])[..i] == EmittedAll(recipe[..i]);
  }

  // ---- SFCTL over a run ----------------------------------------------------------------

  function OnSfctl(s: Sfctl, op: Op): Sfctl {
    if !Succeeds(op) then s
    else
      match op
      case SetLimit(n, _, _) => s.(cref := Threshold(n))
      case TestMode(on, _, _) => s.(lfsr := on)
      case _ => s
  }

  lemma OpRefines(regs: map<Reg, bv32>, op: Op)
    ensures Decode(At(OnRegs(regs, op), SFCTL)) == OnSfctl(Decode(At(regs, SFCTL)), op)
  {
    hide Decode; hide WithLimit; hide WithTestMode; hide WriteWord; hide IsWrite; hide AddrOf; hide Threshold; hide DataOf;
    var v := At(regs, Register(op));
    CommandsArrive(Register(op), NewValue(op, v));
    TwiceIsOnce(NewValue(op, v));
    match op {
      case SetLimit(n, _, _) => LimitRefines(v, n);
      case TestMode(on, _, _) => TestModeRefines(v, on);
      case StopFrame(_, _, _, _) =>
      case StartFrame(_, _) => assert Succeeds(op) ==> AddrOf(WriteWord(MAIN, NewValue(op, v))) != SFCTL;
    }
  }

  lemma TwiceIsOnce(v: bv32)
    ensures DataOf(DataOf(v)) == DataOf(v)
  {
  }

  function RunRegs(regs: map<Reg, bv32>, ops: seq<Op>): map<Reg, bv32> {
    if ops == [] then regs else OnRegs(RunRegs(regs, ops[..|ops| - 1]), ops[|ops| - 1])
  }

  // The last limit that was set, and the last test mode, or what was there before.
  function LastThreshold(ops: seq<Op>, before: bv32): bv32 {
    if ops == [] then before
    else
      var op := ops[|ops| - 1];
      if op.SetLimit? && Succeeds(op) then Threshold(op.n) else LastThreshold(ops[..|ops| - 1], before)
  }

  function LastTestMode(ops: seq<Op>, before: bool): bool {
    if ops == [] then before
    else
      var op := ops[|ops| - 1];
      if op.TestMode? && Succeeds(op) then op.on else LastTestMode(ops[..|ops| - 1], before)
  }

  // Under any interleaving of calls, failed transfers included, SFCTL holds the last
  // threshold and the last test mode set, and its other bits never change.
  lemma {:induction false} SfctlOverARun(regs: map<Reg, bv32>, ops: seq<Op>)
    ensures var s := Decode(At(regs, SFCTL));
            Decode(At(RunRegs(regs, ops), SFCTL))
            == Sfctl(LastThreshold(ops, s.cref), s.highSpeed, LastTestMode(ops, s.lfsr), s.rest)
  {
    hide Decode; hide At; hide OnRegs; hide Threshold; hide Succeeds;
    if ops != [] {
      SfctlOverARun(regs, ops[..|ops| - 1]);
      OpRefines(RunRegs(regs, ops[..|ops| - 1]), ops[|ops| - 1]);
    }
  }

  // The recipe's last word for a register decides what configuration leaves there.
  lemma {:induction false} RegisterAfterRecipe(regs: map<Reg, bv32>, recipe: seq<bv32>, addr: Addr, i: nat)
    requires i < |recipe| && AddrOf(recipe[i]) == addr
    requires forall k :: i < k < |recipe| ==> AddrOf(recipe[k]) != addr
    ensures At(AfterWords(regs, EmittedAll(recipe)), addr) == Kept(addr, DataOf(recipe[i]))
  {
    hide Emitted; hide EmittedAll; hide AfterWords; hide AddrOf; hide DataOf; hide Kept; hide IsWrite;
    var n := |recipe| - 1;
    assert recipe[..n + 1] == recipe;
    EmittedOneMore(regs, recipe, n);
    EmittedIsTheRecipeIff(recipe[n]);
    var before := AfterWords(regs, EmittedAll(recipe[..n]));
    if i < n {
      RegisterAfterRecipe(regs, recipe[..n], addr, i);
      assert AddrOf(recipe[n]) != addr;
      assert At(Received(before, Emitted(recipe[n])), addr) == At(before, addr);
    } else {
      TwiceIsOnce(Emitted(recipe[i]));
      assert At(Received(before, Emitted(recipe[n])), addr) == DataOf(DataOf(Emitted(recipe[i])));
    }
  }

  // For SFCTL that is the word without threshold and high-speed bit.
  lemma SfctlAfterRecipe(regs: map<Reg, bv32>, recipe: seq<bv32>, i: nat)
    requires i < |recipe| && AddrOf(recipe[i]) == SFCTL
    requires forall k :: i < k < |recipe| ==> AddrOf(recipe[k]) != SFCTL
    ensures Decode(At(AfterWords(regs, EmittedAll(recipe)), SFCTL)) == Decode(DataOf(recipe[i])).(cref := 0, highSpeed := false)
  {
    hide Decode; hide EmittedAll; hide AfterWords; hide AddrOf; hide DataOf; hide Kept; hide At;
    RegisterAfterRecipe(regs, recipe, SFCTL, i);
    KeptDecodes(DataOf(recipe[i]));
    KeptIs24Bits(SFCTL, recipe[i]);
  }

  // From configuration on, whatever the calls and however their transfers go: the recipe's
  // last SFCTL word gives the bits that never change, the calls give threshold and test mode.
  lemma SfctlFromConfiguration(regs: map<Reg, bv32>, recipe: seq<bv32>, i: nat, ops: seq<Op>)
    requires i < |recipe| && AddrOf(recipe[i]) == SFCTL
    requires forall k :: i < k < |recipe| ==> AddrOf(recipe[k]) != SFCTL
    ensures var s := Decode(DataOf(recipe[i]));
            Decode(At(RunRegs(AfterWords(regs, EmittedAll(recipe)), ops), SFCTL))
            == Sfctl(LastThreshold(ops, 0), false, LastTestMode(ops, s.lfsr), s.rest)
  {
    hide Decode; hide At; hide AfterWords; hide RunRegs; hide AddrOf; hide DataOf; hide EmittedAll;
    SfctlAfterRecipe(regs, recipe, i);
    SfctlOverARun(AfterWords(regs, EmittedAll(recipe)), ops);
  }

  // The application: its recipe has one SFCTL word, every write bit set, and it asks for 128
  // samples; SFCTL then holds the recipe's other bits and a threshold of 63.
  const RADAR_REGS: seq<bv32> := [
    0x011e8270, 0x03088210, 0x09e967fd, 0x0b0805b4, 0x0d1027ff,
    0x0f010700, 0x11000000, 0x13000000, 0x15000000, 0x17000be0,
    0x19000000, 0x1b000000, 0x1d000000, 0x1f000b60, 0x21103c51,
    0x231ff41f, 0x25006f7b, 0x2d000490, 0x3b000480, 0x49000480,
    0x57000480, 0x5911be0e, 0x5b44c40a, 0x5d000000, 0x5f787e1e,
    0x61f5208a, 0x630000a4, 0x65000252, 0x67000080, 0x69000000,
    0x6b000000, 0x6d000000, 0x6f093910, 0x7f000100, 0x8f000100,
    0x9f000100, 0xad000000, 0xb7000000]

  lemma RecipeWords(i: nat)
    requires i < |RADAR_REGS|
    ensures IsWrite(RADAR_REGS[i]) && (AddrOf(RADAR_REGS[i]) == SFCTL <==> i == 4)
    ensures AddrOf(RADAR_REGS[i]) == MAIN <==> i == 0
    ensures i == 4 ==> DataOf(RADAR_REGS[i]) == 0x1027FF
    ensures i == 0 ==> DataOf(RADAR_REGS[i]) == 0x1E8270
  {
    if {
      case i < 10 =>
      case 10 <= i < 20 =>
      case 20 <= i < 29 =>
      case i >= 29 =>
    }
  }

  lemma StreamerSetUp(regs: map<Reg, bv32>, ops: seq<Op>)
    requires ops == [SetLimit(128, 0, 0), StartFrame(0, 0)]
    ensures Decode(At(RunRegs(AfterWords(regs, EmittedAll(RADAR_REGS)), ops), SFCTL)) == Sfctl(63, false, false, 0x102000)
    ensures At(RunRegs(AfterWords(regs, EmittedAll(RADAR_REGS)), ops), MAIN) == 0x1E8271
  {
    hide AfterWords; hide EmittedAll; hide AddrOf; hide DataOf; hide RunRegs;
    forall k | 0 <= k < |RADAR_REGS|
      ensures (AddrOf(RADAR_REGS[k]) == SFCTL <==> k == 4) && (AddrOf(RADAR_REGS[k]) == MAIN <==> k == 0)
    {
      RecipeWords(k);
    }
    RecipeWords(0);
    RecipeWords(4);
    assert Decode(0x1027FF) == Sfctl(0x7FF, false, false, 0x102000) && Threshold(128) == 63;
    assert !BadLimit(128);
    hide Decode; hide Threshold; hide BadLimit;
    SfctlFromConfiguration(regs, RADAR_REGS, 4, ops);
    RegisterAfterRecipe(regs, RADAR_REGS, MAIN, 0);
    StartAfterLimit(AfterWords(regs, EmittedAll(RADAR_REGS)), ops);
    var first := SetLimit(128, 0, 0);
    assert ops[..1] == [first] && [first][..0] == [];
    assert LastThreshold([first], 0) == Threshold(128) && LastThreshold(ops, 0) == LastThreshold([first], 0);
    assert !LastTestMode([], false) && !LastTestMode([first], false);
    assert LastTestMode(ops, false) == LastTestMode([first], false);
  }

  // A call changes the register it is about and no other.
  lemma OthersStay(regs: map<Reg, bv32>, op: Op, addr: Addr)
    requires addr != Register(op)
    ensures At(OnRegs(regs, op), addr) == At(regs, addr)
  {
    hide WriteWord; hide Received; hide DataOf; hide NewValue;
    WriteIsSeen(regs, Register(op), NewValue(op, At(regs, Register(op))));
  }

  lemma StartAfterLimit(regs: map<Reg, bv32>, ops: seq<Op>)
    requires ops == [SetLimit(128, 0, 0), StartFrame(0, 0)] && At(regs, MAIN) == 0x1E8270
    ensures At(RunRegs(regs, ops), MAIN) == 0x1E8271
  {
    hide OnRegs; hide At; hide FrameStarted; hide DataOf;
    var first := SetLimit(128, 0, 0);
    assert ops[..1] == [first] && [first][..0] == [];
    assert RunRegs(regs, [first]) == OnRegs(regs, first);
    OthersStay(regs, first, MAIN);
    StartIsSeen(OnRegs(regs, first), 0, 0);
    OwnBitsOnly(RunRegs(regs, ops), MAIN);
    BitsDecide(At(RunRegs(regs, ops), MAIN));
  }

  lemma OwnBitsOnly(regs: map<Reg, bv32>, addr: Addr)
    ensures DataOf(At(regs, addr)) == At(regs, addr)
  {
    if Reg(addr) in regs {
      TwiceIsOnce(regs[Reg(addr)]);
      hide DataOf;
    }
  }

  lemma BitsDecide(v: bv32)
    requires DataOf(v) == v && FrameStarted(0x1E8270, v)
    ensures v == 0x1E8271
  {
  }
}
