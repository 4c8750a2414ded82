/** The raw SCB2 transmit path of diag.c: a FIFO and a shift register that the
    hardware drains on its own, whatever the firmware is doing. */
module Console {

  // A byte on the wire; `clean` when the baud divider matched the peripheral clock for
  // the whole time the byte was being shifted out.
  datatype Sent = Sent(byte: char, clean: bool)

  const HEADROOM := 16

  function Bytes(s: seq<Sent>): string {
    if s == [] then [] else Bytes(s[..|s| - 1]) + [s[|s| - 1].byte]
  }

  // LF becomes CR LF.
  function CrLf(s: string): string {
    if s == [] then []
    else
      var c := s[|s| - 1];
      CrLf(s[..|s| - 1]) + if c == '\n' then ['\r', '\n'] else [c]
  }

  // The reading of a terminal log that drops the character in front of every LF.
  function UnCrLf(t: string): string
    decreases |t|
  {
    if t == [] then []
    else
      var c := t[|t| - 1];
      if c == '\n' && |t| >= 2 then UnCrLf(t[..|t| - 2]) + [c] else UnCrLf(t[..|t| - 1]) + [c]
  }

  lemma UnCrLfOfPlain(t: string, c: char)
    requires c != '\n'
    ensures UnCrLf(t + [c]) == UnCrLf(t) + [c]
  {
    assert (t + [c])[..|t|] == t;
  }

  lemma UnCrLfOfNewline(t: string)
    ensures UnCrLf(t + ['\r', '\n']) == UnCrLf(t) + ['\n']
  {
    assert (t + ['\r', '\n'])[..|t|] == t;
  }

  // What the wire carries determines what was traced.
  lemma {:induction false} CrLfIsLossless(s: string)
    ensures UnCrLf(CrLf(s)) == s
  {
    if s != [] {
      hide UnCrLf;
      var rest, c := s[..|s| - 1], s[|s| - 1];
      assert s == rest + [c];
      CrLfIsLossless(rest);
      if c == '\n' {
        UnCrLfOfNewline(CrLf(rest));
      } else {
        UnCrLfOfPlain(CrLf(rest), c);
      }
    }
  }

  function LineFeeds(s: string): nat {
    if s == [] then 0 else LineFeeds(s[..|s| - 1]) + if s[|s| - 1] == '\n' then 1 else 0
  }

  // Every LF on the wire stands behind a CR, and these CRs are all that is added.
  lemma {:induction false} CrLfAddsCrOnly(s: string)
    ensures |CrLf(s)| == |s| + LineFeeds(s)
    ensures forall i :: 0 <= i < |CrLf(s)| && CrLf(s)[i] == '\n' ==> i > 0 && CrLf(s)[i - 1] == '\r'
  {
    if s != [] {
      var n := |s| - 1;
      CrLfAddsCrOnly(s[..n]);
      assert CrLf(s) == CrLf(s[..n]) + if s[n] == '\n' then ['\r', '\n'] else [s[n]];
    }
  }

  predicate AllClean(s: seq<Sent>) { forall i :: 0 <= i < |s| ==> s[i].clean }

  // Emitting one byte.
  lemma OneMore(wire: seq<Sent>, s: Sent, clean: bool)
    ensures Bytes(wire + [Sent(s.byte, clean)]) == Bytes(wire) + [s.byte]
    ensures AllClean(wire + [Sent(s.byte, clean)]) <==> AllClean(wire) && clean
  {
    var grown := wire + [Sent(s.byte, clean)];
    assert grown[..|wire|] == wire;
    assert forall i :: 0 <= i < |wire| ==> grown[i] == wire[i];
    assert grown[|wire|].clean == clean;
  }

  // What a mode switch promises about the console.
  datatype ConsoleView = ConsoleView(text: string, clean: bool, baud: bool)

  // A text is readable only if it is queued while the baud divider is right.
  function Printed(v: ConsoleView, text: string): ConsoleView {
    if text == [] then v else v.(text := v.text + CrLf(text), clean := v.clean && v.baud)
  }

  class Scb {
    var fifo: string
    var shift: seq<Sent>      // empty or one byte
    var wire: seq<Sent>
    var baudMatches: bool

    ghost predicate Valid() reads this { |shift| <= 1 }

    predicate Idle() reads this { fifo == [] && shift == [] }

    // Everything handed to the SCB so far, in wire order.
    ghost function Stream(): string reads this {
      Bytes(wire) + ((if shift == [] then [] else [shift[0].byte]) + fifo)
    }

    // Every byte sent, in flight or queued comes out readable if the clock stays put.
    ghost predicate Clean() reads this {
      && AllClean(wire)
      && (shift != [] ==> shift[0].clean && baudMatches)
      && (fifo != [] ==> baudMatches)
    }

    ghost function View(): ConsoleView reads this { ConsoleView(Stream(), Clean(), baudMatches) }

    constructor ()
      ensures Valid() && Idle() && wire == [] && baudMatches && Stream() == [] && Clean()
    {
      fifo, shift, wire, baudMatches := [], [], [], true;
    }

    // One step of the shift register.
    method Tick()
      requires Valid()
      modifies this`fifo, this`shift, this`wire
      ensures Valid() && Stream() == old(Stream())
      ensures 2 * |fifo| + |shift| <= 2 * |old(fifo)| + |old(shift)|
      ensures !old(Idle()) ==> 2 * |fifo| + |shift| < 2 * |old(fifo)| + |old(shift)|
      ensures |fifo| <= |old(fifo)| && |wire| >= |old(wire)|
      ensures old(Idle()) ==> Idle()
      ensures Clean() == old(Clean())
    {
      if shift != [] {
        OneMore(wire, shift[0], shift[0].clean && baudMatches);
        assert Bytes(wire) + ([shift[0].byte] + fifo) == (Bytes(wire) + [shift[0].byte]) + fifo;
        assert [] + fifo == fifo;
        wire := wire + [Sent(shift[0].byte, shift[0].clean && baudMatches)];
        shift := [];
      } else if fifo != [] {
        assert [] + fifo == [fifo[0]] + fifo[1..];
        shift := [Sent(fifo[0], baudMatches)];
        fifo := fifo[1..];
      }
    }

    // The hardware runs on between two polls of the status register, by any amount but
    // at least one step.
    method Elapse()
      requires Valid()
      modifies this`fifo, this`shift, this`wire
      ensures Valid() && Stream() == old(Stream())
      ensures !old(Idle()) ==> 2 * |fifo| + |shift| < 2 * |old(fifo)| + |old(shift)|
      ensures |fifo| <= |old(fifo)|
      ensures old(Idle()) ==> Idle()
      ensures Clean() == old(Clean())
    {
      Tick();
      var more: nat := *;
      while more > 0
        invariant Valid() && Stream() == old(Stream()) && |fifo| <= |old(fifo)|
        invariant !old(Idle()) ==> 2 * |fifo| + |shift| < 2 * |old(fifo)| + |old(shift)|
        invariant old(Idle()) ==> Idle()
        invariant Clean() == old(Clean())
      {
        Tick();
        more := more - 1;
      }
    }

    // diag_trace_char: wait for headroom, then queue one byte.
    method TraceChar(c: char)
      requires Valid()
      modifies this`fifo, this`shift, this`wire
      ensures Valid() && Stream() == old(Stream()) + [c]
      ensures |fifo| <= 16
      ensures Clean() <==> old(Clean()) && baudMatches
    {
      while |fifo| >= HEADROOM
        invariant Valid() && Stream() == old(Stream())
        invariant Clean() == old(Clean())
        decreases 2 * |fifo| + |shift|
      {
        Elapse();
      }
      fifo := fifo + [c];
    }

    // diag_trace.
    method Trace(s: string)
      requires Valid()
      modifies this`fifo, this`shift, this`wire
      ensures Valid() && Stream() == old(Stream()) + CrLf(s)
      ensures s != [] ==> |fifo| <= 16
      ensures View() == Printed(old(View()), s)
    {
      for i := 0 to |s|
        invariant Valid() && Stream() == old(Stream()) + CrLf(s[..i])
        invariant i > 0 ==> |fifo| <= 16
        invariant i == 0 ==> Clean() == old(Clean())
        invariant i > 0 ==> (Clean() <==> old(Clean()) && baudMatches)
      {
        assert s[..i + 1][..i] == s[..i];
        if s[i] == '\n' {
          TraceChar('\r');
        }
        TraceChar(s[i]);
      }
      assert s[..|s|] == s;
    }

    // printk: the system's console driver expands LF and waits for room as well.
    method Print(s: string)
      requires Valid()
      modifies this`fifo, this`shift, this`wire
      ensures Valid() && View() == Printed(old(View()), s)
    {
      Trace(s);
    }

    // diag_trace_flush: wait for the FIFO and the shift register to empty.
    method Flush()
      requires Valid()
      modifies this`fifo, this`shift, this`wire
      ensures Valid() && Idle() && Stream() == old(Stream())
      ensures Clean() == old(Clean())
    {
      while fifo != [] || shift != []
        invariant Valid() && Stream() == old(Stream())
        invariant Clean() == old(Clean())
        decreases 2 * |fifo| + |shift|
      {
        Elapse();
      }
    }

    // The peripheral clock changes under the SCB.
    method ClockLost()
      requires Valid() && Idle()
      modifies this`baudMatches
      ensures Valid() && !baudMatches && Clean() == old(Clean())
    {
      baudMatches := false;
    }

    // uart_configure() against the live clock.
    method Reconfigure()
      requires Valid() && Idle()
      modifies this`baudMatches
      ensures Valid() && baudMatches && Clean() == old(Clean())
    {
      baudMatches := true;
    }
  }
}
