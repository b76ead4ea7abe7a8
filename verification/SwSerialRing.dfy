/** The receive ring of the bit-banged serial port (sw_serial.h): the pin interrupt
    appends at `inPos` while the reader, which it may interrupt between any two of
    its steps, takes from `outPos`. */
module SwSerialRing {
  import opened MachineIntegers

  // The fields of the port that the ring uses, as a value.
  datatype Ring = Ring(inPos: nat, outPos: nat, overflow: bool, buffer: seq<bv8>)

  // `sw_new` takes the size as an `int`; a ring of size 0 has no positions.
  predicate Valid(r: Ring) {
    0 < |r.buffer| < TWO_31 && r.inPos < |r.buffer| && r.outPos < |r.buffer|
  }

  // ----- specification: a ring is a sequence -----

  function Occupancy(r: Ring): nat
    requires Valid(r)
  {
    if r.inPos >= r.outPos then r.inPos - r.outPos else r.inPos + |r.buffer| - r.outPos
  }

  function Contents(r: Ring): (s: seq<bv8>)
    requires Valid(r)
  {
    if r.inPos >= r.outPos then r.buffer[r.outPos..r.inPos]
    else r.buffer[r.outPos..] + r.buffer[..r.inPos]
  }

  // ----- the operations, on values -----

  function Next(r: Ring, pos: nat): nat
    requires Valid(r)
  {
    if pos + 1 == |r.buffer| then 0 else pos + 1
  }

  // The port computes the next position with a remainder.
  lemma NextByRemainder(pos: nat, size: nat)
    requires pos < size
    ensures (pos + 1) % size == if pos + 1 == size then 0 else pos + 1
  {
  }

  predicate Full(r: Ring)
    requires Valid(r)
  {
    Next(r, r.inPos) == r.outPos
  }

  function Store(r: Ring, b: bv8): Ring
    requires Valid(r)
  {
    if Full(r) then r.(overflow := true)
    else r.(buffer := r.buffer[r.inPos := b], inPos := Next(r, r.inPos))
  }

  function Advance(r: Ring): Ring
    requires Valid(r)
  {
    r.(outPos := Next(r, r.outPos))
  }

  // Storing appends to the sequence, or flags the overflow when one slot is left.
  lemma StoreAppends(r: Ring, b: bv8)
    requires Valid(r)
    ensures Valid(Store(r, b))
    ensures Full(r) <==> |Contents(r)| == |r.buffer| - 1
    ensures Contents(Store(r, b)) == if Full(r) then Contents(r) else Contents(r) + [b]
    ensures Store(r, b).overflow == (r.overflow || Full(r))
    ensures Store(r, b).outPos == r.outPos
    ensures r.inPos != r.outPos ==> Store(r, b).buffer[r.outPos] == r.buffer[r.outPos]
  {
  }

  lemma AdvanceDropsFirst(r: Ring)
    requires Valid(r) && r.inPos != r.outPos
    ensures Valid(Advance(r)) && Contents(r) != []
    ensures Contents(r)[0] == r.buffer[r.outPos]
    ensures Contents(Advance(r)) == Contents(r)[1..]
  {
  }

  lemma DifferenceFits(d: int)
    requires -TWO_31 < d < TWO_31
    ensures S32(U32(d)) == d
  {
  }

  // A difference computed in unsigned 32-bit arithmetic and read as a signed number.
  method Wrapped(d: int) returns (r: int)
    requires -TWO_31 < d < TWO_31
    ensures r == d
  {
    DifferenceFits(d);
    r := S32(U32(d));
  }

  // ----- the port -----

  class SwSerial {
    var inPos: nat
    var outPos: nat
    var overflow: bool
    const buffer: array<bv8>
    const invert: bool

    ghost function State(): Ring
      reads this, buffer
    {
      Ring(inPos, outPos, overflow, buffer[..])
    }

    // sw_new
    constructor (inverse: bool, buffSize: nat)
      requires 0 < buffSize < TWO_31
      ensures Valid(State()) && Contents(State()) == [] && !overflow && |State().buffer| == buffSize
      ensures invert == inverse && fresh(buffer)
    {
      invert := inverse;
      inPos, outPos, overflow := 0, 0, false;
      buffer := new bv8[buffSize];
    }

    // `(pos + 1) % buffSize`
    method NextPosition(pos: nat) returns (next: nat)
      requires Valid(State()) && pos < buffer.Length
      ensures next == Next(State(), pos)
    {
      NextByRemainder(pos, buffer.Length);
      next := (pos + 1) % buffer.Length;
    }

    // The end of sw_rx_handler: a byte with a good stop bit reaches the ring.
    method StoreReceived(rec: bv8)
      requires Valid(State())
      modifies this, buffer
      ensures State() == Store(old(State()), if invert then !rec else rec)
      ensures Valid(State())
      ensures Contents(State()) ==
              if old(Full(State())) then old(Contents(State()))
              else old(Contents(State())) + [if invert then !rec else rec]
    {
      var b := if invert then !rec else rec;
      ghost var was := State();
      StoreAppends(was, b);
      var next := NextPosition(inPos);
      if next != outPos {
        buffer[inPos] := b;
        assert buffer[..] == was.buffer[inPos := b];
        inPos := next;
      } else {
        overflow := true;
      }
      assert State() == Store(was, b);
    }

    // sw_read, uninterrupted: -1 when there is nothing to read.
    method Read() returns (ch: int)
      requires Valid(State())
      modifies this`outPos
      ensures Valid(State())
      ensures old(Contents(State())) == [] ==> ch == -1 && State() == old(State())
      ensures old(Contents(State())) != [] ==>
                && ch == old(Contents(State()))[0] as int
                && Contents(State()) == old(Contents(State()))[1..]
                && State() == Advance(old(State()))
    {
      if inPos != outPos {
        AdvanceDropsFirst(State());
        var b := buffer[outPos];
        outPos := NextPosition(outPos);
        return b as int;
      }
      return -1;
    }

    // sw_any, in the port's 32-bit arithmetic.
    method Any() returns (n: int)
      requires Valid(State())
      ensures n == |Contents(State())| && 0 <= n <= buffer.Length - 1
    {
      var avail := Wrapped(inPos - outPos);
      n := avail;
      if avail < 0 {
        n := Wrapped(avail + buffer.Length);
      }
    }

    // sw_flush
    method Flush()
      requires Valid(State())
      modifies this`inPos, this`outPos, this`overflow
      ensures Valid(State()) && Contents(State()) == [] && !overflow
    {
      inPos, outPos, overflow := 0, 0, false;
    }
  }

  // ----- every interleaving of interrupts with the steps of sw_read -----

  // Where the reader is inside sw_read: before the test, after it, after the load.
  datatype Reader = Idle | Tested | Loaded(ch: bv8)

  // An interrupt with a received byte, or the reader's next step.
  datatype Event = Interrupt(b: bv8) | ReaderStep

  datatype Machine = Machine(
    ring: Ring, reader: Reader, received: seq<bv8>, accepted: seq<bv8>, delivered: seq<bv8>)

  function Init(buffer: seq<bv8>): Machine {
    Machine(Ring(0, 0, false, buffer), Idle, [], [], [])
  }

  function Step(m: Machine, e: Event): Machine
    requires Valid(m.ring)
  {
    match e
    case Interrupt(b) =>
      m.(ring := Store(m.ring, b), received := m.received + [b],
         accepted := if Full(m.ring) then m.accepted else m.accepted + [b])
    case ReaderStep =>
      match m.reader
      case Idle => if m.ring.inPos != m.ring.outPos then m.(reader := Tested) else m
      case Tested => m.(reader := Loaded(m.ring.buffer[m.ring.outPos]))
      case Loaded(ch) => m.(reader := Idle, ring := Advance(m.ring), delivered := m.delivered + [ch])
  }

  ghost predicate Fifo(m: Machine) {
    && Valid(m.ring)
    && m.delivered + Contents(m.ring) == m.accepted
    && (m.reader != Idle ==> m.ring.inPos != m.ring.outPos)
    && (m.reader.Loaded? ==> m.reader.ch == m.ring.buffer[m.ring.outPos])
    && (m.ring.overflow <==> m.accepted != m.received)
    && |m.accepted| <= |m.received|
    && (|m.accepted| == |m.received| ==> m.accepted == m.received)
  }

  lemma InterruptKeepsFifo(m: Machine, b: bv8)
    requires Fifo(m)
    ensures Fifo(Step(m, Interrupt(b)))
  {
    StoreAppends(m.ring, b);
    if !Full(m.ring) {
      assert m.delivered + (Contents(m.ring) + [b]) == (m.delivered + Contents(m.ring)) + [b];
      assert (m.accepted + [b])[..|m.accepted|] == m.accepted;
      assert (m.received + [b])[..|m.received|] == m.received;
    }
  }

  lemma ReaderKeepsFifo(m: Machine)
    requires Fifo(m)
    ensures Fifo(Step(m, ReaderStep))
  {
    match m.reader
    case Loaded(ch) =>
      AdvanceDropsFirst(m.ring);
      FirstMoves(m.delivered, Contents(m.ring));
    case _ =>
  }

  lemma FirstMoves(read: seq<bv8>, buffered: seq<bv8>)
    requires buffered != []
    ensures (read + [buffered[0]]) + buffered[1..] == read + buffered
  {
  }

  lemma StepKeepsFifo(m: Machine, e: Event)
    requires Fifo(m)
    ensures Fifo(Step(m, e))
  {
    match e
    case Interrupt(b) => InterruptKeepsFifo(m, b);
    case ReaderStep => ReaderKeepsFifo(m);
  }

  ghost function Run(m: Machine, events: seq<Event>): (r: Machine)
    requires Fifo(m)
    ensures Fifo(r)
    decreases |events|
  {
    if events == [] then m else
      StepKeepsFifo(m, events[0]);
      Run(Step(m, events[0]), events[1..])
  }

  // On every interleaving: what was read followed by what is buffered is what was
  // accepted, at most size - 1 bytes are buffered, and the overflow flag is set exactly
  // when a received byte was dropped.
  lemma EveryInterleavingIsFifo(buffer: seq<bv8>, events: seq<Event>)
    requires 0 < |buffer| < TWO_31
    ensures Fifo(Init(buffer))
    ensures var m := Run(Init(buffer), events);
            && m.delivered + Contents(m.ring) == m.accepted
            && |Contents(m.ring)| == Occupancy(m.ring) <= |buffer| - 1
            && (!m.ring.overflow <==> m.accepted == m.received)
            && (!m.ring.overflow ==> m.delivered <= m.received)
    decreases |events|
  {
    RunKeepsSize(Init(buffer), events);
  }

  lemma {:induction false} RunKeepsSize(m: Machine, events: seq<Event>)
    requires Fifo(m)
    ensures |Run(m, events).ring.buffer| == |m.ring.buffer|
    decreases |events|
  {
    if events != [] {
      StepKeepsFifo(m, events[0]);
      RunKeepsSize(Step(m, events[0]), events[1..]);
    }
  }

  // A completed run of reader steps without interrupts is one uninterrupted sw_read.
  lemma ThreeStepsAreOneRead(m: Machine)
    requires Fifo(m) && m.reader == Idle && Contents(m.ring) != []
    ensures var r := Step(Step(Step(m, ReaderStep), ReaderStep), ReaderStep);
            r == m.(ring := Advance(m.ring), delivered := m.delivered + [Contents(m.ring)[0]])
  {
  }
}
