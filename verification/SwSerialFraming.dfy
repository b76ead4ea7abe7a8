/** Bit framing of the bit-banged serial port (sw_serial.h): `sw_write` drives one
    start cell, eight data cells (least significant bit first) and one stop cell;
    `sw_rx_handler` samples the line at instants set by busy-waits on the 32-bit
    cycle counter. Times are in CPU cycles. */
module SwSerialFraming {
  import opened Options
  import opened MachineIntegers

  // ----- the line -----

  // The level at cycle `t`, counted from the falling edge of the start cell.
  // After the last given cell the line is idle (high).
  function Level(cells: seq<bool>, bitTime: nat, t: nat): bool
    requires bitTime > 0
  {
    var c := t / bitTime;
    if c < |cells| then cells[c] else true
  }

  function LsbFirst(b: bv8, n: nat): seq<bool> {
    if n == 0 then [] else [b & 1 == 1] + LsbFirst(b >> 1, n - 1)
  }

  function OnWire(invert: bool, b: bv8): bv8 {
    if invert then !b else b
  }

  function Frame(invert: bool, b: bv8): seq<bool> {
    [false] + LsbFirst(OnWire(invert, b), 8) + [true]
  }

  lemma EmitLsb(cells: seq<bool>, b: bv8, n: nat)
    requires n > 0
    ensures cells + LsbFirst(b, n) == cells + [b & 1 == 1] + LsbFirst(b >> 1, n - 1)
  {
  }

  function Bit(b: bv8, k: nat): bool
    requires k < 8
  {
    match k
    case 0 => b & 1 != 0
    case 1 => b & 2 != 0
    case 2 => b & 4 != 0
    case 3 => b & 8 != 0
    case 4 => b & 16 != 0
    case 5 => b & 32 != 0
    case 6 => b & 64 != 0
    case _ => b & 128 != 0
  }

  lemma BitOfHalf(b: bv8, k: nat)
    requires 0 < k < 8
    ensures Bit(b >> 1, k - 1) == Bit(b, k)
  {
  }

  lemma {:induction false} CellIsBit(b: bv8, n: nat, k: nat)
    requires k < n <= 8
    ensures |LsbFirst(b, n)| > k && LsbFirst(b, n)[k] == Bit(b, k)
    decreases n
  {
    if k > 0 {
      CellIsBit(b >> 1, n - 1, k - 1);
      BitOfHalf(b, k);
    }
  }

  // A frame is a low start cell, the bits of the byte from the lowest one on, and a high
  // stop cell.
  lemma FrameCells(invert: bool, b: bv8, k: nat)
    requires k < 8
    ensures |Frame(invert, b)| == 10 && !Frame(invert, b)[0] && Frame(invert, b)[9]
    ensures Frame(invert, b)[k + 1] == if invert then !Bit(b, k) else Bit(b, k)
  {
    LsbFirstLength(OnWire(invert, b), 8);
    CellIsBit(OnWire(invert, b), 8, k);
    BitOfComplement(b, k);
  }

  lemma BitOfComplement(b: bv8, k: nat)
    requires k < 8
    ensures Bit(!b, k) == !Bit(b, k)
  {
  }

  // sw_write: the levels the pin is held at, one bit time each.
  method Write(invert: bool, b: bv8) returns (cells: seq<bool>)
    ensures cells == Frame(invert, b)
  {
    var byte := if invert then !b else b;
    cells := [false];
    ghost var wire := byte;
    for i := 0 to 8
      invariant cells + LsbFirst(byte, 8 - i) == [false] + LsbFirst(wire, 8)
    {
      EmitLsb(cells, byte, 8 - i);
      cells := cells + [byte & 1 == 1];
      byte := byte >> 1;
    }
    assert cells == [false] + LsbFirst(wire, 8);
    cells := cells + [true];
  }

  // ----- the receiver -----

  function ShiftIn(rec: bv8, bit: bool): bv8 {
    if bit then (rec >> 1) | 0x80 else rec >> 1
  }

  function Assemble(rec: bv8, bits: seq<bool>): bv8
    decreases |bits|
  {
    if bits == [] then rec else Assemble(ShiftIn(rec, bits[0]), bits[1..])
  }

  lemma {:induction false} AssembleAppends(rec: bv8, bits: seq<bool>, bit: bool)
    ensures Assemble(rec, bits + [bit]) == ShiftIn(Assemble(rec, bits), bit)
    decreases |bits|
  {
    if bits != [] {
      assert (bits + [bit])[1..] == bits[1..] + [bit];
      AssembleAppends(ShiftIn(rec, bits[0]), bits[1..], bit);
    }
  }

  // Latency before the handler runs, the waits it is configured with, and by how much
  // each of its ten waits overshoots (start, eight data bits, stop).
  datatype Timing = Timing(latency: nat, bitTime: nat, rxStart: nat, rxEnd: nat, over: seq<nat>)

  ghost predicate ValidTiming(tm: Timing) {
    tm.bitTime > 0 && |tm.over| == 10
  }

  // How late, relative to the start of its cell, the k-th sample is taken.
  function Drift(tm: Timing, k: nat): nat
    requires k < |tm.over|
  {
    if k == 0 then tm.latency + tm.rxStart + tm.over[0] else Drift(tm, k - 1) + tm.over[k]
  }

  // The instant of sample k: the start check is sample 0, data bit i is sample i + 1.
  function SampleTime(tm: Timing, k: nat): nat
    requires k < |tm.over|
  {
    if k == 0 then tm.latency + tm.rxStart + tm.over[0] else SampleTime(tm, k - 1) + tm.bitTime + tm.over[k]
  }

  lemma {:induction false} SampleTimeIsDrift(tm: Timing, k: nat)
    requires k < |tm.over|
    ensures SampleTime(tm, k) == k * tm.bitTime + Drift(tm, k)
  {
    if k > 0 {
      SampleTimeIsDrift(tm, k - 1);
      assert k * tm.bitTime == (k - 1) * tm.bitTime + tm.bitTime;
    }
  }

  function StopTime(tm: Timing): nat
    requires |tm.over| == 10
  {
    SampleTime(tm, 8) + tm.rxEnd + tm.over[9]
  }

  ghost function Samples(tm: Timing, cells: seq<bool>): (bits: seq<bool>)
    requires ValidTiming(tm)
    ensures |bits| == 8
  {
    seq(8, i requires 0 <= i < 8 => Level(cells, tm.bitTime, SampleTime(tm, i + 1)))
  }

  // What the handler hands to the ring, if anything.
  ghost function Received(invert: bool, tm: Timing, cells: seq<bool>): Option<bv8>
    requires ValidTiming(tm)
  {
    if !Level(cells, tm.bitTime, SampleTime(tm, 0)) && Level(cells, tm.bitTime, StopTime(tm))
    then Some(OnWire(invert, Assemble(0, Samples(tm, cells))))
    else None
  }

  // The loop over the eight data bits.
  method ReceiveBits(tm: Timing, cells: seq<bool>) returns (rec: bv8, t: nat)
    requires ValidTiming(tm)
    ensures rec == Assemble(0, Samples(tm, cells))
    ensures t == SampleTime(tm, 8)
  {
    rec := 0;
    t := tm.latency + tm.rxStart + tm.over[0];
    ghost var bits := Samples(tm, cells);
    for i := 0 to 8
      invariant t == SampleTime(tm, i)
      invariant rec == Assemble(0, bits[..i])
    {
      AssembleAppends(0, bits[..i], bits[i]);
      assert bits[..i + 1] == bits[..i] + [bits[i]];
      rec := rec >> 1;
      t := t + tm.bitTime + tm.over[i + 1];
      if Level(cells, tm.bitTime, t) {
        rec := rec | 0x80;
      }
    }
    assert bits[..8] == bits;
  }

  // sw_rx_handler up to the ring.
  method Receive(invert: bool, tm: Timing, cells: seq<bool>) returns (r: Option<bv8>)
    requires ValidTiming(tm)
    ensures r == Received(invert, tm, cells)
  {
    r := None;
    if !Level(cells, tm.bitTime, tm.latency + tm.rxStart + tm.over[0]) {
      var rec, t := ReceiveBits(tm, cells);
      if Level(cells, tm.bitTime, t + tm.rxEnd + tm.over[9]) {
        r := Some(if invert then !rec else rec);
      }
    }
  }

  // ----- a frame decodes to its byte -----

  lemma AssembleLsb(rec: bv8, b: bv8, n: nat)
    requires n > 0
    ensures Assemble(rec, LsbFirst(b, n)) == Assemble(ShiftIn(rec, b & 1 == 1), LsbFirst(b >> 1, n - 1))
  {
  }

  function Lsb(b: bv8): bool { b & 1 == 1 }

  function ShiftInFour(rec: bv8, b: bv8): bv8 {
    ShiftIn(ShiftIn(ShiftIn(ShiftIn(rec, Lsb(b)), Lsb(b >> 1)), Lsb(b >> 1 >> 1)), Lsb(b >> 1 >> 1 >> 1))
  }

  lemma AssembleFour(rec: bv8, b: bv8, n: nat)
    ensures Assemble(rec, LsbFirst(b, n + 4)) ==
            Assemble(ShiftInFour(rec, b), LsbFirst(b >> 1 >> 1 >> 1 >> 1, n))
  {
    var r1 := ShiftIn(rec, Lsb(b));
    var r2 := ShiftIn(r1, Lsb(b >> 1));
    var r3 := ShiftIn(r2, Lsb(b >> 1 >> 1));
    AssembleLsb(rec, b, n + 4);
    AssembleLsb(r1, b >> 1, n + 3);
    AssembleLsb(r2, b >> 1 >> 1, n + 2);
    AssembleLsb(r3, b >> 1 >> 1 >> 1, n + 1);
  }

  // Eight right shifts that feed in the bits of `b` from the top leave `b`.
  lemma EightShifts(b: bv8)
    ensures ShiftInFour(ShiftInFour(0, b), b >> 1 >> 1 >> 1 >> 1) == b
  {
  }

  lemma AssembleInvertsLsb(b: bv8)
    ensures Assemble(0, LsbFirst(b, 8)) == b
  {
    var high := b >> 1 >> 1 >> 1 >> 1;
    AssembleFour(0, b, 4);
    AssembleFour(ShiftInFour(0, b), high, 0);
    EightShifts(b);
  }

  // ----- the timing window -----

  lemma LevelInCell(cells: seq<bool>, bitTime: nat, t: nat, c: nat, off: nat)
    requires bitTime > 0 && off < bitTime && t == c * bitTime + off
    ensures t / bitTime == c
    ensures Level(cells, bitTime, t) == if c < |cells| then cells[c] else true
  {
    CellOf(bitTime, t, c, off);
  }

  lemma {:induction false} TimesMonotone(a: nat, b: nat, n: nat)
    requires a <= b
    ensures a * n <= b * n
    decreases b - a
  {
  }

  lemma CellAtLeast(bitTime: nat, t: nat, c: nat)
    requires bitTime > 0 && t >= c * bitTime
    ensures t / bitTime >= c
  {
    var q, r := t / bitTime, t % bitTime;
    assert t == q * bitTime + r && r < bitTime;
    if q < c {
      TimesMonotone(q + 1, c, bitTime);
      assert false;
    }
  }

  lemma CellOf(bitTime: nat, t: nat, c: nat, off: nat)
    requires bitTime > 0 && off < bitTime && t == c * bitTime + off
    ensures t / bitTime == c
  {
    CellAtLeast(bitTime, t, c);
    var q, r := t / bitTime, t % bitTime;
    assert t == q * bitTime + r && r < bitTime;
    if c < q {
      TimesMonotone(c + 1, q, bitTime);
      assert false;
    }
  }

  lemma {:induction false} DriftGrows(tm: Timing, k: nat, n: nat)
    requires k <= n < |tm.over|
    ensures Drift(tm, k) <= Drift(tm, n)
  {
    if k < n {
      DriftGrows(tm, k, n - 1);
    }
  }

  // How late, relative to the end of the last data cell minus one bit time, the stop bit is sampled.
  function StopOffset(tm: Timing): nat
    requires |tm.over| == 10
  {
    Drift(tm, 8) + tm.rxEnd + tm.over[9]
  }

  // The last data sample stays inside its cell, the stop sample falls in the stop cell.
  predicate InWindow(tm: Timing)
    requires |tm.over| == 10
  {
    Drift(tm, 8) < tm.bitTime && tm.bitTime <= StopOffset(tm) < 2 * tm.bitTime
  }

  // sw_enableRx attaches the handler to the falling edge, or with `invert` to the rising one.
  predicate Triggers(invert: bool, before: bool, level: bool) {
    if invert then !before && level else before && !level
  }

  // sw_write pulses the line high before the start cell, so there is a falling edge from
  // any level, but a rising one only from a low line.
  predicate StartTriggers(invert: bool, before: bool) {
    !invert || !before
  }

  // The byte is received by the handler that its own start cell triggers.
  ghost predicate RoundTrips(invert: bool, before: bool, tm: Timing, b: bv8, next: seq<bool>)
    requires ValidTiming(tm)
  {
    StartTriggers(invert, before) && Received(invert, tm, Frame(invert, b) + next) == Some(b)
  }

  lemma {:induction false} LsbFirstLength(b: bv8, n: nat)
    ensures |LsbFirst(b, n)| == n
    decreases n
  {
    if n > 0 {
      LsbFirstLength(b >> 1, n - 1);
    }
  }

  // Inside the window, sample i + 1 reads data bit i.
  lemma SamplesAreBits(invert: bool, tm: Timing, b: bv8, next: seq<bool>)
    requires ValidTiming(tm) && Drift(tm, 8) < tm.bitTime
    ensures Samples(tm, Frame(invert, b) + next) == LsbFirst(OnWire(invert, b), 8)
    ensures !Level(Frame(invert, b) + next, tm.bitTime, SampleTime(tm, 0))
  {
    var cells := Frame(invert, b) + next;
    var bits := LsbFirst(OnWire(invert, b), 8);
    LsbFirstLength(OnWire(invert, b), 8);
    forall k | 0 <= k <= 8 ensures Level(cells, tm.bitTime, SampleTime(tm, k)) == cells[k] {
      SampleTimeIsDrift(tm, k);
      DriftGrows(tm, k, 8);
      LevelInCell(cells, tm.bitTime, SampleTime(tm, k), k, Drift(tm, k));
    }
    var samples := Samples(tm, cells);
    forall i | 0 <= i < 8 ensures samples[i] == bits[i] {
      assert cells[i + 1] == bits[i];
    }
  }

  lemma WindowRoundTrips(invert: bool, tm: Timing, b: bv8, next: seq<bool>)
    requires ValidTiming(tm) && InWindow(tm)
    ensures Received(invert, tm, Frame(invert, b) + next) == Some(b)
  {
    var cells := Frame(invert, b) + next;
    LsbFirstLength(OnWire(invert, b), 8);
    SamplesAreBits(invert, tm, b, next);
    SampleTimeIsDrift(tm, 8);
    LevelInCell(cells, tm.bitTime, StopTime(tm), 9, StopOffset(tm) - tm.bitTime);
    AssembleInvertsLsb(OnWire(invert, b));
  }

  // ----- outside the window some byte is lost -----

  lemma {:induction false} ZeroBits(n: nat)
    ensures LsbFirst(0, n) == seq(n, i => false)
  {
    if n > 0 {
      ZeroBits(n - 1);
      assert 0 as bv8 >> 1 == 0;
    }
  }

  // The frame that puts eight low data cells on the wire.
  predicate IsLow(invert: bool, b: bv8) {
    && OnWire(invert, b) == 0 && |Frame(invert, b)| == 10
    && (forall c :: 0 <= c <= 8 ==> !Frame(invert, b)[c]) && Frame(invert, b)[9]
  }

  lemma LowFrame(invert: bool) returns (b: bv8)
    ensures IsLow(invert, b)
  {
    b := if invert then 0xFF else 0;
    ZeroBits(8);
  }

  lemma TopBitSet(rec: bv8)
    ensures ShiftIn(rec, true) != 0
  {
  }

  // The last data sample reads the stop bit or the idle line instead of data bit 7.
  lemma LateDataFails(invert: bool, tm: Timing) returns (b: bv8)
    requires ValidTiming(tm) && Drift(tm, 8) >= tm.bitTime
    ensures IsLow(invert, b) && Received(invert, tm, Frame(invert, b) + []) != Some(b)
  {
    b := LowFrame(invert);
    var cells := Frame(invert, b) + [];
    SampleTimeIsDrift(tm, 8);
    assert SampleTime(tm, 8) >= 9 * tm.bitTime;
    CellAtLeast(tm.bitTime, SampleTime(tm, 8), 9);
    assert Level(cells, tm.bitTime, SampleTime(tm, 8));
    var bits := Samples(tm, cells);
    assert bits == bits[..7] + [true];
    AssembleAppends(0, bits[..7], true);
    TopBitSet(Assemble(0, bits[..7]));
  }

  // The stop sample still reads data bit 7.
  lemma EarlyStopFails(invert: bool, tm: Timing) returns (b: bv8)
    requires ValidTiming(tm) && StopOffset(tm) < tm.bitTime
    ensures IsLow(invert, b) && Received(invert, tm, Frame(invert, b) + []) == None
  {
    b := LowFrame(invert);
    SampleTimeIsDrift(tm, 8);
    LevelInCell(Frame(invert, b) + [], tm.bitTime, StopTime(tm), 8, StopOffset(tm));
  }

  // The stop sample reads what follows the stop bit.
  lemma LateStopFails(invert: bool, tm: Timing, b: bv8, next: seq<bool>)
    requires ValidTiming(tm) && StopOffset(tm) >= 2 * tm.bitTime
    requires |Frame(invert, b)| == 10
    requires StopTime(tm) / tm.bitTime - 10 < |next|
    requires StopTime(tm) / tm.bitTime >= 10 ==> !next[StopTime(tm) / tm.bitTime - 10]
    ensures Received(invert, tm, Frame(invert, b) + next) == None
  {
    SampleTimeIsDrift(tm, 8);
    CellAtLeast(tm.bitTime, StopTime(tm), 10);
  }

  // Every byte arrives, whatever follows on the line.
  ghost predicate EveryByteArrives(invert: bool, before: bool, tm: Timing)
    requires ValidTiming(tm)
  {
    forall b, next :: RoundTrips(invert, before, tm, b, next)
  }

  lemma AllArriveInWindow(invert: bool, before: bool, tm: Timing)
    requires ValidTiming(tm) && InWindow(tm) && !(invert && before)
    ensures EveryByteArrives(invert, before, tm)
  {
    forall b, next ensures RoundTrips(invert, before, tm, b, next) {
      WindowRoundTrips(invert, tm, b, next);
    }
  }

  lemma SomeFailOutside(invert: bool, before: bool, tm: Timing)
    requires ValidTiming(tm) && !InWindow(tm)
    ensures !EveryByteArrives(invert, before, tm)
  {
    var b, next := OutsideWindowFails(invert, tm);
    assert !RoundTrips(invert, before, tm, b, next);
  }

  lemma SilentStartFails(invert: bool, before: bool, tm: Timing)
    requires ValidTiming(tm) && !StartTriggers(invert, before)
    ensures !EveryByteArrives(invert, before, tm)
  {
    var b := LowFrame(invert);
    assert !RoundTrips(invert, before, tm, b, []);
  }

  // Whatever the byte and whatever follows on the line, the receiver returns exactly
  // the byte given to sw_write: if and only if the timing is inside the window and, with
  // `invert`, the line was low before.
  lemma RoundTripIffInWindow(invert: bool, before: bool, tm: Timing)
    requires ValidTiming(tm)
    ensures EveryByteArrives(invert, before, tm) <==> InWindow(tm) && !(invert && before)
  {
    if !StartTriggers(invert, before) {
      SilentStartFails(invert, before, tm);
    } else if InWindow(tm) {
      AllArriveInWindow(invert, before, tm);
    } else {
      SomeFailOutside(invert, before, tm);
    }
  }

  lemma OutsideWindowFails(invert: bool, tm: Timing) returns (b: bv8, next: seq<bool>)
    requires ValidTiming(tm) && !InWindow(tm)
    ensures Received(invert, tm, Frame(invert, b) + next) != Some(b)
  {
    next := [];
    if Drift(tm, 8) >= tm.bitTime {
      b := LateDataFails(invert, tm);
    } else if StopOffset(tm) < tm.bitTime {
      b := EarlyStopFails(invert, tm);
    } else {
      b := LowFrame(invert);
      next := seq(StopTime(tm) / tm.bitTime, i => false);
      LateStopFails(invert, tm, b, next);
    }
  }

  // ----- a whole line: every edge that finds the handler idle starts it -----

  // The timing of each run of the handler; latencies and overshoots differ, the bit time not.
  type Timings = nat -> Timing

  ghost predicate ValidTimings(tms: Timings) {
    forall i :: ValidTiming(tms(i)) && tms(i).bitTime == tms(0).bitTime
  }

  // The cells the handler is busy for, counted from the one whose edge started it.
  function BusyCells(tm: Timing, cells: seq<bool>): (n: nat)
    requires tm.bitTime > 0 && |tm.over| == 10
    ensures n > 0
  {
    var last := if Level(cells, tm.bitTime, SampleTime(tm, 0)) then SampleTime(tm, 0) else StopTime(tm);
    last / tm.bitTime + 1
  }

  function Listed(r: Option<bv8>): seq<bv8> {
    if r == None then [] else [r.value]
  }

  // Everything handed to the ring while `cells` pass, the line having been at `before` and
  // the handler having run k times.
  ghost function Delivered(invert: bool, tms: Timings, k: nat, before: bool, cells: seq<bool>): seq<bv8>
    requires ValidTimings(tms)
    decreases |cells|
  {
    if cells == [] then []
    else if !Triggers(invert, before, cells[0]) then Delivered(invert, tms, k, cells[0], cells[1..])
    else Listed(Received(invert, tms(k), cells))
         + DeliveredAfter(invert, tms, k + 1, cells, BusyCells(tms(k), cells))
  }

  ghost function DeliveredAfter(invert: bool, tms: Timings, k: nat, cells: seq<bool>, n: nat): seq<bv8>
    requires n > 0 && ValidTimings(tms)
    decreases |cells|, 0
  {
    if n >= |cells| then [] else Delivered(invert, tms, k, cells[n - 1], cells[n..])
  }

  // A byte and the number of idle cells before the next one.
  datatype Sent = Sent(byte: bv8, idle: nat)

  function Idle(n: nat): (cells: seq<bool>)
    ensures |cells| == n && forall i :: 0 <= i < n ==> cells[i]
  {
    seq(n, i => true)
  }

  function Line(invert: bool, sent: seq<Sent>): seq<bool> {
    if sent == [] then [] else Frame(invert, sent[0].byte) + (Idle(sent[0].idle) + Line(invert, sent[1..]))
  }

  function Bytes(sent: seq<Sent>): seq<bv8> {
    if sent == [] then [] else [sent[0].byte] + Bytes(sent[1..])
  }

  lemma {:induction false} IdleIsSkipped(tms: Timings, k: nat, n: nat, rest: seq<bool>)
    requires ValidTimings(tms)
    ensures Delivered(false, tms, k, true, Idle(n) + rest) == Delivered(false, tms, k, true, rest)
    decreases n
  {
    if n == 0 {
      assert Idle(0) + rest == rest;
    } else {
      assert (Idle(n) + rest)[1..] == Idle(n - 1) + rest;
      IdleIsSkipped(tms, k, n - 1, rest);
    }
  }

  // Inside the window the handler is done before the stop cell ends.
  lemma FrameIsDelivered(tms: Timings, k: nat, b: bv8, next: seq<bool>)
    requires ValidTimings(tms) && InWindow(tms(k))
    ensures Delivered(false, tms, k, true, Frame(false, b) + next) == [b] + Delivered(false, tms, k + 1, true, next)
  {
    var cells, tm := Frame(false, b) + next, tms(k);
    LsbFirstLength(b, 8);
    WindowRoundTrips(false, tm, b, next);
    SamplesAreBits(false, tm, b, next);
    SampleTimeIsDrift(tm, 8);
    LevelInCell(cells, tm.bitTime, StopTime(tm), 9, StopOffset(tm) - tm.bitTime);
    assert BusyCells(tm, cells) == 10 && cells[9] && cells[10..] == next;
  }

  lemma LineBegins(sent: seq<Sent>, rest: seq<bool>)
    requires sent != []
    ensures Line(false, sent) + rest ==
            Frame(false, sent[0].byte) + (Idle(sent[0].idle) + (Line(false, sent[1..]) + rest))
  {
    CellsJoin(Frame(false, sent[0].byte), Idle(sent[0].idle), Line(false, sent[1..]), rest);
  }

  lemma CellsJoin(a: seq<bool>, b: seq<bool>, c: seq<bool>, d: seq<bool>)
    ensures (a + (b + c)) + d == a + (b + (c + d))
  {
  }

  lemma BytesBegin(sent: seq<Sent>, rest: seq<bv8>)
    requires sent != []
    ensures Bytes(sent) + rest == [sent[0].byte] + (Bytes(sent[1..]) + rest)
  {
  }

  lemma SentIsDelivered(tms: Timings, k: nat, sent: Sent, rest: seq<bool>)
    requires ValidTimings(tms) && InWindow(tms(k))
    ensures Delivered(false, tms, k, true, Frame(false, sent.byte) + (Idle(sent.idle) + rest))
            == [sent.byte] + Delivered(false, tms, k + 1, true, rest)
  {
    FrameIsDelivered(tms, k, sent.byte, Idle(sent.idle) + rest);
    IdleIsSkipped(tms, k + 1, sent.idle, rest);
  }

  ghost predicate RunsInWindow(tms: Timings, k: nat, n: nat)
    requires ValidTimings(tms)
  {
    forall i :: k <= i < k + n ==> InWindow(tms(i))
  }

  // As long as the handler's runs are inside the window, the bytes are delivered.
  lemma {:induction false} StreamPrefix(tms: Timings, k: nat, sent: seq<Sent>, rest: seq<bool>, end: nat)
    requires ValidTimings(tms) && RunsInWindow(tms, k, |sent|) && end == k + |sent|
    ensures Delivered(false, tms, k, true, Line(false, sent) + rest)
            == Bytes(sent) + Delivered(false, tms, end, true, rest)
    decreases |sent|
  {
    if sent == [] {
      assert Line(false, sent) + rest == rest;
    } else {
      LineBegins(sent, rest);
      SentIsDelivered(tms, k, sent[0], Line(false, sent[1..]) + rest);
      StreamPrefix(tms, k + 1, sent[1..], rest, end);
      BytesBegin(sent, Delivered(false, tms, end, true, rest));
    }
  }

  lemma StreamRoundTrips(tms: Timings, sent: seq<Sent>)
    requires ValidTimings(tms) && forall i :: InWindow(tms(i))
    ensures Delivered(false, tms, 0, true, Line(false, sent)) == Bytes(sent)
  {
    assert Line(false, sent) + [] == Line(false, sent);
    StreamPrefix(tms, 0, sent, [], |sent|);
  }

  // --- outside the window some stream is not delivered ---

  predicate Rises(before: bool, cells: seq<bool>) {
    && (cells != [] && before ==> cells[0])
    && forall i, j :: 0 <= i < j < |cells| && cells[i] ==> cells[j]
  }

  lemma {:induction false} RisingDeliversNothing(tms: Timings, k: nat, before: bool, cells: seq<bool>)
    requires ValidTimings(tms) && Rises(before, cells)
    ensures Delivered(false, tms, k, before, cells) == []
    decreases |cells|
  {
    if cells != [] {
      RisingDeliversNothing(tms, k, cells[0], cells[1..]);
    }
  }

  lemma LowFrameAlone(tms: Timings, k: nat, b: bv8)
    requires ValidTimings(tms) && IsLow(false, b)
    ensures Delivered(false, tms, k, true, Frame(false, b) + []) == Listed(Received(false, tms(k), Frame(false, b) + []))
  {
    var cells := Frame(false, b) + [];
    var n := BusyCells(tms(k), cells);
    if n < |cells| {
      RisingDeliversNothing(tms, k + 1, cells[n - 1], cells[n..]);
    }
  }

  // Two low frames, the second beginning where the stop bit of the first is sampled.
  lemma SecondStartIsSampled(tms: Timings, k: nat, b: bv8, idle: nat)
    requires ValidTimings(tms) && IsLow(false, b) && Drift(tms(k), 8) < tms(k).bitTime
    requires StopOffset(tms(k)) >= 2 * tms(k).bitTime && StopTime(tms(k)) / tms(k).bitTime == 10 + idle
    ensures Delivered(false, tms, k, true, Frame(false, b) + (Idle(idle) + Frame(false, b))) == []
  {
    var tm, frame := tms(k), Frame(false, b);
    var next := Idle(idle) + frame;
    var cells := frame + next;
    assert !next[idle];
    LateStopFails(false, tm, b, next);
    SamplesAreBits(false, tm, b, next);
    var n := BusyCells(tm, cells);
    assert n == 11 + idle && cells[n..] == frame[1..] && cells[n - 1] == next[idle];
    RisingDeliversNothing(tms, k + 1, false, frame[1..]);
  }

  // A run of the handler outside the window fails some bytes.
  lemma BadRunFails(tms: Timings, k: nat) returns (sent: seq<Sent>)
    requires ValidTimings(tms) && !InWindow(tms(k))
    ensures Delivered(false, tms, k, true, Line(false, sent)) != Bytes(sent)
  {
    var tm := tms(k);
    if Drift(tm, 8) >= tm.bitTime {
      var b := LateDataFails(false, tm);
      sent := [Sent(b, 0)];
      OneFrame(tms, k, b);
    } else if StopOffset(tm) < tm.bitTime {
      var b := EarlyStopFails(false, tm);
      sent := [Sent(b, 0)];
      OneFrame(tms, k, b);
    } else {
      var b := LowFrame(false);
      SampleTimeIsDrift(tm, 8);
      CellAtLeast(tm.bitTime, StopTime(tm), 10);
      var idle := StopTime(tm) / tm.bitTime - 10;
      SecondStartIsSampled(tms, k, b, idle);
      sent := [Sent(b, idle), Sent(b, 0)];
      assert sent[1..] == [Sent(b, 0)] && [Sent(b, 0)][1..] == [];
      assert Line(false, [Sent(b, 0)]) == Frame(false, b);
    }
  }

  lemma OneFrame(tms: Timings, k: nat, b: bv8)
    requires ValidTimings(tms) && IsLow(false, b)
    requires Received(false, tms(k), Frame(false, b) + []) != Some(b)
    ensures Delivered(false, tms, k, true, Line(false, [Sent(b, 0)])) != Bytes([Sent(b, 0)])
  {
    var sent := [Sent(b, 0)];
    assert sent[1..] == [];
    assert Line(false, sent) == Frame(false, b) + [];
    LowFrameAlone(tms, k, b);
    assert Bytes(sent) == [b];
  }

  lemma {:induction false} LineJoins(a: seq<Sent>, b: seq<Sent>)
    ensures Line(false, a + b) == Line(false, a) + Line(false, b) && Bytes(a + b) == Bytes(a) + Bytes(b)
    decreases |a|
  {
    if a == [] {
      assert a + b == b;
    } else {
      assert (a + b)[1..] == a[1..] + b;
      LineJoins(a[1..], b);
    }
  }

  lemma {:induction false} FirstBad(tms: Timings, k: nat) returns (n: nat)
    requires ValidTimings(tms) && !InWindow(tms(k))
    ensures !InWindow(tms(n)) && forall i :: 0 <= i < n ==> InWindow(tms(i))
    decreases k
  {
    if i :| 0 <= i < k && !InWindow(tms(i)) {
      n := FirstBad(tms, i);
    } else {
      n := k;
    }
  }

  lemma BytesCancel(a: seq<bv8>, b: seq<bv8>, c: seq<bv8>)
    ensures a + b == a + c <==> b == c
  {
    assert (a + b)[|a|..] == b && (a + c)[|a|..] == c;
  }

  // Bytes that go well until the bad run, and then those it fails.
  lemma BadStreamFails(tms: Timings, k: nat) returns (sent: seq<Sent>)
    requires ValidTimings(tms) && !InWindow(tms(k))
    ensures Delivered(false, tms, 0, true, Line(false, sent)) != Bytes(sent)
  {
    var n := FirstBad(tms, k);
    var good := seq(n, i => Sent(0, 0));
    var bad := BadRunFails(tms, n);
    sent := good + bad;
    LineJoins(good, bad);
    StreamPrefix(tms, 0, good, Line(false, bad), n);
    BytesCancel(Bytes(good), Delivered(false, tms, n, true, Line(false, bad)), Bytes(bad));
  }

  // Every sequence of bytes with any gaps between them is delivered if and only if every
  // run of the handler is inside the window.
  lemma StreamRoundTripsIff(tms: Timings)
    requires ValidTimings(tms)
    ensures (forall sent :: Delivered(false, tms, 0, true, Line(false, sent)) == Bytes(sent))
            <==> forall i :: InWindow(tms(i))
  {
    if k :| !InWindow(tms(k)) {
      var sent := BadStreamFails(tms, k);
    } else {
      forall sent ensures Delivered(false, tms, 0, true, Line(false, sent)) == Bytes(sent) {
        StreamRoundTrips(tms, sent);
      }
    }
  }

  // ----- with `invert`, an idle line stays silent -----

  ghost predicate ChecksInCell(tms: Timings)
    requires ValidTimings(tms)
  {
    forall i :: Drift(tms(i), 0) < tms(i).bitTime
  }

  // A rising edge between two cells shows the start check a high level.
  lemma {:induction false} InvertedDeliversNothing(tms: Timings, k: nat, before: bool, cells: seq<bool>)
    requires ValidTimings(tms) && ChecksInCell(tms)
    ensures Delivered(true, tms, k, before, cells) == []
    decreases |cells|
  {
    if cells != [] {
      var tm := tms(k);
      if Triggers(true, before, cells[0]) {
        LevelInCell(cells, tm.bitTime, SampleTime(tm, 0), 0, Drift(tm, 0));
        var n := BusyCells(tm, cells);
        if n < |cells| {
          InvertedDeliversNothing(tms, k + 1, cells[n - 1], cells[n..]);
        }
      } else {
        InvertedDeliversNothing(tms, k, cells[0], cells[1..]);
      }
    }
  }

  lemma LateCheckDelivers(tms: Timings, k: nat) returns (cells: seq<bool>)
    requires ValidTimings(tms) && Drift(tms(k), 0) >= tms(k).bitTime
    ensures Delivered(true, tms, k, true, cells) != []
  {
    var tm := tms(k);
    var n := SampleTime(tm, 0) / tm.bitTime;
    CellAtLeast(tm.bitTime, SampleTime(tm, 0), 1);
    var high := Idle(n) + [false];
    cells := [false] + high;
    assert cells[1..] == high;
    SampleTimeIsDrift(tm, 8);
    DriftGrows(tm, 0, 8);
    assert SampleTime(tm, 0) + tm.bitTime <= StopTime(tm);
    assert (n + 1) * tm.bitTime == n * tm.bitTime + tm.bitTime;
    CellAtLeast(tm.bitTime, StopTime(tm), n + 1);
    assert Level(high, tm.bitTime, StopTime(tm));
  }

  // A short low pulse starts the handler once and delivers nothing.
  lemma PulseIsIgnored(tms: Timings, k: nat, rest: seq<bool>)
    requires ValidTimings(tms) && Drift(tms(k), 0) < tms(k).bitTime
    ensures Delivered(true, tms, k, true, [false, true] + rest) == Delivered(true, tms, k + 1, true, rest)
  {
    var tm, cells := tms(k), [false, true] + rest;
    var high := [true] + rest;
    assert cells[1..] == high && high[1..] == rest;
    LevelInCell(high, tm.bitTime, SampleTime(tm, 0), 0, Drift(tm, 0));
    assert Delivered(true, tms, k, true, cells) == Delivered(true, tms, k, false, high);
    assert BusyCells(tm, high) == 1 && Received(true, tm, high) == None;
    assert DeliveredAfter(true, tms, k + 1, high, 1) == Delivered(true, tms, k + 1, true, rest);
  }

  lemma {:induction false} LateRunDelivers(tms: Timings, k: nat, bad: nat) returns (cells: seq<bool>)
    requires ValidTimings(tms) && k <= bad && Drift(tms(bad), 0) >= tms(bad).bitTime
    ensures Delivered(true, tms, k, true, cells) != []
    decreases bad - k
  {
    if Drift(tms(k), 0) >= tms(k).bitTime {
      cells := LateCheckDelivers(tms, k);
    } else {
      var rest := LateRunDelivers(tms, k + 1, bad);
      PulseIsIgnored(tms, k, rest);
      cells := [false, true] + rest;
    }
  }

  // Once the line is high, as every sw_write leaves it, an inverted port receives nothing,
  // whatever is on the line: if and only if every start check falls in the cell of its edge.
  lemma InvertedSilentIff(tms: Timings)
    requires ValidTimings(tms)
    ensures (forall cells :: Delivered(true, tms, 0, true, cells) == []) <==> ChecksInCell(tms)
  {
    if ChecksInCell(tms) {
      forall cells ensures Delivered(true, tms, 0, true, cells) == [] {
        InvertedDeliversNothing(tms, 0, true, cells);
      }
    } else {
      var bad :| Drift(tms(bad), 0) >= tms(bad).bitTime;
      var cells := LateRunDelivers(tms, 0, bad);
    }
  }

  // ----- the waits sw_open configures -----

  // `bitTime` is the CPU frequency divided by the baud rate; products are 32-bit.
  function Opened(bitTime: nat, baudRate: nat, latency: nat, over: seq<nat>): Timing {
    if baudRate == 115200
    then Timing(latency, bitTime, bitTime / 256, bitTime * 127 % TWO_32 / 256, over)
    else Timing(latency, bitTime, bitTime / 9, bitTime * 8 % TWO_32 / 9, over)
  }

  lemma {:induction false} LatencyDrift(tm: Timing, k: nat)
    requires k < |tm.over| && forall i :: 0 <= i < |tm.over| ==> tm.over[i] == 0
    ensures Drift(tm, k) == tm.latency + tm.rxStart
  {
    if k > 0 {
      LatencyDrift(tm, k - 1);
    }
  }

  lemma LatencyWindow(tm: Timing)
    requires ValidTiming(tm) && forall i :: 0 <= i < |tm.over| ==> tm.over[i] == 0
    ensures InWindow(tm) <==>
            tm.latency + tm.rxStart < tm.bitTime <= tm.latency + tm.rxStart + tm.rxEnd < 2 * tm.bitTime
  {
    LatencyDrift(tm, 8);
  }

  // The port relies on being slow: at 115200 with exact waits every byte arrives if and
  // only if the handler starts at least about half a bit time late; no latency is never enough.
  lemma LatencyNeededAt115200(bitTime: nat, latency: nat)
    requires 0 < bitTime && bitTime * 127 < TWO_32
    ensures InWindow(Opened(bitTime, 115200, latency, seq(10, i => 0))) <==>
            bitTime - bitTime / 256 - bitTime * 127 / 256 <= latency < bitTime - bitTime / 256
    ensures 0 < bitTime - bitTime / 256 - bitTime * 127 / 256
  {
    var tm := Opened(bitTime, 115200, latency, seq(10, i => 0));
    LatencyWindow(tm);
    ProductFits(bitTime * 127);
    HalvesFallShort(bitTime);
  }

  lemma ProductFits(x: nat)
    requires x < TWO_32
    ensures x % TWO_32 == x
  {
  }

  // At every other rate the latency may be zero if and only if nine divides the bit time,
  // and it may grow to eight ninths of a bit time.
  lemma LatencyNeededElsewhere(bitTime: nat, baudRate: nat, latency: nat)
    requires baudRate != 115200 && 0 < bitTime && bitTime * 8 < TWO_32
    ensures InWindow(Opened(bitTime, baudRate, latency, seq(10, i => 0))) <==>
            (if bitTime % 9 == 0 then 0 else 1) <= latency < bitTime - bitTime / 9
  {
    LatencyWindow(Opened(bitTime, baudRate, latency, seq(10, i => 0)));
    ProductFits(bitTime * 8);
    NinthsAddUp(bitTime);
  }

  lemma HalvesFallShort(n: nat)
    requires n > 0
    ensures n / 256 + n * 127 / 256 < n
  {
  }

  lemma NinthsAddUp(n: nat)
    ensures n / 9 + n * 8 / 9 == if n % 9 == 0 then n else n - 1
  {
  }

  // ----- the busy-wait -----

  // WaitBitTime: poll the 32-bit cycle counter until the unsigned difference reaches `wait`.
  // `polls` are the true instants of the reads; the counter is their remainder. The overshoot
  // of the wait, an entry of `Timing.over`, is polls[k] - polls[0] - wait.
  method WaitBitTime(polls: seq<nat>, wait: nat, gap: nat) returns (k: nat)
    requires |polls| > 1
    requires forall i :: 0 <= i < |polls| - 1 ==> polls[i] <= polls[i + 1] <= polls[i] + gap
    requires wait + gap <= TWO_32
    requires polls[|polls| - 1] - polls[0] >= wait
    ensures 0 < k < |polls|
    ensures polls[k] - polls[0] >= wait
    ensures forall i :: 0 < i < k ==> polls[i] - polls[0] < wait
    ensures wait > 0 ==> polls[k] - polls[0] < wait + gap
  {
    var start := polls[0] % TWO_32;
    k := 1;
    while (polls[k] % TWO_32 - start) % TWO_32 < wait
      invariant 0 < k < |polls|
      invariant polls[0] <= polls[k - 1]
      invariant forall i :: 0 < i < k ==> polls[i] - polls[0] < wait
      decreases |polls| - k
    {
      k := k + 1;
    }
  }
}
