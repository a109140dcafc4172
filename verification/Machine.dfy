/**
 One call of `runNextInstruction`: an instruction, the interrupt dispatch, and two clock cycles that drive the
 serial unit and the timers. The peripherals' registers are bytes of the one memory.
 */
module Machine {
  import opened Words
  import opened H8
  import Ssu
  import Timers

  const SSER: nat := 0xF0E3
  const PORT1: nat := 0xFFD4
  const PORT9: nat := 0xFFDC
  const TMB1: nat := 0xF0D0
  const TCB1: nat := 0xF0D1
  const TMRW: nat := 0xF0F0
  const TCRW: nat := 0xF0F1
  const TIERW: nat := 0xF0F2
  const TSRW: nat := 0xF0F3
  const TCNT: nat := 0xF0F6
  const GRA: nat := 0xF0F8
  const CKSTPR1: nat := 0xFFFA
  const CKSTPR2: nat := 0xFFFB
  const IENR1: nat := 0xFFF3
  const IENR2: nat := 0xFFF4
  const IRR1: nat := 0xFFF6
  const IRR2: nat := 0xFFF7
  const RTCFLG: nat := 0xF067
  const KEYS: nat := 0xFFDE
  const WATTS: nat := 0xF78E

  const VECTOR_TIMER_B1: u16 := 0x06fa
  const VECTOR_IRQ0: u16 := 0xa300
  const VECTOR_RTC_QUARTER_SEC: u16 := 0xa65e
  const VECTOR_RTC_HALF_SEC: u16 := 0xa674
  const VECTOR_RTC_EVERY_SEC: u16 := 0xa682

  const ENTER: int := 1
  const STARTING_WATTS: int := 50

  const SSU_PERIOD: int := 4
  const SUB_CLOCK_PERIOD: int := 112 // 3686400 / 32768, rounded down

  /** `serial` counts the ticks of the serial unit; nothing depends on it, it is there to state how many there are. */
  datatype Latches = Latches(bOn: bool, wOn: bool, tlb: u8, sub: nat, serial: nat)

  datatype Peripherals = Peripherals(progress: u8, eeprom: Ssu.Eeprom, accel: Ssu.Accel, lcd: Ssu.Lcd)

  datatype State = State(cpu: Cpu, peripherals: Peripherals, latches: Latches, cycles: nat, inputs: seq<int>)

  predicate Ok(s: State) { Sized(s.cpu) && Ssu.Ok(Devices(s)) }

  // ---------------------------------------------------------------- reset

  const ROM_SIZE: int := 0xC000
  const ENTRY: u16 := 0x02C4

  /** Register values after a reset; CKSTPR1 is written twice and CKSTPR2 not at all. */
  function ResetRegister(a: u16): u8 {
    match a
    case 0xF0E4 => 0x04
    case 0xF0D0 => 0x38
    case 0xF0F0 => 0x48
    case 0xF0F2 => 0x70
    case 0xF0F3 => 0x70
    case 0xF0F4 => 0x88
    case 0xF0F5 => 0x88
    case 0xFFFA => 0x04
    case _ => if 0xF0F8 <= a < 0xF0FE then 0xFF else 0
  }

  function ResetByte(rom: seq<u8>, a: u16): u8
    requires |rom| == ROM_SIZE
  {
    if a < ROM_SIZE then rom[a] else ResetRegister(a)
  }

  /** The accelerometer identifies itself in its first register. */
  function AccelMemory(): (r: seq<u8>)
    ensures |r| == Ssu.ACCEL_SIZE
  {
    seq(Ssu.ACCEL_SIZE, i => if i == 0 then 2 else 0)
  }

  function LcdMemory(): (r: seq<u8>)
    ensures |r| == Ssu.LCD_SIZE
  {
    seq(Ssu.LCD_SIZE, _ => 0)
  }

  function PowerOn(image: seq<u8>): Peripherals {
    Peripherals(0,
                Ssu.Eeprom(image, 0, 0, 0, Ssu.Empty, 0),
                Ssu.Accel(AccelMemory(), 0, 0, false),
                Ssu.Lcd(LcdMemory(), 20, false, 0, 0, 0, false))
  }

  function ResetMemory(rom: seq<u8>): (r: seq<u8>)
    requires |rom| == ROM_SIZE
    ensures |r| == MEM_SIZE
  {
    seq(MEM_SIZE, a requires 0 <= a < MEM_SIZE => ResetByte(rom, a))
  }

  /**
   The state in which a ROM and an EEPROM image start: the program at its entry with interrupts unmasked and none
   saved or requested, the ROM readable at its addresses, both directions of the serial unit off with TDRE set, the
   timers stopped, no key queued, and nothing counted.
   */
  function Reset(rom: seq<u8>, image: seq<u8>): (r: State)
    requires |rom| == ROM_SIZE && |image| == Ssu.EEPROM_SIZE
    ensures Ok(r)
  {
    State(Cpu(Core(ENTRY, CLEAR, 0, CLEAR, false), seq(8, _ => 0), ResetMemory(rom)),
          PowerOn(image), Latches(false, false, 0, 0, 0), 0, [])
  }

  // ---------------------------------------------------------------- the peripherals' view of memory

  function BusOf(mem: seq<u8>): Ssu.Bus
    requires |mem| == MEM_SIZE
  {
    Ssu.Bus(Has(mem[SSER], 0x80), Has(mem[SSER], 0x40),
            Has(mem[SSSR], 0x02), Has(mem[SSSR], 0x04), Has(mem[SSSR], 0x08),
            mem[SSRDR], mem[SSTDR],
            Has(mem[PORT1], 0x04), Has(mem[PORT1], 0x02), Has(mem[PORT1], 0x01),
            Has(mem[PORT9], 0x01))
  }

  function Devices(s: State): Ssu.Devices
    requires Sized(s.cpu)
  {
    var p := s.peripherals;
    Ssu.Devices(BusOf(s.cpu.mem), p.progress, p.eeprom, p.accel, p.lcd)
  }

  /** Sets the bits of a mask when told to. */
  function RaiseIf(byte: u8, mask: int, raised: bool): u8
    requires IsMask(mask)
  {
    if raised then Raise(byte, mask) else byte
  }

  /** The status byte with the given flags raised. */
  function StatusByte(byte: u8, b: Ssu.Bus): u8 {
    RaiseIf(RaiseIf(RaiseIf(byte, 0x02, b.rdrf), 0x04, b.tdre), 0x08, b.tend)
  }

  /** What a tick of the serial unit leaves in memory. */
  function PutBus(mem: seq<u8>, b: Ssu.Bus): (r: seq<u8>)
    requires |mem| == MEM_SIZE
    ensures |r| == MEM_SIZE
  {
    mem[SSSR := StatusByte(mem[SSSR], b)][SSRDR := b.ssrdr]
  }

  function TimerBOf(mem: seq<u8>, l: Latches): Timers.TimerB
    requires |mem| == MEM_SIZE
  {
    Timers.TimerB(l.bOn, l.tlb, mem[TCB1], Has(mem[TMB1], 0x40), Has(mem[CKSTPR1], 0x04), Has(mem[IRR2], 0x04))
  }

  function TimerWOf(mem: seq<u8>, l: Latches): Timers.TimerW
    requires |mem| == MEM_SIZE
  {
    Timers.TimerW(l.wOn, Get16(mem, TCNT), Get16(mem, GRA), Has(mem[TMRW], 0x80), Has(mem[CKSTPR2], 0x40),
                  Has(mem[TCRW], 0x80), Has(mem[TSRW], 0x01), Has(mem[TIERW], 0x01))
  }

  function PutTimerB(mem: seq<u8>, b: Timers.TimerB): (r: seq<u8>)
    requires |mem| == MEM_SIZE
    ensures |r| == MEM_SIZE
  {
    mem[IRR2 := RaiseIf(mem[IRR2], 0x04, b.flag)][TCB1 := b.tcb]
  }

  function PutTimerW(mem: seq<u8>, w: Timers.TimerW): (r: seq<u8>)
    requires |mem| == MEM_SIZE
    ensures |r| == MEM_SIZE
  {
    Set16(mem[TSRW := RaiseIf(mem[TSRW], 0x01, w.flag)], TCNT, w.tcnt)
  }

  function PutTimers(mem: seq<u8>, b: Timers.TimerB, w: Timers.TimerW): (r: seq<u8>)
    requires |mem| == MEM_SIZE
    ensures |r| == MEM_SIZE
  {
    PutTimerW(PutTimerB(mem, b), w)
  }

  // ---------------------------------------------------------------- clock

  /** The machine behind a tick of the serial unit. */
  function WithDevices(s: State, d: Ssu.Devices): (r: State)
    requires Sized(s.cpu)
    ensures Sized(r.cpu)
  {
    s.(cpu := s.cpu.(mem := PutBus(s.cpu.mem, d.bus)),
       peripherals := Peripherals(d.progress, d.eeprom, d.accel, d.lcd),
       latches := s.latches.(serial := s.latches.serial + 1))
  }

  function SsuTick(s: State): (r: Ssu.Outcome<State>)
    requires Ok(s)
    ensures r.Ran? ==> Ok(r.value)
  {
    var d :- Ssu.Tick(Devices(s));
    Ssu.Ran(WithDevices(s, d))
  }

  function SubClockTick(s: State): (r: State)
    requires Ok(s)
    ensures Ok(r)
  {
    var l, mem := s.latches, s.cpu.mem;
    var b, w := Timers.TickB(TimerBOf(mem, l), l.sub + 1), Timers.TickW(TimerWOf(mem, l));
    s.(latches := l.(bOn := b.on, wOn := w.on, sub := l.sub + 1),
       cpu := Cpu(Timers.MatchInterrupt(TimerWOf(mem, l), s.cpu.core), s.cpu.er, PutTimers(mem, b, w)))
  }

  function SsuPhase(s: State): (r: Ssu.Outcome<State>)
    requires Ok(s)
    ensures r.Ran? ==> Ok(r.value)
  {
    if s.cycles % SSU_PERIOD == 0 then SsuTick(s) else Ssu.Ran(s)
  }

  function SubClockPhase(s: State): (r: State)
    requires Ok(s)
    ensures Ok(r)
  {
    if s.cycles % SUB_CLOCK_PERIOD == 0 then SubClockTick(s) else s
  }

  function Phases(s: State): (r: Ssu.Outcome<State>)
    requires Ok(s)
    ensures r.Ran? ==> Ok(r.value)
  {
    var t :- SsuPhase(s);
    Ssu.Ran(SubClockPhase(t))
  }

  function CountCycle(s: State): State { s.(cycles := s.cycles + 1) }

  /** One clock cycle: the serial unit ticks on every fourth and the sub clock on every 112th. */
  function Cycle(s: State): (r: Ssu.Outcome<State>)
    requires Ok(s)
    ensures r.Ran? ==> Ok(r.value)
  {
    Phases(CountCycle(s))
  }

  /** The time that every instruction is taken to last. */
  function TwoCycles(s: State): (r: Ssu.Outcome<State>)
    requires Ok(s)
    ensures r.Ran? ==> Ok(r.value)
  {
    var t :- Cycle(s);
    Cycle(t)
  }

  // ---------------------------------------------------------------- interrupts

  /** The interrupt to take, if any, in the order in which the dispatcher looks. */
  function Pending(mem: seq<u8>): Option<u16>
    requires |mem| == MEM_SIZE
  {
    if Has(mem[IRR1], 0x01) && Has(mem[IENR1], 0x01) then Some(VECTOR_IRQ0)
    else if Has(mem[IENR1], 0x80) then
      if Has(mem[RTCFLG], 0x01) then Some(VECTOR_RTC_QUARTER_SEC)
      else if Has(mem[RTCFLG], 0x02) then Some(VECTOR_RTC_HALF_SEC)
      else if Has(mem[RTCFLG], 0x04) then Some(VECTOR_RTC_EVERY_SEC)
      else None
    else if Has(mem[IRR2], 0x04) && Has(mem[IENR2], 0x04) then Some(VECTOR_TIMER_B1)
    else None
  }

  function DispatchCore(c: Core, mem: seq<u8>): Core
    requires |mem| == MEM_SIZE
  {
    if c.flags.I || Pending(mem).None? then c else Enter(c, Pending(mem).value)
  }

  /** The center key interrupts; taking the interrupt queues the key and its release. */
  function DispatchInputs(inputs: seq<int>, c: Core, mem: seq<u8>): seq<int>
    requires |mem| == MEM_SIZE
  {
    if !c.flags.I && Pending(mem) == Some(VECTOR_IRQ0) then inputs + [ENTER, 0] else inputs
  }

  function Dispatch(s: State): (r: State)
    requires Ok(s)
    ensures Ok(r)
  {
    s.(cpu := s.cpu.(core := DispatchCore(s.cpu.core, s.cpu.mem)),
       inputs := DispatchInputs(s.inputs, s.cpu.core, s.cpu.mem))
  }

  // ---------------------------------------------------------------- instructions

  /** Program addresses at which the emulator jumps over something it does not emulate. */
  predicate Skipped(c: Core) { !c.sleep && (c.pc == 0x336 || c.pc == 0x350 || c.pc == 0x7700) }

  function SkippedCpu(c: Cpu): (r: Cpu)
    requires Sized(c)
    ensures Sized(r)
  {
    Cpu(c.core.(pc := Low16(c.core.pc + if c.core.pc == 0x7700 then 2 else 4)),
        c.er[0 := if c.core.pc == 0x350 then c.er[0] / 0x100 * 0x100 else c.er[0]], c.mem)
  }

  function Skip(s: State): (r: State)
    requires Ok(s)
    ensures Ok(r)
  {
    s.(cpu := SkippedCpu(s.cpu))
  }

  predicate ReadsKeys(s: State) { s.cpu.core.pc == 0x9b84 && s.inputs != [] }

  /** Before the instruction that reads the keys, the next queued key is put where it looks. */
  function TakenKeys(s: State): (r: State)
    requires Ok(s)
    ensures Ok(r)
  {
    var takes := ReadsKeys(s);
    s.(cpu := s.cpu.(mem := s.cpu.mem[KEYS := if takes then Low8(s.inputs[0]) else s.cpu.mem[KEYS]]),
       inputs := if takes then s.inputs[1..] else s.inputs)
  }

  /** One instruction finds some watts in memory. */
  function GivenWatts(c: Cpu): (r: Cpu)
    requires Sized(c)
    ensures Sized(r)
  {
    c.(mem := Set16(c.mem, WATTS, if c.core.pc == 0x79b8 then STARTING_WATTS else Get16(c.mem, WATTS)))
  }

  function Prepare(s: State): (r: State)
    requires Ok(s)
    ensures Ok(r)
  {
    var t := TakenKeys(s);
    t.(cpu := GivenWatts(t.cpu))
  }

  /** Deselected devices forget their transaction. */
  function CleanUp(p: Peripherals, b: Ssu.Bus): Peripherals {
    var d := Ssu.Cleanup(Ssu.Devices(b, p.progress, p.eeprom, p.accel, p.lcd));
    Peripherals(d.progress, d.eeprom, d.accel, d.lcd)
  }

  /** The reload value of Timer B, which has no memory of its own: a byte stored at its counter's address sets it. */
  function ReloadValue(tlb: u8, i: Insn): u8 {
    if i.StoreByte? && Low16(i.address) == TCB1 then i.value else tlb
  }

  /** Carries out a decoded instruction, then cleans up behind it. */
  function Carry(s: State, i: Insn, e: Effect): (r: Ssu.Outcome<State>)
    requires Ok(s) && Admissible(e, s.cpu.core.flags)
    ensures r.Ran? ==> Ok(r.value)
  {
    var done := Perform(s.cpu, i, e);
    if done.None? then Ssu.GaveUp
    else
      Ssu.Ran(s.(cpu := Advance(done.value),
                 latches := s.latches.(tlb := ReloadValue(s.latches.tlb, i)),
                 peripherals := CleanUp(s.peripherals, BusOf(done.value.mem))))
  }

  function CarryNext(s: State, e: Effect): (r: Ssu.Outcome<State>)
    requires Ok(s) && Admissible(e, s.cpu.core.flags)
    ensures r.Ran? ==> Ok(r.value)
  {
    Carry(s, Decode(s.cpu), e)
  }

  /** The instruction part of a call: nothing happens while asleep. */
  function Instruct(s: State, e: Effect): (r: Ssu.Outcome<State>)
    requires Ok(s) && Admissible(e, s.cpu.core.flags)
    ensures r.Ran? ==> Ok(r.value)
  {
    if s.cpu.core.sleep then Ssu.Ran(s) else CarryNext(Prepare(s), e)
  }

  /** What follows the instruction of a call. */
  function Finish(s: State): (r: Ssu.Outcome<State>)
    requires Ok(s)
    ensures r.Ran? ==> Ok(r.value)
  {
    TwoCycles(Dispatch(s))
  }

  function Proceed(s: State, e: Effect): (r: Ssu.Outcome<State>)
    requires Ok(s) && Admissible(e, s.cpu.core.flags)
    ensures r.Ran? ==> Ok(r.value)
  {
    var t :- Instruct(s, e);
    Finish(t)
  }

  /** One call; a skipped instruction takes no time. */
  function Turn(s: State, e: Effect): (r: Ssu.Outcome<State>)
    requires Ok(s) && Admissible(e, s.cpu.core.flags)
    ensures r.Ran? ==> Ok(r.value)
  {
    if Skipped(s.cpu.core) then Ssu.Ran(Skip(s)) else Proceed(s, e)
  }

  // ---------------------------------------------------------------- memory agrees with the devices' view

  lemma ShiftTwo(x: int, k: int)
    ensures (x + 2 * k) / 2 == x / 2 + k && (x + 2 * k) % 2 == x % 2
  {
  }

  lemma ShiftFour(x: int, k: int)
    ensures (x + 4 * k) / 4 == x / 4 + k
  {
  }

  lemma NoCarry(x: int, half: int)
    requires half == 2 || half == 4
    requires x / half % 2 == 0
    ensures (x + half) / (2 * half) == x / (2 * half)
  {
    if half == 2 {
      assert x / 4 == x / 2 / 2;
    } else {
      assert x / 8 == x / 4 / 2;
    }
  }

  /** Raising one of the three status bits leaves the other two. */
  lemma RaisedRdrf(byte: u8)
    ensures Has(Raise(byte, 0x02), 0x04) == Has(byte, 0x04) && Has(Raise(byte, 0x02), 0x08) == Has(byte, 0x08)
  {
    if !Has(byte, 0x02) {
      NoCarry(byte, 2);
      assert (byte as int + 2) / 8 == (byte as int + 2) / 4 / 2 && byte / 8 == byte / 4 / 2;
    }
  }

  lemma RaisedTdre(byte: u8)
    ensures Has(Raise(byte, 0x04), 0x02) == Has(byte, 0x02) && Has(Raise(byte, 0x04), 0x08) == Has(byte, 0x08)
  {
    if !Has(byte, 0x04) {
      ShiftTwo(byte, 2);
      ShiftTwo(byte / 2, 1);
      NoCarry(byte, 4);
    }
  }

  lemma RaisedTend(byte: u8)
    ensures Has(Raise(byte, 0x08), 0x02) == Has(byte, 0x02) && Has(Raise(byte, 0x08), 0x04) == Has(byte, 0x04)
  {
    ShiftTwo(byte, 4);
    ShiftTwo(byte / 2, 2);
    ShiftFour(byte, 2);
    ShiftTwo(byte / 4, 1);
  }

  /** Clearing TDRE and then TEND clears both and leaves RDRF. */
  lemma ClearedBits(byte: u8)
    ensures !Has(Lower(Lower(byte, 0x04), 0x08), 0x04)
    ensures Has(Lower(Lower(byte, 0x04), 0x08), 0x02) == Has(byte, 0x02)
  {
    var b := Lower(byte, 0x04);
    ShiftTwo(byte, -2);
    ShiftTwo(byte / 2, -1);
    ShiftFour(b, -2);
    ShiftTwo(b / 4, -1);
    ShiftTwo(b, -4);
    ShiftTwo(b / 2, -2);
  }

  /** Flags are raised, never lowered, and no register but the received byte is written. */
  predicate OnlyRaises(b: Ssu.Bus, c: Ssu.Bus) {
    && (b.rdrf ==> c.rdrf) && (b.tdre ==> c.tdre) && (b.tend ==> c.tend)
    && b.te == c.te && b.re == c.re && b.sstdr == c.sstdr
    && b.eepromPin == c.eepromPin && b.lcdDataPin == c.lcdDataPin && b.lcdPin == c.lcdPin && b.accelPin == c.accelPin
  }

  lemma ExchangeByteRaises(d: Ssu.Devices)
    requires Ssu.Ok(d) && Ssu.ExchangeEepromByte(d).Ran?
    ensures OnlyRaises(d.bus, Ssu.ExchangeEepromByte(d).value.bus)
  {
    match d.eeprom.phase
    case Empty =>
    case StatusRegister =>
    case AddressHigh =>
    case AddressLow =>
    case Bytes =>
  }

  lemma TransmitByteBus(d: Ssu.Devices)
    requires Ssu.Ok(d) && Ssu.TransmitEepromByte(d).Ran?
    ensures var b := Ssu.TransmitEepromByte(d).value.bus; b == d.bus || b == d.bus.(tend := true)
  {
    match d.eeprom.phase
    case Empty =>
    case StatusRegister =>
    case AddressHigh =>
    case AddressLow =>
    case Bytes =>
  }

  lemma TendRaises(b: Ssu.Bus)
    ensures OnlyRaises(b, b) && OnlyRaises(b, b.(tend := true))
  {
  }

  lemma TransmitByteRaises(d: Ssu.Devices)
    requires Ssu.Ok(d) && Ssu.TransmitEepromByte(d).Ran?
    ensures OnlyRaises(d.bus, Ssu.TransmitEepromByte(d).value.bus)
  {
    TransmitByteBus(d);
    TendRaises(d.bus);
  }

  lemma AccelReadRaises(d: Ssu.Devices)
    requires Ssu.Ok(d) && Ssu.ReadAccel(d).Ran?
    ensures OnlyRaises(d.bus, Ssu.ReadAccel(d).value.bus)
  {
    if d.accel.gettingBytes {
    } else {
    }
  }

  lemma AccelWriteRaises(d: Ssu.Devices)
    requires Ssu.Ok(d) && Ssu.WriteAccel(d).Ran?
    ensures OnlyRaises(d.bus, Ssu.WriteAccel(d).value.bus)
  {
    if d.accel.gettingBytes {
    } else {
    }
  }

  lemma ExchangeRaises(d: Ssu.Devices)
    requires Ssu.Ok(d) && Ssu.Exchange(d).Ran?
    ensures OnlyRaises(d.bus, Ssu.Exchange(d).value.bus)
  {
    if !d.bus.accelPin {
      AccelReadRaises(d);
    } else if !d.bus.eepromPin && Ssu.ByteComplete(d) {
      ExchangeByteRaises(Ssu.Shift(d));
    }
  }

  lemma ToEepromRaises(d: Ssu.Devices)
    requires Ssu.Ok(d) && Ssu.TransmitToEeprom(d).Ran?
    ensures OnlyRaises(d.bus, Ssu.TransmitToEeprom(d).value.bus)
  {
    if !d.bus.eepromPin && Ssu.ByteComplete(d) {
      TransmitByteRaises(Ssu.Shift(d));
    }
  }

  lemma ToLcdRaises(d: Ssu.Devices)
    requires Ssu.Ok(d)
    ensures OnlyRaises(d.bus, Ssu.TransmitToLcd(d).value.bus)
  {
  }

  lemma TransmitRaises(d: Ssu.Devices)
    requires Ssu.Ok(d) && Ssu.Transmit(d).Ran?
    ensures OnlyRaises(d.bus, Ssu.Transmit(d).value.bus)
  {
    if !d.bus.accelPin {
      AccelWriteRaises(d);
    }
    var d1 := if d.bus.accelPin then d else Ssu.WriteAccel(d).value;
    ToEepromRaises(d1);
    var d2 := Ssu.TransmitToEeprom(d1).value;
    ToLcdRaises(d2);
    assert OnlyRaises(d.bus, d2.bus);
  }

  lemma TickRaisesFlags(d: Ssu.Devices)
    requires Ssu.Ok(d) && Ssu.Tick(d).Ran?
    ensures OnlyRaises(d.bus, Ssu.Tick(d).value.bus)
  {
    var d0 := if d.bus.te then d else Ssu.SetTdre(d);
    if d0.bus.te && !d0.bus.tdre {
      if d0.bus.re {
        ExchangeRaises(d0);
      } else {
        TransmitRaises(d0);
      }
    }
  }

  lemma PutBusRoundTrip(mem: seq<u8>, c: Ssu.Bus)
    requires |mem| == MEM_SIZE
    requires OnlyRaises(BusOf(mem), c)
    ensures BusOf(PutBus(mem, c)) == c
  {
    var b0 := mem[SSSR];
    var b1 := RaiseIf(b0, 0x02, c.rdrf);
    var b2 := RaiseIf(b1, 0x04, c.tdre);
    RaisedRdrf(b0);
    RaisedTdre(b1);
    RaisedTend(b2);
  }

  /** Raising a flag that may be up already. */
  lemma RaiseAgain(byte: u8, mask: int, already: bool, raised: bool)
    requires IsMask(mask) && already == Has(byte, mask)
    ensures RaiseIf(byte, mask, already || raised) == RaiseIf(byte, mask, raised)
  {
  }

  /** Raising the three flags one after the other gives the status byte that shows them. */
  lemma RaiseInTurn(byte: u8, b: Ssu.Bus, c: Ssu.Bus, rdrf: bool, tdre: bool, tend: bool)
    requires b.rdrf == Has(byte, 0x02) && b.tdre == Has(byte, 0x04) && b.tend == Has(byte, 0x08)
    requires c.rdrf == (b.rdrf || rdrf) && c.tdre == (b.tdre || tdre) && c.tend == (b.tend || tend)
    ensures RaiseIf(RaiseIf(RaiseIf(byte, 0x02, rdrf), 0x04, tdre), 0x08, tend) == StatusByte(byte, c)
  {
    var b1 := RaiseIf(byte, 0x02, rdrf);
    var b2 := RaiseIf(b1, 0x04, tdre);
    RaisedRdrf(byte);
    RaisedTdre(b1);
    RaiseAgain(byte, 0x02, b.rdrf, rdrf);
    RaiseAgain(b1, 0x04, b.tdre, tdre);
    RaiseAgain(b2, 0x08, b.tend, tend);
  }

  function WithFlags(b: Ssu.Bus, rdrf: bool, tdre: bool, tend: bool): Ssu.Bus {
    b.(rdrf := b.rdrf || rdrf, tdre := b.tdre || tdre, tend := b.tend || tend)
  }

  lemma RaisingFlags(mem: seq<u8>, rdrf: bool, tdre: bool, tend: bool)
    requires |mem| == MEM_SIZE
    ensures var b := WithFlags(BusOf(mem), rdrf, tdre, tend);
            && mem[SSSR := RaiseIf(RaiseIf(RaiseIf(mem[SSSR], 0x02, rdrf), 0x04, tdre), 0x08, tend)] == PutBus(mem, b)
            && BusOf(PutBus(mem, b)) == b
  {
    var b := WithFlags(BusOf(mem), rdrf, tdre, tend);
    RaiseInTurn(mem[SSSR], BusOf(mem), b, rdrf, tdre, tend);
    PutBusRoundTrip(mem, b);
    assert mem[SSRDR] == b.ssrdr;
  }

  /** What raising flags adds to the status byte, and what it shows afterwards. */
  lemma StatusByteSum(byte: u8, b: Ssu.Bus)
    ensures StatusByte(byte, b) == byte + (if b.rdrf && !Has(byte, 0x02) then 2 else 0)
                                        + (if b.tdre && !Has(byte, 0x04) then 4 else 0)
                                        + (if b.tend && !Has(byte, 0x08) then 8 else 0)
    ensures Has(StatusByte(byte, b), 0x02) == (Has(byte, 0x02) || b.rdrf)
    ensures Has(StatusByte(byte, b), 0x04) == (Has(byte, 0x04) || b.tdre)
    ensures Has(StatusByte(byte, b), 0x08) == (Has(byte, 0x08) || b.tend)
  {
    var b1 := RaiseIf(byte, 0x02, b.rdrf);
    var b2 := RaiseIf(b1, 0x04, b.tdre);
    RaisedRdrf(byte);
    RaisedTdre(b1);
    RaisedTend(b2);
  }

  /** Two updates of the bus registers, the second only raising flags, are one. */
  lemma PutBusTwice(mem: seq<u8>, b: Ssu.Bus, c: Ssu.Bus)
    requires |mem| == MEM_SIZE
    requires (b.rdrf ==> c.rdrf) && (b.tdre ==> c.tdre) && (b.tend ==> c.tend)
    ensures PutBus(PutBus(mem, b), c) == PutBus(mem, c)
  {
    StatusByteSum(mem[SSSR], b);
    StatusByteSum(mem[SSSR], c);
    StatusByteSum(StatusByte(mem[SSSR], b), c);
    assert StatusByte(StatusByte(mem[SSSR], b), c) == StatusByte(mem[SSSR], c);
  }

  /** The serial unit of the machine is the one whose transactions are described on their own. */
  lemma SsuTickIsTick(s: State)
    requires Ok(s)
    ensures SsuTick(s).Ran? <==> Ssu.Tick(Devices(s)).Ran?
    ensures SsuTick(s).Ran? ==> Devices(SsuTick(s).value) == Ssu.Tick(Devices(s)).value
  {
    if Ssu.Tick(Devices(s)).Ran? {
      TickRaisesFlags(Devices(s));
      PutBusRoundTrip(s.cpu.mem, Ssu.Tick(Devices(s)).value.bus);
    }
  }

  /** Storing a byte register at SSTDR is how the program loads a byte to send. */
  lemma StoreLoadsByte(s: State, value: u8)
    requires Ok(s)
    ensures Devices(s.(cpu := s.cpu.(mem := AfterStore(s.cpu.mem, SSTDR, value)))) == Ssu.Load(Devices(s), value)
  {
    ClearedBits(s.cpu.mem[SSSR]);
  }

  lemma PutTimerBRoundTrip(mem: seq<u8>, l: Latches, b: Timers.TimerB)
    requires |mem| == MEM_SIZE && b == TimerBOf(mem, l).(flag := b.flag, tcb := b.tcb, on := b.on)
    requires Has(mem[IRR2], 0x04) ==> b.flag
    ensures TimerBOf(PutTimerB(mem, b), l.(bOn := b.on)) == b
    ensures TimerWOf(PutTimerB(mem, b), l) == TimerWOf(mem, l)
  {
  }

  lemma PutTimerWRoundTrip(mem: seq<u8>, l: Latches, w: Timers.TimerW)
    requires |mem| == MEM_SIZE && w == TimerWOf(mem, l).(flag := w.flag, tcnt := w.tcnt, on := w.on)
    requires Has(mem[TSRW], 0x01) ==> w.flag
    ensures TimerWOf(PutTimerW(mem, w), l.(wOn := w.on)) == w
    ensures TimerBOf(PutTimerW(mem, w), l) == TimerBOf(mem, l)
  {
    Set16RoundTrip(mem[TSRW := RaiseIf(mem[TSRW], 0x01, w.flag)], TCNT, w.tcnt);
  }

  lemma SubClockTickIsTickB(s: State)
    requires Ok(s)
    ensures var t := SubClockTick(s);
            TimerBOf(t.cpu.mem, t.latches) == Timers.TickB(TimerBOf(s.cpu.mem, s.latches), s.latches.sub + 1)
  {
    hide PutTimerB, PutTimerW;
    var l, mem := s.latches, s.cpu.mem;
    var b, w := Timers.TickB(TimerBOf(mem, l), l.sub + 1), Timers.TickW(TimerWOf(mem, l));
    PutTimerBRoundTrip(mem, l, b);
    PutTimerWRoundTrip(PutTimerB(mem, b), l.(bOn := b.on), w);
  }

  lemma SubClockTickIsTickW(s: State)
    requires Ok(s)
    ensures var t := SubClockTick(s);
            TimerWOf(t.cpu.mem, t.latches) == Timers.TickW(TimerWOf(s.cpu.mem, s.latches))
  {
    hide PutTimerB, PutTimerW;
    var l, mem := s.latches, s.cpu.mem;
    var b, w := Timers.TickB(TimerBOf(mem, l), l.sub + 1), Timers.TickW(TimerWOf(mem, l));
    PutTimerBRoundTrip(mem, l, b);
    PutTimerWRoundTrip(PutTimerB(mem, b), l.(bOn := b.on), w);
  }

  /** A sub clock tick of the machine is a tick of both timers. */
  lemma SubClockTickIsTick(s: State)
    requires Ok(s)
    ensures var t, l, m := SubClockTick(s), s.latches, s.cpu.mem;
            && TimerBOf(t.cpu.mem, t.latches) == Timers.TickB(TimerBOf(m, l), l.sub + 1)
            && TimerWOf(t.cpu.mem, t.latches) == Timers.TickW(TimerWOf(m, l))
  {
    SubClockTickIsTickB(s);
    SubClockTickIsTickW(s);
  }

  /** The clock writes nothing but the peripherals' own registers, and no register of the processor. */
  predicate ClockRegister(a: nat) {
    a in {SSSR, SSRDR, IRR2, TCB1, TSRW, TCNT, TCNT + 1}
  }

  ghost predicate SparesMemory(mem: seq<u8>, mem': seq<u8>)
    requires |mem| == |mem'| == MEM_SIZE
  {
    forall a: nat :: a < MEM_SIZE && !ClockRegister(a) ==> mem'[a] == mem[a]
  }

  lemma SparedTwice(mem: seq<u8>, mem': seq<u8>, mem'': seq<u8>)
    requires |mem| == |mem'| == |mem''| == MEM_SIZE && SparesMemory(mem, mem') && SparesMemory(mem', mem'')
    ensures SparesMemory(mem, mem'')
  {
  }

  lemma PutBusSparesMemory(mem: seq<u8>, b: Ssu.Bus)
    requires |mem| == MEM_SIZE
    ensures SparesMemory(mem, PutBus(mem, b))
  {
  }

  lemma PutTimerBSparesMemory(mem: seq<u8>, b: Timers.TimerB)
    requires |mem| == MEM_SIZE
    ensures SparesMemory(mem, PutTimerB(mem, b))
  {
  }

  lemma PutTimerWSparesMemory(mem: seq<u8>, w: Timers.TimerW)
    requires |mem| == MEM_SIZE
    ensures SparesMemory(mem, PutTimerW(mem, w))
  {
    Set16RoundTrip(mem[TSRW := RaiseIf(mem[TSRW], 0x01, w.flag)], TCNT, w.tcnt);
  }

  lemma SsuPhaseSparesMemory(s: State)
    requires Ok(s) && SsuPhase(s).Ran?
    ensures SsuPhase(s).value.cpu.er == s.cpu.er && SparesMemory(s.cpu.mem, SsuPhase(s).value.cpu.mem)
  {
    hide Ssu.Tick, PutBus;
    if s.cycles % SSU_PERIOD == 0 {
      PutBusSparesMemory(s.cpu.mem, Ssu.Tick(Devices(s)).value.bus);
    }
  }

  lemma SubClockPhaseSparesMemory(s: State)
    requires Ok(s)
    ensures SubClockPhase(s).cpu.er == s.cpu.er && SparesMemory(s.cpu.mem, SubClockPhase(s).cpu.mem)
  {
    hide Timers.TickB, Timers.TickW, PutTimerB, PutTimerW, TimerBOf, TimerWOf;
    if s.cycles % SUB_CLOCK_PERIOD == 0 {
      var l, mem := s.latches, s.cpu.mem;
      var b, w := Timers.TickB(TimerBOf(mem, l), l.sub + 1), Timers.TickW(TimerWOf(mem, l));
      PutTimerBSparesMemory(mem, b);
      PutTimerWSparesMemory(PutTimerB(mem, b), w);
      SparedTwice(mem, PutTimerB(mem, b), PutTimers(mem, b, w));
    }
  }

  lemma CycleSparesMemory(s: State)
    requires Ok(s) && Cycle(s).Ran?
    ensures Cycle(s).value.cpu.er == s.cpu.er
    ensures SparesMemory(s.cpu.mem, Cycle(s).value.cpu.mem)
  {
    hide SparesMemory, SsuTick, SubClockTick;
    var t := SsuPhase(CountCycle(s)).value;
    SsuPhaseSparesMemory(CountCycle(s));
    SubClockPhaseSparesMemory(t);
    SparedTwice(s.cpu.mem, t.cpu.mem, SubClockPhase(t).cpu.mem);
  }
}
