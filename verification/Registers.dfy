/** The serial unit and the timers in the bytes of memory: the bits that they read and raise, and what they count. */
module Registers {
  import opened Words
  import opened H8
  import opened Machine
  import Encoding
  import Interrupts
  import Ssu
  import Timers

  /** Nothing but the bytes at these addresses differs. */
  ghost predicate OnlyAt(mem: seq<u8>, mem': seq<u8>, addresses: set<nat>) {
    |mem| == |mem'| == MEM_SIZE && forall a: nat :: a < MEM_SIZE && a !in addresses ==> mem'[a] == mem[a]
  }

  // ---------------------------------------------------------------- the serial unit

  /** What a tick of the serial unit reads of memory. */
  lemma SerialUnitReads(s: State)
    requires Ok(s)
    ensures var m := s.cpu.mem;
            Devices(s).bus
            == Ssu.Bus(m[0xF0E3] / 0x80 == 1, m[0xF0E3] / 0x40 % 2 == 1,
                       m[0xF0E4] / 2 % 2 == 1, m[0xF0E4] / 4 % 2 == 1, m[0xF0E4] / 8 % 2 == 1,
                       m[0xF0E9], m[0xF0EB],
                       m[0xFFD4] / 4 % 2 == 1, m[0xFFD4] / 2 % 2 == 1, m[0xFFD4] % 2 == 1, m[0xFFDC] % 2 == 1)
  {
  }

  lemma StatusBits(byte: u8, b: Ssu.Bus)
    requires (Has(byte, 0x02) ==> b.rdrf) && (Has(byte, 0x04) ==> b.tdre) && (Has(byte, 0x08) ==> b.tend)
    ensures var x := StatusByte(byte, b);
            && (x / 2 % 2 == 1 <==> b.rdrf) && (x / 4 % 2 == 1 <==> b.tdre) && (x / 8 % 2 == 1 <==> b.tend)
            && x % 2 == byte % 2 && x / 0x10 == byte / 0x10
  {
    StatusByteSum(byte, b);
    Digits(byte);
    Recompose(byte, if b.rdrf then 1 else 0, if b.tdre then 1 else 0, if b.tend then 1 else 0);
  }

  lemma Digits(byte: u8)
    ensures byte == byte / 0x10 * 0x10 + byte / 8 % 2 * 8 + byte / 4 % 2 * 4 + byte / 2 % 2 * 2 + byte % 2
  {
    assert byte / 8 == byte / 0x10 * 2 + byte / 8 % 2;
    assert byte / 4 == byte / 8 * 2 + byte / 4 % 2;
    assert byte / 2 == byte / 4 * 2 + byte / 2 % 2;
  }

  lemma Recompose(byte: u8, second: nat, third: nat, fourth: nat)
    requires second < 2 && third < 2 && fourth < 2
    ensures var x := byte / 0x10 * 0x10 + fourth * 8 + third * 4 + second * 2 + byte % 2;
            x / 0x10 == byte / 0x10 && x % 2 == byte % 2
  {
  }

  /** What it writes: the received byte, and its three flags among the bits of the status, which it only raises. */
  lemma SerialUnitWrites(s: State)
    requires Ok(s) && SsuTick(s).Ran?
    ensures Ssu.Tick(Devices(s)).Ran?
    ensures var m, t, b := s.cpu.mem, SsuTick(s).value, Ssu.Tick(Devices(s)).value.bus;
            var x := t.cpu.mem[0xF0E4];
            && OnlyAt(m, t.cpu.mem, {0xF0E4, 0xF0E9}) && t.cpu.mem[0xF0E9] == b.ssrdr
            && (x / 2 % 2 == 1 <==> b.rdrf) && (x / 4 % 2 == 1 <==> b.tdre) && (x / 8 % 2 == 1 <==> b.tend)
            && x % 2 == m[0xF0E4] % 2 && x / 0x10 == m[0xF0E4] / 0x10
            && t.cpu.core == s.cpu.core && t.cpu.er == s.cpu.er && t.cycles == s.cycles && t.inputs == s.inputs
  {
    hide Ssu.Tick, StatusByte;
    TickRaisesFlags(Devices(s));
    StatusBits(s.cpu.mem[SSSR], Ssu.Tick(Devices(s)).value.bus);
  }

  // ---------------------------------------------------------------- the timers

  function WordAt(mem: seq<u8>, a: nat): nat
    requires |mem| == MEM_SIZE && a + 1 < MEM_SIZE
  {
    mem[a] as int * 0x100 + mem[a + 1] as int
  }

  /** Timer B after a tick of the sub clock: its counter at 0xF0D1 and its request, bit 2 at 0xFFF7. */
  predicate TimerBTicked(s: State, mem: seq<u8>)
    requires Ok(s) && |mem| == MEM_SIZE
  {
    var m := s.cpu.mem;
    var counts := s.latches.bOn && (s.latches.sub + 1) % 256 == 0;
    var overflows := counts && m[0xF0D1] == 0xFF;
    && mem[0xF0D1] == (if overflows then s.latches.tlb else if counts then m[0xF0D1] as int + 1 else m[0xF0D1])
    && mem[0xFFF7] == m[0xFFF7] as int + if overflows && m[0xFFF7] / 4 % 2 == 0 then 4 else 0
  }

  /** What Timer W compares with its limit at 0xF0F8: its counter at 0xF0F6, one further if it counts. */
  function CountedWord(m: seq<u8>): nat
    requires |m| == MEM_SIZE
  {
    (WordAt(m, 0xF0F6) + if m[0xF0F0] / 0x80 == 1 then 1 else 0) % 0x1_0000
  }

  predicate MatchesWord(s: State)
    requires Ok(s)
  {
    s.latches.wOn && CountedWord(s.cpu.mem) == WordAt(s.cpu.mem, 0xF0F8)
  }

  /** Timer W after a tick: its counter, its flag, bit 0 at 0xF0F3, and the core, which a match may interrupt. */
  predicate TimerWTicked(s: State, t: State)
    requires Ok(s) && Ok(t)
  {
    var m, mem, c, d := s.cpu.mem, t.cpu.mem, s.cpu.core, t.cpu.core;
    && WordAt(mem, 0xF0F6) == (if !s.latches.wOn then WordAt(m, 0xF0F6)
                               else if MatchesWord(s) && m[0xF0F1] / 0x80 == 1 then 0 else CountedWord(m))
    && mem[0xF0F3] == m[0xF0F3] as int + (if MatchesWord(s) && m[0xF0F3] % 2 == 0 then 1 else 0)
    && d == if MatchesWord(s) && m[0xF0F2] % 2 == 1 && !c.flags.I
            then Core(0x3a4a, c.flags.(I := true), c.pc, c.flags, false) else c
  }

  lemma TimerWInMemory(s: State)
    requires Ok(s)
    ensures TimerWTicked(s, SubClockTick(s))
  {
    hide PutTimerB, PutTimerW, TimerBOf, TimerWOf, Timers.TickB, Timers.TickW, MatchesWord, CountedWord;
    TimerWReads(s);
    SubClockTickIsTickW(s);
    TimerWReads(SubClockTick(s));
    TimerWFlag(s);
    TimerWMatches(s);
    TimerWTicks(TimerWOf(s.cpu.mem, s.latches));
  }

  lemma TimerWMatches(s: State)
    requires Ok(s)
    ensures var w := TimerWOf(s.cpu.mem, s.latches);
            (w.on ==> Timers.Counted(w) == CountedWord(s.cpu.mem)) && (Timers.Matches(w) <==> MatchesWord(s))
  {
    hide TimerWOf;
    TimerWReads(s);
  }

  lemma TimerWTicks(w: Timers.TimerW)
    ensures var t := Timers.TickW(w);
            && t.tcnt == (if !w.on then w.tcnt
                          else if Timers.Matches(w) && w.clearOnMatch then 0 else Timers.Counted(w))
            && (t.flag <==> w.flag || Timers.Matches(w))
  {
  }

  lemma TimerWReads(s: State)
    requires Ok(s)
    ensures var m := s.cpu.mem;
            TimerWOf(m, s.latches)
            == Timers.TimerW(s.latches.wOn, WordAt(m, 0xF0F6), WordAt(m, 0xF0F8),
                             m[0xF0F0] / 0x80 == 1, m[0xFFFB] / 0x40 % 2 == 1, m[0xF0F1] / 0x80 == 1,
                             m[0xF0F3] % 2 == 1, m[0xF0F2] % 2 == 1)
  {
  }

  lemma TimerBReads(s: State)
    requires Ok(s)
    ensures var m := s.cpu.mem;
            TimerBOf(m, s.latches)
            == Timers.TimerB(s.latches.bOn, s.latches.tlb, m[0xF0D1],
                             m[0xF0D0] / 0x40 % 2 == 1, m[0xFFFA] / 4 % 2 == 1, m[0xFFF7] / 4 % 2 == 1)
  {
  }

  /** The flag byte of Timer W. */
  lemma TimerWFlag(s: State)
    requires Ok(s)
    ensures var m, w := s.cpu.mem, Timers.TickW(TimerWOf(s.cpu.mem, s.latches));
            SubClockTick(s).cpu.mem[0xF0F3] == m[0xF0F3] as int + if w.flag && m[0xF0F3] % 2 == 0 then 1 else 0
  {
    hide Timers.TickB, Timers.TickW;
    var b, w := Timers.TickB(TimerBOf(s.cpu.mem, s.latches), s.latches.sub + 1),
                Timers.TickW(TimerWOf(s.cpu.mem, s.latches));
    var between := PutTimerB(s.cpu.mem, b);
    Set16RoundTrip(between[TSRW := RaiseIf(between[TSRW], 0x01, w.flag)], TCNT, w.tcnt);
  }

  lemma TimerBInMemory(s: State)
    requires Ok(s)
    ensures TimerBTicked(s, SubClockTick(s).cpu.mem)
  {
    hide PutTimerB, PutTimerW, TimerBOf, TimerWOf, Timers.TickW;
    TimerBReads(s);
    SubClockTickIsTickB(s);
    TimerBReads(SubClockTick(s));
    TimerBFlag(s);
  }

  lemma TimerBFlag(s: State)
    requires Ok(s)
    ensures var m, b := s.cpu.mem, Timers.TickB(TimerBOf(s.cpu.mem, s.latches), s.latches.sub + 1);
            SubClockTick(s).cpu.mem[0xFFF7] == m[0xFFF7] as int + if b.flag && m[0xFFF7] / 4 % 2 == 0 then 4 else 0
  {
    hide Timers.TickB, Timers.TickW;
    var b, w := Timers.TickB(TimerBOf(s.cpu.mem, s.latches), s.latches.sub + 1),
                Timers.TickW(TimerWOf(s.cpu.mem, s.latches));
    var between := PutTimerB(s.cpu.mem, b);
    Set16RoundTrip(between[TSRW := RaiseIf(between[TSRW], 0x01, w.flag)], TCNT, w.tcnt);
  }

  /**
   A tick of the sub clock in the bytes of memory: both timers count, match, reload and request, a match of Timer W may
   interrupt at once, and whether each of them runs at the next tick is what its two bits say now. Nothing else changes.
   */
  lemma TimersInMemory(s: State)
    requires Ok(s)
    ensures var m, l, t := s.cpu.mem, s.latches, SubClockTick(s);
            && TimerBTicked(s, t.cpu.mem) && TimerWTicked(s, t)
            && OnlyAt(m, t.cpu.mem, {0xFFF7, 0xF0D1, 0xF0F3, 0xF0F6, 0xF0F7})
            && t.latches == Latches(m[0xFFFA] / 4 % 2 == 1 && m[0xF0D0] / 0x40 % 2 == 1,
                                    m[0xFFFB] / 0x40 % 2 == 1 && m[0xF0F0] / 0x80 == 1, l.tlb, l.sub + 1, l.serial)
            && t == s.(cpu := Cpu(t.cpu.core, s.cpu.er, t.cpu.mem), latches := t.latches)
  {
    TimerBInMemory(s);
    TimerWInMemory(s);
    hide Timers.MatchInterrupt, PutTimerB, PutTimerW, TimerBTicked, TimerWTicked;
    TimerBReads(s);
    TimerWReads(s);
    TimersWriteOnly(s);
  }

  lemma TimersWriteOnly(s: State)
    requires Ok(s)
    ensures OnlyAt(s.cpu.mem, SubClockTick(s).cpu.mem, {0xFFF7, 0xF0D1, 0xF0F3, 0xF0F6, 0xF0F7})
  {
    hide Timers.TickB, Timers.TickW;
    var b, w := Timers.TickB(TimerBOf(s.cpu.mem, s.latches), s.latches.sub + 1),
                Timers.TickW(TimerWOf(s.cpu.mem, s.latches));
    var between := PutTimerB(s.cpu.mem, b);
    Set16RoundTrip(between[TSRW := RaiseIf(between[TSRW], 0x01, w.flag)], TCNT, w.tcnt);
  }

  /**
   A byte register stored at 0xF0D1 is Timer B's counter and from then on its reload value; no other store sets the
   latter.
   */
  lemma ReloadIsStored(s: State, e: Effect, x: Encoding.Move)
    requires Ok(s) && Admissible(e, s.cpu.core.flags) && !s.cpu.core.sleep
    requires x.StoreMove? && Encoding.At(Prepare(s).cpu, Encoding.MoveCode(x))
    ensures Instruct(s, e).Ran?
    ensures var t, value := Instruct(s, e).value, Encoding.ByteRegister(s.cpu.er, x.r);
            && t.latches == s.latches.(tlb := if x.w == 0xF0D1 then value else s.latches.tlb)
            && (x.w == 0xF0D1 ==> t.cpu.mem[0xF0D1] == value)
  {
    hide Decode, Encoding.At, AfterStore;
    Encoding.MoveDecodes(Prepare(s).cpu, x);
    StoredThere(Prepare(s).cpu.mem, x.w, Encoding.ByteRegister(s.cpu.er, x.r));
  }

  lemma StoredThere(mem: seq<u8>, w: u16, value: u8)
    requires |mem| == MEM_SIZE
    ensures w == 0xF0D1 ==> AfterStore(mem, w, value)[0xF0D1] == value
  {
  }

  /** No other instruction, in the model or not, sets it. */
  lemma ReloadIsKept(s: State, e: Effect)
    requires Ok(s) && Admissible(e, s.cpu.core.flags) && Instruct(s, e).Ran?
    requires s.cpu.core.sleep || !Decode(Prepare(s).cpu).StoreByte?
    ensures Instruct(s, e).value.latches == s.latches
  {
    hide Decode, Perform;
  }

  // ---------------------------------------------------------------- reset

  lemma SerialUnitRests(s: State)
    requires Ok(s) && s.cpu.mem[0xF0E3] == 0 && s.cpu.mem[0xF0E4] == 4
    ensures SsuTick(s) == Ssu.Ran(s.(latches := s.latches.(serial := s.latches.serial + 1)))
  {
    var d := Devices(s);
    assert Ssu.Tick(d) == Ssu.Ran(d);
    StatusByteSum(s.cpu.mem[SSSR], d.bus);
    assert PutBus(s.cpu.mem, d.bus) == s.cpu.mem;
  }

  lemma TimersRest(s: State)
    requires Ok(s) && !s.latches.bOn && !s.latches.wOn
    requires s.cpu.mem[0xF0D0] / 0x40 % 2 == 0 && s.cpu.mem[0xFFFB] == 0
    ensures SubClockTick(s) == s.(latches := s.latches.(sub := s.latches.sub + 1))
  {
    TimersInMemory(s);
    var mem := SubClockTick(s).cpu.mem;
    assert WordAt(mem, 0xF0F6) == WordAt(s.cpu.mem, 0xF0F6);
    SameWord(mem[0xF0F6], mem[0xF0F7], s.cpu.mem[0xF0F6], s.cpu.mem[0xF0F7]);
    assert mem == s.cpu.mem;
  }

  lemma SameWord(high: u8, low: u8, high': u8, low': u8)
    requires high as int * 0x100 + low as int == high' as int * 0x100 + low' as int
    ensures high == high' && low == low'
  {
  }

  /** The registers that do not start at zero. */
  const SET_AT_RESET: map<nat, u8> :=
    map[0xF0D0 := 0x38, 0xF0E4 := 0x04, 0xF0F0 := 0x48, 0xF0F2 := 0x70, 0xF0F3 := 0x70, 0xF0F4 := 0x88, 0xF0F5 := 0x88,
        0xF0F8 := 0xFF, 0xF0F9 := 0xFF, 0xF0FA := 0xFF, 0xF0FB := 0xFF, 0xF0FC := 0xFF, 0xF0FD := 0xFF, 0xFFFA := 0x04]

  /** What a reset puts in place: the ROM, the image, and every register that a device starts with. */
  lemma ResetHolds(rom: seq<u8>, image: seq<u8>)
    requires |rom| == 0xC000 && |image| == 0x1_0000
    ensures var s := Reset(rom, image);
            && s.cpu.mem[..0xC000] == rom && s.cpu.er == [0, 0, 0, 0, 0, 0, 0, 0]
            && (forall a: nat :: 0xC000 <= a < 0x1_0000 ==>
                  s.cpu.mem[a] == if a in SET_AT_RESET then SET_AT_RESET[a] else 0)
            && s.peripherals.progress == 0 && s.peripherals.eeprom == Ssu.Eeprom(image, 0, 0, 0, Ssu.Empty, 0)
            && s.peripherals.accel == Ssu.Accel([2] + seq(28, _ => 0), 0, 0, false)
            && s.peripherals.lcd == Ssu.Lcd(seq(5632, _ => 0), 20, false, 0, 0, 0, false)
  {
  }

  /**
   A machine that has been reset stands at the entry of the ROM and is quiet: no interrupt is wanted, no key is queued,
   and until the program enables something, ticks of the serial unit and of the sub clock change nothing.
   */
  lemma ResetIsQuiet(rom: seq<u8>, image: seq<u8>)
    requires |rom| == 0xC000 && |image| == 0x1_0000
    ensures var s, clear := Reset(rom, image), Flags(false, false, false, false, false, false, false, false);
            && s.cpu.core == Core(0x02C4, clear, 0, clear, false) && s.inputs == [] && s.cycles == 0
            && (forall k: nat :: !Interrupts.Wants(s.cpu.mem, k))
            && SsuTick(s) == Ssu.Ran(s.(latches := s.latches.(serial := 1)))
            && SubClockTick(s) == s.(latches := s.latches.(sub := 1))
  {
    var s := Reset(rom, image);
    SerialUnitRests(s);
    TimersRest(s);
  }
}
