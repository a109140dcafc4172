/**
 The whole machine as the emulator keeps it: one memory array shared by the processor, the serial unit and the
 timers, and the linked queue of key events.
 */
module Walker {
  import opened Words
  import opened H8
  import opened Machine
  import opened SerialUnit
  import InputQueue
  import LcdProtocol
  import Processor
  import Runs
  import Ssu
  import Timers

  /** Memory, latches and core before and after one tick of both timers. */
  ghost predicate TimersTicked(s: State, mem: seq<u8>, l: Latches, core: Core)
    requires Ok(s)
  {
    var b, w := Timers.TickB(TimerBOf(s.cpu.mem, s.latches), s.latches.sub + 1),
                Timers.TickW(TimerWOf(s.cpu.mem, s.latches));
    && mem == PutTimers(s.cpu.mem, b, w)
    && l == s.latches.(bOn := b.on, wOn := w.on, sub := s.latches.sub + 1)
    && core == Timers.MatchInterrupt(TimerWOf(s.cpu.mem, s.latches), s.cpu.core)
  }

  /** Timer B's registers are not among those that Timer W reads. */
  lemma TimersTickInTurn(s: State, between: seq<u8>, mem: seq<u8>, l: Latches, core: Core)
    requires Ok(s) && between == PutTimerB(s.cpu.mem, Timers.TickB(TimerBOf(s.cpu.mem, s.latches), s.latches.sub + 1))
    requires mem == PutTimerW(between, Timers.TickW(TimerWOf(between, s.latches)))
    requires core == Timers.MatchInterrupt(TimerWOf(between, s.latches), s.cpu.core)
    requires l.bOn == (Has(mem[CKSTPR1], 0x04) && Has(mem[TMB1], 0x40)) && l.tlb == s.latches.tlb
    requires l.wOn == (Has(mem[CKSTPR2], 0x40) && Has(mem[TMRW], 0x80)) && l.sub == s.latches.sub + 1
    requires l.serial == s.latches.serial
    ensures TimersTicked(s, mem, l, core)
  {
    assert TimerWOf(between, s.latches) == TimerWOf(s.cpu.mem, s.latches);
  }

  lemma SubClockTickParts(s: State, mem: seq<u8>, l: Latches, core: Core)
    requires Ok(s) && TimersTicked(s, mem, l, core)
    ensures SubClockTick(s) == s.(latches := l, cpu := Cpu(core, s.cpu.er, mem))
  {
  }

  function WithCarried(s: State, c: Cpu, tlb: u8, p: Peripherals): State {
    s.(cpu := c, latches := s.latches.(tlb := tlb), peripherals := p)
  }

  /** Processor, reload value and peripherals after a decoded instruction. */
  ghost predicate Carried(s: State, i: Insn, e: Effect, c: Cpu, tlb: u8, p: Peripherals)
    requires Ok(s) && Admissible(e, s.cpu.core.flags)
  {
    Carry(s, i, e) == Ssu.Ran(WithCarried(s, c, tlb, p))
  }

  lemma CarriedParts(s: State, i: Insn, e: Effect, done: Cpu, p: Peripherals)
    requires Ok(s) && Admissible(e, s.cpu.core.flags) && Perform(s.cpu, i, e) == Some(done)
    requires p == CleanUp(s.peripherals, BusOf(done.mem))
    ensures Carried(s, i, e, Advance(done), ReloadValue(s.latches.tlb, i), p)
  {
  }

  lemma ProceedInTurn(s: State, e: Effect, ending: Ending, t: State)
    requires Ok(s) && Admissible(e, s.cpu.core.flags) && Ended(ending, t) == Instruct(s, e)
    ensures ending.Goes? ==> Ok(t) && Proceed(s, e) == Finish(t)
    ensures !ending.Goes? ==> Proceed(s, e) == Ended(ending, t)
  {
  }

  /** The host has looked at the counter: once a quarter second has passed it is taken off and the frame is shown. */
  predicate Shown(s: State, t: State, quarters: u8, before: seq<int>, video: seq<int>)
    requires Ok(s)
  {
    && t == Runs.Looked(s, quarters % 2 == 0, quarters % 4 == 0)
    && video == if s.cycles < Runs.QUARTER then before else LcdProtocol.Frame(s.peripherals.lcd)
  }

  /** What instructions outside the model do in each turn, for a mask that is set or not. */
  ghost predicate Suits(effects: (nat, bool) -> Effect) {
    forall k: nat, masked: bool :: Admissible(effects(k, masked), CLEAR.(I := masked))
  }

  lemma EffectSuits(effects: (nat, bool) -> Effect, k: nat, flags: Flags)
    requires Suits(effects)
    ensures Admissible(effects(k, flags.I), flags)
  {
    assert Admissible(effects(k, flags.I), CLEAR.(I := flags.I));
  }

  class Walker {
    const memory: array<u8>
    const cpu: Processor.Unit
    const serial: SerialUnit.Unit
    const keys: InputQueue.Queue
    var cycles: nat
    var sub: nat
    var bOn: bool
    var wOn: bool
    var tlb: u8
    var quarters: u8
    ghost var serialTicks: nat

    /** Everything but the key queue. */
    ghost predicate BoardValid()
      reads this, memory, cpu, cpu.registers
      reads serial, serial.eepromMemory, serial.accelMemory, serial.lcdMemory
    {
      && cpu.Valid() && cpu.memory == memory
      && serial.memory == memory && serial.Valid()
    }

    ghost predicate Valid()
      reads this, memory, cpu, cpu.registers
      reads serial, serial.eepromMemory, serial.accelMemory, serial.lcdMemory, keys, keys.nodes
    {
      BoardValid() && keys.Valid()
    }

    /** Loads a ROM and an EEPROM image and resets the machine. */
    constructor (rom: array<u8>, image: array<u8>)
      requires rom.Length == ROM_SIZE && image.Length == Ssu.EEPROM_SIZE
      ensures Valid() && Value() == Reset(rom[..], image[..]) && quarters == 0
      ensures fresh(memory) && fresh(cpu) && fresh(cpu.registers) && fresh(keys) && keys.owned == {}
      ensures fresh(serial) && fresh(serial.eepromMemory) && fresh(serial.accelMemory) && fresh(serial.lcdMemory)
    {
      var bytes := new u8[MEM_SIZE](a requires 0 <= a < MEM_SIZE && rom.Length == ROM_SIZE reads rom =>
        if a < ROM_SIZE then rom[a] else ResetRegister(a));
      assert bytes[..] == ResetMemory(rom[..]);
      memory := bytes;
      cpu := new Processor.Unit(bytes, ENTRY);
      serial := new SerialUnit.Unit(bytes, image);
      keys := new InputQueue.Queue();
      cycles, sub, bOn, wOn, tlb, quarters, serialTicks := 0, 0, false, false, 0, 0, 0;
      new;
      ghost var start := Reset(rom[..], image[..]);
      assert cpu.Value() == start.cpu && serial.PeripheralsValue() == start.peripherals;
    }

    /** Loads another ROM and EEPROM image into the same storage. The cycle counter belongs to the host and goes on. */
    method Load(rom: array<u8>, image: array<u8>)
      requires Valid() && rom.Length == ROM_SIZE && image.Length == Ssu.EEPROM_SIZE
      requires rom != memory && image != memory
      requires image != serial.eepromMemory && image != serial.accelMemory && image != serial.lcdMemory
      modifies this`sub, this`bOn, this`wOn, this`tlb, this`quarters, this`serialTicks, memory, cpu, cpu.registers
      modifies serial, serial.eepromMemory, serial.accelMemory, serial.lcdMemory, keys
      ensures Valid() && Value() == old(Reset(rom[..], image[..])).(cycles := cycles) && quarters == 0
    {
      ghost var start := Reset(rom[..], image[..]);
      keys.Drain();
      LoadBoard(rom, image, start);
    }

    method LoadBoard(rom: array<u8>, image: array<u8>, ghost start: State)
      requires BoardValid() && rom.Length == ROM_SIZE && image.Length == Ssu.EEPROM_SIZE
      requires rom != memory && image != memory
      requires image != serial.eepromMemory && image != serial.accelMemory && image != serial.lcdMemory
      requires start == Reset(rom[..], image[..])
      modifies this`sub, this`bOn, this`wOn, this`tlb, this`quarters, this`serialTicks, memory, cpu, cpu.registers
      modifies serial, serial.eepromMemory, serial.accelMemory, serial.lcdMemory
      ensures BoardValid() && BoardValue([]) == start.(cycles := cycles) && quarters == 0
    {
      LoadMemory(rom);
      RestartLatches();
      serial.Restart(image);
      cpu.Restart(ENTRY);
    }

    method RestartLatches()
      modifies this`sub, this`bOn, this`wOn, this`tlb, this`quarters, this`serialTicks
      ensures LatchesValue() == Latches(false, false, 0, 0, 0) && quarters == 0
    {
      sub, bOn, wOn, tlb, quarters, serialTicks := 0, false, false, 0, 0, 0;
    }

    method LoadMemory(rom: array<u8>)
      requires memory.Length == MEM_SIZE && rom.Length == ROM_SIZE && rom != memory
      modifies memory
      ensures memory[..] == ResetMemory(rom[..])
    {
      forall a | 0 <= a < MEM_SIZE {
        memory[a] := if a < ROM_SIZE then rom[a] else ResetRegister(a);
      }
      assert memory[..] == ResetMemory(rom[..]);
    }

    ghost function LatchesValue(): Latches
      reads this
    {
      Latches(bOn, wOn, tlb, sub, serialTicks)
    }

    /** The machine with the given keys queued. */
    ghost function BoardValue(inputs: seq<int>): State
      reads this, memory, cpu, cpu.memory, cpu.registers
      reads serial, serial.eepromMemory, serial.accelMemory, serial.lcdMemory
    {
      State(cpu.Value(), serial.PeripheralsValue(), LatchesValue(), cycles, inputs)
    }

    ghost function Value(): State
      reads this, memory, cpu, cpu.memory, cpu.registers
      reads serial, serial.eepromMemory, serial.accelMemory, serial.lcdMemory, keys, keys.nodes
    {
      BoardValue(keys.Contents())
    }

    // -------------------------------------------------------------- timers

    method TickTimerB(ghost l: Latches)
      requires memory.Length == MEM_SIZE && LatchesValue() == l.(sub := l.sub + 1)
      modifies memory
      ensures memory[..] == PutTimerB(old(memory[..]), Timers.TickB(TimerBOf(old(memory[..]), l), l.sub + 1))
    {
      if bOn && sub % 256 == 0 {
        memory[TCB1] := Low8(memory[TCB1] as int + 1);
        if memory[TCB1] == 0 {
          memory[IRR2] := Raise(memory[IRR2], 0x04);
          memory[TCB1] := tlb;
        }
      }
    }

    method CountTimerW(ghost l: Latches)
      requires cpu.Valid() && cpu.memory == memory
      modifies memory
      ensures memory[..] == Set16(old(memory[..]), TCNT, Timers.Counted(TimerWOf(old(memory[..]), l)))
    {
      if Has(memory[TMRW], 0x80) {
        var count := cpu.GetMemory16(TCNT);
        cpu.SetMemory16(TCNT, Low16(count as int + 1));
      } else {
        Set16Same(memory[..], TCNT);
      }
    }

    /** Flags a match and clears the counter on one. */
    method MatchTimerW() returns (matched: bool)
      requires cpu.Valid() && cpu.memory == memory
      modifies memory
      ensures matched == (Get16(old(memory[..]), TCNT) == Get16(old(memory[..]), GRA))
      ensures var before := old(memory[..]);
              memory[..] == if !matched then before
                            else Set16(before, TCNT, if Has(before[TCRW], 0x80) then 0 else Get16(before, TCNT))
                                 [TSRW := Raise(before[TSRW], 0x01)]
    {
      var count := cpu.GetMemory16(TCNT);
      var limit := cpu.GetMemory16(GRA);
      matched := count == limit;
      if matched {
        Set16Same(memory[..], TCNT);
        if Has(memory[TCRW], 0x80) {
          cpu.SetMemory16(TCNT, 0);
        }
        memory[TSRW] := Raise(memory[TSRW], 0x01);
      }
    }

    method TickTimerW(ghost l: Latches)
      requires cpu.Valid() && cpu.memory == memory && l.wOn == wOn
      modifies memory, cpu
      ensures memory[..] == PutTimerW(old(memory[..]), Timers.TickW(TimerWOf(old(memory[..]), l)))
      ensures cpu.CoreValue() == Timers.MatchInterrupt(TimerWOf(old(memory[..]), l), old(cpu.CoreValue()))
    {
      ghost var before := memory[..];
      Set16Same(before, TCNT);
      if wOn {
        CountTimerW(l);
        Set16RoundTrip(before, TCNT, Timers.Counted(TimerWOf(before, l)));
        var matched := MatchTimerW();
        if matched && Has(memory[TIERW], 0x01) && !cpu.flags.I {
          cpu.EnterInterrupt(Timers.VECTOR_TIMER_W);
        }
      }
    }

    method CountTick(ghost s: State) returns (ghost between: seq<u8>)
      requires cpu.Valid() && cpu.memory == memory
      requires Ok(s) && s.cpu.mem == memory[..] && s.latches == LatchesValue() && s.cpu.core == cpu.CoreValue()
      modifies this`sub, memory, cpu
      ensures sub == s.latches.sub + 1
      ensures between == PutTimerB(s.cpu.mem, Timers.TickB(TimerBOf(s.cpu.mem, s.latches), s.latches.sub + 1))
      ensures memory[..] == PutTimerW(between, Timers.TickW(TimerWOf(between, s.latches)))
      ensures cpu.CoreValue() == Timers.MatchInterrupt(TimerWOf(between, s.latches), s.cpu.core)
    {
      sub := sub + 1;
      TickTimerB(s.latches);
      between := memory[..];
      TickTimerW(s.latches);
    }

    /** Both timers; whether they run is latched for the next tick. */
    method TickTimers(ghost s: State)
      requires cpu.Valid() && cpu.memory == memory
      requires Ok(s) && s.cpu.mem == memory[..] && s.latches == LatchesValue() && s.cpu.core == cpu.CoreValue()
      modifies this`bOn, this`wOn, this`sub, memory, cpu
      ensures TimersTicked(s, memory[..], LatchesValue(), cpu.CoreValue())
    {
      ghost var between := CountTick(s);
      bOn := Has(memory[CKSTPR1], 0x04) && Has(memory[TMB1], 0x40);
      wOn := Has(memory[CKSTPR2], 0x40) && Has(memory[TMRW], 0x80);
      TimersTickInTurn(s, between, memory[..], LatchesValue(), cpu.CoreValue());
    }

    method RunSubClock(ghost inputs: seq<int>)
      requires BoardValid()
      modifies this`bOn, this`wOn, this`sub, memory, cpu
      ensures BoardValid() && BoardValue(inputs) == SubClockTick(old(BoardValue(inputs)))
    {
      ghost var s := BoardValue(inputs);
      TickTimers(s);
      SubClockTickParts(s, memory[..], LatchesValue(), cpu.CoreValue());
      assert cpu.registers[..] == s.cpu.er;
      assert serial.PeripheralsValue() == s.peripherals;
    }

    // -------------------------------------------------------------- the clock

    method TickSerial(ghost inputs: seq<int>) returns (ending: Ending)
      requires BoardValid()
      modifies this`serialTicks, memory, serial, serial.eepromMemory, serial.accelMemory, serial.lcdMemory
      ensures Ended(ending, BoardValue(inputs)) == SsuTick(old(BoardValue(inputs)))
      ensures ending.Goes? ==> BoardValid()
    {
      ghost var s := BoardValue(inputs);
      ending := serial.Tick();
      serialTicks := serialTicks + 1;
      if ending.Goes? {
        assert cpu.registers[..] == s.cpu.er;
        assert BoardValue(inputs) == WithDevices(s, serial.Value());
      }
    }

    method SerialPhase(ghost inputs: seq<int>) returns (ending: Ending)
      requires BoardValid()
      modifies this`serialTicks, memory, serial, serial.eepromMemory, serial.accelMemory, serial.lcdMemory
      ensures Ended(ending, BoardValue(inputs)) == SsuPhase(old(BoardValue(inputs)))
      ensures ending.Goes? ==> BoardValid()
    {
      ending := Goes;
      if cycles % SSU_PERIOD == 0 {
        ending := TickSerial(inputs);
      }
    }

    method TimersPhase(ghost inputs: seq<int>)
      requires BoardValid()
      modifies this`bOn, this`wOn, this`sub, memory, cpu
      ensures BoardValid() && BoardValue(inputs) == SubClockPhase(old(BoardValue(inputs)))
    {
      if cycles % SUB_CLOCK_PERIOD == 0 {
        RunSubClock(inputs);
      }
    }

    method RunPhases(ghost inputs: seq<int>) returns (ending: Ending)
      requires BoardValid()
      modifies this`bOn, this`wOn, this`sub, memory, cpu
      modifies this`serialTicks, serial, serial.eepromMemory, serial.accelMemory, serial.lcdMemory
      ensures Ended(ending, BoardValue(inputs)) == Phases(old(BoardValue(inputs)))
      ensures ending.Goes? ==> BoardValid()
    {
      ending := SerialPhase(inputs);
      if ending.Goes? {
        TimersPhase(inputs);
      }
    }

    method CountOneCycle(ghost inputs: seq<int>)
      requires BoardValid()
      modifies this`cycles
      ensures BoardValid() && BoardValue(inputs) == CountCycle(old(BoardValue(inputs)))
    {
      cycles := cycles + 1;
    }

    method RunCycle(ghost inputs: seq<int>) returns (ending: Ending)
      requires BoardValid()
      modifies this`cycles, this`bOn, this`wOn, this`sub, memory, cpu
      modifies this`serialTicks, serial, serial.eepromMemory, serial.accelMemory, serial.lcdMemory
      ensures Ended(ending, BoardValue(inputs)) == Cycle(old(BoardValue(inputs)))
      ensures ending.Goes? ==> BoardValid()
    {
      CountOneCycle(inputs);
      ending := RunPhases(inputs);
    }

    method RunTwoCycles(ghost inputs: seq<int>) returns (ending: Ending)
      requires BoardValid()
      modifies this`cycles, this`bOn, this`wOn, this`sub, memory, cpu
      modifies this`serialTicks, serial, serial.eepromMemory, serial.accelMemory, serial.lcdMemory
      ensures Ended(ending, BoardValue(inputs)) == TwoCycles(old(BoardValue(inputs)))
      ensures ending.Goes? ==> BoardValid()
    {
      ending := RunCycle(inputs);
      if ending.Goes? {
        ending := RunCycle(inputs);
      }
    }

    // -------------------------------------------------------------- interrupts and keys

    /** The interrupt that would be taken if none were masked. */
    method FindPending() returns (vector: Option<u16>)
      requires memory.Length == MEM_SIZE
      ensures vector == Pending(memory[..])
    {
      if Has(memory[IRR1], 0x01) && Has(memory[IENR1], 0x01) {
        return Some(VECTOR_IRQ0);
      }
      if Has(memory[IENR1], 0x80) {
        if Has(memory[RTCFLG], 0x01) {
          return Some(VECTOR_RTC_QUARTER_SEC);
        }
        if Has(memory[RTCFLG], 0x02) {
          return Some(VECTOR_RTC_HALF_SEC);
        }
        return if Has(memory[RTCFLG], 0x04) then Some(VECTOR_RTC_EVERY_SEC) else None;
      }
      return if Has(memory[IRR2], 0x04) && Has(memory[IENR2], 0x04) then Some(VECTOR_TIMER_B1) else None;
    }

    /** Queues a key and its release. */
    method QueueKey(key: int)
      requires keys.Valid()
      modifies keys, keys.owned
      ensures keys.Valid() && keys.Contents() == old(keys.Contents()) + [key, 0]
      ensures fresh(keys.owned - old(keys.owned))
    {
      keys.AddElement(key);
      keys.AddElement(0);
    }

    method DispatchInterrupts()
      requires Valid()
      modifies cpu, keys, keys.owned
      ensures Valid() && Value() == Dispatch(old(Value()))
      ensures fresh(keys.owned - old(keys.owned))
    {
      TakePending();
      assert serial.PeripheralsValue() == old(serial.PeripheralsValue());
      assert cpu.registers[..] == old(cpu.registers[..]);
      assert memory[..] == old(memory[..]);
      assert Value().cpu == Dispatch(old(Value())).cpu;
    }

    method TakePending()
      requires cpu.Valid() && cpu.memory == memory && keys.Valid()
      modifies cpu, keys, keys.owned
      ensures keys.Valid()
      ensures cpu.CoreValue() == DispatchCore(old(cpu.CoreValue()), old(memory[..]))
      ensures keys.Contents() == DispatchInputs(old(keys.Contents()), old(cpu.CoreValue()), old(memory[..]))
      ensures fresh(keys.owned - old(keys.owned))
    {
      hide Pending, Enter;
      if !cpu.flags.I {
        var vector := FindPending();
        TakeVector(vector);
      }
    }

    /** Takes an interrupt; that of the center key queues it. */
    method TakeVector(vector: Option<u16>)
      requires cpu.Valid() && cpu.memory == memory && keys.Valid()
      modifies cpu, keys, keys.owned
      ensures keys.Valid() && fresh(keys.owned - old(keys.owned))
      ensures cpu.CoreValue() == if vector.Some? then Enter(old(cpu.CoreValue()), vector.value)
                                 else old(cpu.CoreValue())
      ensures keys.Contents() == if vector == Some(VECTOR_IRQ0) then old(keys.Contents()) + [ENTER, 0]
                                 else old(keys.Contents())
    {
      if vector.Some? {
        cpu.EnterInterrupt(vector.value);
        if vector.value == VECTOR_IRQ0 {
          QueueKey(ENTER);
        }
      }
    }

    // -------------------------------------------------------------- instructions

    method SkipInPlace()
      requires cpu.Valid()
      modifies cpu, cpu.registers
      ensures cpu.Value() == SkippedCpu(old(cpu.Value()))
    {
      if cpu.pc == 0x350 {
        cpu.registers[0] := cpu.registers[0] as int / 0x100 * 0x100;
      }
      cpu.pc := Low16(cpu.pc as int + if cpu.pc == 0x7700 then 2 else 4);
    }

    method SkipOne(ghost inputs: seq<int>)
      requires BoardValid()
      modifies cpu, cpu.registers
      ensures BoardValid() && BoardValue(inputs) == Skip(old(BoardValue(inputs)))
    {
      ghost var s := BoardValue(inputs);
      SkipInPlace();
      assert serial.PeripheralsValue() == s.peripherals;
    }

    method PopKey() returns (key: Option<int>)
      requires keys.Valid()
      modifies keys
      ensures keys.Valid() && keys.owned == old(keys.owned)
      ensures old(keys.Contents()) == [] ==> key == None && keys.Contents() == []
      ensures old(keys.Contents()) != [] ==>
                key == Some(old(keys.Contents())[0]) && keys.Contents() == old(keys.Contents())[1..]
    {
      var empty := keys.IsEmpty();
      if empty {
        return None;
      }
      var value := keys.PopElement();
      return Some(value);
    }

    /** Hands the next queued key to the instruction that reads the keys. */
    method TakeKeyInPlace()
      requires memory.Length == MEM_SIZE && keys.Valid()
      modifies memory, keys
      ensures keys.Valid() && keys.owned == old(keys.owned)
      ensures var takes := cpu.pc == 0x9b84 && old(keys.Contents()) != [];
              && memory[..]
                 == old(memory[..])[KEYS := if takes then Low8(old(keys.Contents())[0]) else old(memory[KEYS])]
              && keys.Contents() == if takes then old(keys.Contents())[1..] else old(keys.Contents())
    {
      if cpu.pc == 0x9b84 {
        var key := PopKey();
        if key.Some? {
          memory[KEYS] := Low8(key.value);
        }
      }
    }

    method TakeKey()
      requires Valid()
      modifies memory, keys
      ensures Valid() && Value() == TakenKeys(old(Value()))
      ensures keys.owned == old(keys.owned)
    {
      ghost var s := Value();
      TakeKeyInPlace();
      assert cpu.registers[..] == s.cpu.er;
      assert serial.PeripheralsValue() == s.peripherals;
    }

    method GiveWatts(ghost inputs: seq<int>)
      requires BoardValid()
      modifies memory
      ensures BoardValid()
      ensures BoardValue(inputs) == old(BoardValue(inputs)).(cpu := GivenWatts(old(BoardValue(inputs)).cpu))
    {
      ghost var s := BoardValue(inputs);
      if cpu.pc == 0x79b8 {
        cpu.SetMemory16(WATTS, STARTING_WATTS);
      } else {
        Set16Same(memory[..], WATTS);
      }
      assert cpu.registers[..] == s.cpu.er;
      assert serial.PeripheralsValue() == s.peripherals;
    }

    method GiveWattsWithKeys()
      requires Valid()
      modifies memory
      ensures Valid() && Value() == old(Value()).(cpu := GivenWatts(old(Value()).cpu))
    {
      hide GivenWatts;
      GiveWatts(keys.Contents());
    }

    method PrepareOne()
      requires Valid()
      modifies memory, keys
      ensures Valid() && Value() == Prepare(old(Value()))
      ensures keys.owned == old(keys.owned)
      ensures cpu.flags == old(cpu.flags)
    {
      hide TakenKeys, GivenWatts, Valid, Value;
      TakeKey();
      GiveWattsWithKeys();
    }

    method CarryInPlace(ghost s: State, i: Insn, e: Effect) returns (ok: bool)
      requires cpu.Valid() && cpu.memory == memory
      requires serial.memory == memory && serial.Valid() && Admissible(e, cpu.flags)
      requires Ok(s) && s.cpu == cpu.Value() && s.peripherals == serial.PeripheralsValue() && s.latches.tlb == tlb
      modifies this`tlb, memory, cpu, cpu.registers, serial
      ensures if ok then serial.Valid() && Carried(s, i, e, cpu.Value(), tlb, serial.PeripheralsValue())
              else Carry(s, i, e).GaveUp?
    {
      ok := cpu.PerformOne(i, e);
      if ok {
        ghost var done := cpu.Value();
        assert serial.PeripheralsValue() == s.peripherals;
        tlb := ReloadValue(tlb, i);
        serial.ForgetDeselected();
        cpu.AdvanceOne();
        CarriedParts(s, i, e, done, serial.PeripheralsValue());
      }
    }

    method CarryOut(ghost inputs: seq<int>, i: Insn, e: Effect) returns (ending: Ending)
      requires BoardValid() && Admissible(e, cpu.flags)
      modifies this`tlb, memory, cpu, cpu.registers, serial
      ensures Ended(ending, BoardValue(inputs)) == Carry(old(BoardValue(inputs)), i, e)
      ensures ending.Goes? ==> BoardValid()
    {
      ghost var s := BoardValue(inputs);
      var ok := CarryInPlace(s, i, e);
      if !ok {
        return GivesUp;
      }
      assert BoardValue(inputs) == WithCarried(s, cpu.Value(), tlb, serial.PeripheralsValue());
      return Goes;
    }

    method FetchAndCarryOut(ghost inputs: seq<int>, e: Effect) returns (ending: Ending)
      requires BoardValid() && Admissible(e, cpu.flags)
      modifies this`tlb, memory, cpu, cpu.registers, serial
      ensures Ended(ending, BoardValue(inputs)) == CarryNext(old(BoardValue(inputs)), e)
      ensures ending.Goes? ==> BoardValid()
    {
      hide Carry;
      var i := cpu.Fetch();
      ending := CarryOut(inputs, i, e);
    }

    method CarryOutWithKeys(e: Effect) returns (ending: Ending)
      requires Valid() && Admissible(e, cpu.flags)
      modifies this`tlb, memory, cpu, cpu.registers, serial
      ensures Ended(ending, Value()) == CarryNext(old(Value()), e)
      ensures ending.Goes? ==> Valid()
    {
      hide CarryNext;
      ending := FetchAndCarryOut(keys.Contents(), e);
    }

    method RunAwake(e: Effect) returns (ending: Ending)
      requires Valid() && Admissible(e, cpu.flags)
      modifies this`tlb, memory, cpu, cpu.registers, serial, keys
      ensures Ended(ending, Value()) == CarryNext(Prepare(old(Value())), e)
      ensures ending.Goes? ==> Valid()
      ensures keys.owned == old(keys.owned)
    {
      hide CarryNext, Prepare, Valid;
      PrepareOne();
      ending := CarryOutWithKeys(e);
    }

    method RunInstruction(e: Effect) returns (ending: Ending)
      requires Valid() && Admissible(e, cpu.flags)
      modifies this`tlb, memory, cpu, cpu.registers, serial, keys
      ensures Ended(ending, Value()) == Instruct(old(Value()), e)
      ensures ending.Goes? ==> Valid()
      ensures keys.owned == old(keys.owned)
    {
      ending := Goes;
      if !cpu.sleep {
        ending := RunAwake(e);
      }
    }

    method ClockWithKeys() returns (ending: Ending)
      requires Valid()
      modifies this`cycles, this`bOn, this`wOn, this`sub, memory, cpu
      modifies this`serialTicks, serial, serial.eepromMemory, serial.accelMemory, serial.lcdMemory
      ensures Ended(ending, Value()) == TwoCycles(old(Value()))
      ensures ending.Goes? ==> Valid()
    {
      hide TwoCycles, Cycle;
      ending := RunTwoCycles(keys.Contents());
    }

    method DispatchAndClock() returns (ending: Ending)
      requires Valid()
      modifies this`cycles, this`bOn, this`wOn, this`sub, memory, cpu
      modifies this`serialTicks, serial, serial.eepromMemory, serial.accelMemory, serial.lcdMemory, keys, keys.owned
      ensures Ended(ending, Value()) == Finish(old(Value()))
      ensures ending.Goes? ==> Valid()
      ensures fresh(keys.owned - old(keys.owned))
    {
      hide TwoCycles, Dispatch, Valid, Value;
      DispatchInterrupts();
      ending := ClockWithKeys();
    }

    lemma ValidIsOk(e: Effect)
      requires Valid() && Admissible(e, cpu.flags)
      ensures Ok(Value()) && Admissible(e, Value().cpu.core.flags)
    {
    }

    method RunUnskipped(e: Effect) returns (ending: Ending)
      requires Valid() && Admissible(e, cpu.flags)
      modifies this`cycles, this`bOn, this`wOn, this`sub, this`tlb, memory, cpu, cpu.registers
      modifies this`serialTicks, serial, serial.eepromMemory, serial.accelMemory, serial.lcdMemory, keys, keys.owned
      ensures Ended(ending, Value()) == Proceed(old(Value()), e)
      ensures ending.Goes? ==> Valid()
      ensures fresh(keys.owned - old(keys.owned))
    {
      hide *;
      ghost var s := Value();
      ValidIsOk(e);
      ending := RunInstruction(e);
      ProceedInTurn(s, e, ending, Value());
      if ending.Goes? {
        ending := DispatchAndClock();
      }
    }

    /** One call of the emulator's step function; a skipped instruction takes no cycles. */
    method RunNextInstruction(e: Effect) returns (ending: Ending)
      requires Valid() && Admissible(e, cpu.flags)
      modifies this`cycles, this`bOn, this`wOn, this`sub, this`tlb, memory, cpu, cpu.registers
      modifies this`serialTicks, serial, serial.eepromMemory, serial.accelMemory, serial.lcdMemory, keys, keys.owned
      ensures Ended(ending, Value()) == Turn(old(Value()), e)
      ensures ending.Goes? ==> Valid()
      ensures fresh(keys.owned - old(keys.owned))
    {
      if !cpu.sleep && (cpu.pc == 0x336 || cpu.pc == 0x350 || cpu.pc == 0x7700) {
        SkipOne(keys.Contents());
        return Goes;
      }
      ending := RunUnskipped(e);
    }

    // -------------------------------------------------------------- what the host calls between steps

    method RequestEnter(ghost inputs: seq<int>)
      requires BoardValid()
      modifies memory
      ensures BoardValid() && BoardValue(inputs) == Runs.Requested(old(BoardValue(inputs)))
    {
      ghost var s := BoardValue(inputs);
      memory[IRR1] := Raise(memory[IRR1], 0x01);
      assert cpu.registers[..] == s.cpu.er;
      assert memory[..] == Runs.Requested(s).cpu.mem;
    }

    method WakeUp(ghost inputs: seq<int>)
      requires BoardValid()
      modifies cpu`sleep
      ensures BoardValid() && BoardValue(inputs) == Runs.Awake(old(BoardValue(inputs)))
    {
      cpu.sleep := false;
    }

    method AppendKey(input: u8)
      requires Valid()
      modifies keys, keys.owned
      ensures Valid() && Value() == Runs.WithKey(old(Value()), input)
      ensures fresh(keys.owned - old(keys.owned))
    {
      ghost var s := Value();
      QueueKey(input);
      assert BoardValid() && BoardValue(s.inputs) == s;
    }

    method QueuePress(input: u8)
      requires Valid()
      modifies cpu`sleep, keys, keys.owned
      ensures Valid() && Value() == Runs.Queued(old(Value()), input)
      ensures fresh(keys.owned - old(keys.owned))
    {
      hide Runs.WithKey;
      AppendKey(input);
      WakeUp(keys.Contents());
    }

    /** A key press: the center key requests an interrupt unless masked, any other key is queued. */
    method SetKeys(input: u8)
      requires Valid()
      modifies memory, cpu`sleep, keys, keys.owned
      ensures Valid() && Value() == Runs.PressKey(old(Value()), input)
      ensures fresh(keys.owned - old(keys.owned))
    {
      if !cpu.flags.I && Has(input, 0x01) {
        RequestEnter(keys.Contents());
      } else {
        QueuePress(input);
      }
    }

    method RaiseQuarters()
      requires memory.Length == MEM_SIZE
      modifies this`quarters, memory
      ensures quarters == Low8(old(quarters) as int + 1)
      ensures memory[..] == old(memory[..])[RTCFLG :=
                RaiseIf(RaiseIf(Raise(old(memory[RTCFLG]), 0x01), 0x02, quarters % 2 == 0), 0x04, quarters % 4 == 0)]
    {
      memory[RTCFLG] := Raise(memory[RTCFLG], 0x01);
      quarters := Low8(quarters as int + 1);
      if quarters % 2 == 0 {
        memory[RTCFLG] := Raise(memory[RTCFLG], 0x02);
      }
      if quarters % 4 == 0 {
        memory[RTCFLG] := Raise(memory[RTCFLG], 0x04);
      }
    }

    /** A quarter second passed; every second one is a half second and every fourth a whole one. */
    method QuarterRtcInterrupt()
      requires Valid()
      modifies this`quarters, memory
      ensures Valid() && quarters == Low8(old(quarters) as int + 1)
      ensures Value() == Runs.RequestQuarter(old(Value()), quarters % 2 == 0, quarters % 4 == 0)
    {
      ghost var s := Value();
      RaiseQuarters();
      assert cpu.registers[..] == s.cpu.er;
      assert serial.PeripheralsValue() == s.peripherals;
      assert keys.Contents() == s.inputs;
    }

    method FillVideoBuffer(video: array<int>)
      requires Valid() && video.Length == Ssu.LCD_WIDTH * Ssu.LCD_HEIGHT
      modifies video, serial`secondBuffer
      ensures Valid() && Value() == Runs.Refresh(old(Value()))
      ensures video[..] == LcdProtocol.Frame(old(Value()).peripherals.lcd)
    {
      ghost var s := Value();
      serial.FillVideoBuffer(video);
      assert cpu.Value() == s.cpu;
      assert keys.Contents() == s.inputs;
    }

    /** The host has seen a quarter second pass: it takes it off the counter and shows the next frame. */
    method ShowQuarter(video: array<int>)
      requires Valid() && cycles >= Runs.QUARTER && video.Length == Ssu.LCD_WIDTH * Ssu.LCD_HEIGHT
      modifies this`cycles, this`quarters, memory, video, serial`secondBuffer
      ensures Valid() && quarters == Low8(old(quarters) as int + 1)
      ensures Value() == Runs.Refresh(Runs.PassQuarter(old(Value()), quarters % 2 == 0, quarters % 4 == 0))
      ensures video[..] == LcdProtocol.Frame(old(Value()).peripherals.lcd)
    {
      TakeOffQuarter();
      assert quarters == old(quarters);
      QuarterRtcInterrupt();
      ghost var counted := quarters;
      FillVideoBuffer(video);
      assert quarters == counted;
    }

    method TakeOffQuarter()
      requires Valid() && cycles >= Runs.QUARTER
      modifies this`cycles
      ensures Valid() && Value() == Runs.WithoutQuarter(old(Value()))
    {
      cycles := cycles - Runs.QUARTER;
    }

    /** The host looks whether a quarter second has passed. */
    method ShowWhenDue(video: array<int>)
      requires Valid() && video.Length == Ssu.LCD_WIDTH * Ssu.LCD_HEIGHT
      modifies this`cycles, this`quarters, memory, video, serial`secondBuffer
      ensures Valid() && Shown(old(Value()), Value(), quarters, old(video[..]), video[..])
    {
      if cycles >= Runs.QUARTER {
        ShowQuarter(video);
      }
    }

    /** One turn of the host's loop: a step of the machine, and a quarter second as soon as it has passed. */
    method HostTurn(e: Effect, video: array<int>) returns (ending: Ending, ghost stepped: State)
      requires Valid() && Admissible(e, cpu.flags) && video.Length == Ssu.LCD_WIDTH * Ssu.LCD_HEIGHT
      modifies this`cycles, this`bOn, this`wOn, this`sub, this`tlb, this`quarters, memory, cpu, cpu.registers
      modifies this`serialTicks, serial, serial.eepromMemory, serial.accelMemory, serial.lcdMemory
      modifies keys, keys.owned, video
      ensures Ended(ending, stepped) == Turn(old(Value()), e)
      ensures ending.Goes? ==>
                Valid() && Shown(stepped, Value(), quarters, old(video[..]), video[..])
      ensures fresh(keys.owned - old(keys.owned))
    {
      hide *;
      ending := RunNextInstruction(e);
      stepped := Value();
      if ending.Goes? {
        ShowWhenDue(video);
      }
    }

    /** The keys that arrived since the last turn; the turns so far are a run from `s`. */
    method PressAll(inputs: seq<u8>, ghost s: State, ghost before: seq<State>, ghost done: seq<Runs.Action>)
      returns (ghost states: seq<State>, ghost actions: seq<Runs.Action>)
      requires Valid() && Runs.Leads(s, before, done, Value())
      modifies memory, cpu`sleep, keys, keys.owned
      ensures Valid() && Runs.Leads(s, states, actions, Value()) && fresh(keys.owned - old(keys.owned))
    {
      hide *;
      states, actions := before, done;
      for i := 0 to |inputs|
        invariant Valid() && Runs.Leads(s, states, actions, Value()) && fresh(keys.owned - old(keys.owned))
      {
        Runs.PressLeads(s, states, actions, Value(), inputs[i]);
        SetKeys(inputs[i]);
        states, actions := states + [Value()], actions + [Runs.Press(inputs[i])];
      }
    }

    /** A turn behind a run that begins in `s`. */
    method TurnOn(e: Effect, video: array<int>,
                  ghost s: State, ghost before: seq<State>, ghost done: seq<Runs.Action>)
      returns (ending: Ending, ghost states: seq<State>, ghost actions: seq<Runs.Action>)
      requires Valid() && Runs.Leads(s, before, done, Value())
      requires Admissible(e, cpu.flags) && video.Length == Ssu.LCD_WIDTH * Ssu.LCD_HEIGHT
      modifies this`cycles, this`bOn, this`wOn, this`sub, this`tlb, this`quarters, memory, cpu, cpu.registers
      modifies this`serialTicks, serial, serial.eepromMemory, serial.accelMemory, serial.lcdMemory
      modifies keys, keys.owned, video
      ensures ending.Goes? ==> Valid() && Runs.Leads(s, states, actions, Value())
      ensures fresh(keys.owned - old(keys.owned))
    {
      hide Turn, Runs.Leads, Runs.Looked;
      ghost var t := Value();
      ghost var stepped;
      states, actions := before, done;
      ending, stepped := HostTurn(e, video);
      if ending.Goes? {
        states, actions := Runs.TurnLeads(s, states, actions, t, e, stepped, quarters % 2 == 0, quarters % 4 == 0);
      }
    }

    method LoopOn(turns: nat, presses: nat -> seq<u8>, effects: (nat, bool) -> Effect, video: array<int>,
                  ghost s: State)
      returns (ending: Ending, ghost states: seq<State>, ghost actions: seq<Runs.Action>)
      requires Valid() && Runs.Leads(s, [s], [], Value()) && Suits(effects)
      requires video.Length == Ssu.LCD_WIDTH * Ssu.LCD_HEIGHT
      modifies this`cycles, this`bOn, this`wOn, this`sub, this`tlb, this`quarters, memory, cpu, cpu.registers
      modifies this`serialTicks, serial, serial.eepromMemory, serial.accelMemory, serial.lcdMemory
      modifies keys, keys.owned, video
      ensures ending.Goes? ==> Valid() && Runs.Leads(s, states, actions, Value())
    {
      hide *;
      states, actions := [s], [];
      ending := Goes;
      for k := 0 to turns
        invariant ending.Goes? && Valid() && Runs.Leads(s, states, actions, Value())
        invariant fresh(keys.owned - old(keys.owned))
      {
        states, actions := PressAll(presses(k), s, states, actions);
        var e := effects(k, cpu.flags.I);
        EffectSuits(effects, k, cpu.flags);
        ending, states, actions := TurnOn(e, video, s, states, actions);
        if !ending.Goes? {
          return;
        }
      }
    }

    /** The host's loop, for `turns` turns or until the machine gives up: a prompt run, so the clocks keep pace. */
    method HostLoop(turns: nat, presses: nat -> seq<u8>, effects: (nat, bool) -> Effect, video: array<int>)
      returns (ending: Ending, ghost states: seq<State>, ghost actions: seq<Runs.Action>)
      requires Valid() && cycles < Runs.QUARTER && Suits(effects)
      requires video.Length == Ssu.LCD_WIDTH * Ssu.LCD_HEIGHT
      modifies this`cycles, this`bOn, this`wOn, this`sub, this`tlb, this`quarters, memory, cpu, cpu.registers
      modifies this`serialTicks, serial, serial.eepromMemory, serial.accelMemory, serial.lcdMemory
      modifies keys, keys.owned, video
      ensures ending.Goes? ==> Valid() && Runs.Leads(old(Value()), states, actions, Value())
      ensures ending.Goes? && old(cycles == 0 && sub == 0 && serialTicks == 0) ==>
                && |states| == |actions| + 1
                && var calls := Runs.TimedCalls(states, actions, |actions|);
                   && sub == 8228 * (calls / 460800) + calls % 460800 / 56
                   && serialTicks == calls / 2
    {
      ghost var s := Value();
      Runs.NothingLeads(s);
      ending, states, actions := LoopOn(turns, presses, effects, video, s);
      if ending.Goes? && old(cycles == 0 && sub == 0 && serialTicks == 0) {
        Runs.LoopKeepsPace(s, states, actions, Value());
      }
    }
  }
}
