/** The processor as the emulator keeps it: registers, flags and memory updated in place. */
module Processor {
  import opened Words
  import opened H8

  class Unit {
    const memory: array<u8>
    const registers: array<u32>
    var pc: u16
    var flags: Flags
    var savedPc: u16
    var savedFlags: Flags
    var sleep: bool

    ghost predicate Valid() {
      memory.Length == MEM_SIZE && registers.Length == 8
    }

    ghost function CoreValue(): Core
      reads this
    {
      Core(pc, flags, savedPc, savedFlags, sleep)
    }

    ghost function Value(): Cpu
      reads this, memory, registers
    {
      Cpu(CoreValue(), registers[..], memory[..])
    }

    constructor (memory: array<u8>, entry: u16)
      requires memory.Length == MEM_SIZE
      ensures Valid() && this.memory == memory && fresh(registers)
      ensures CoreValue() == Core(entry, CLEAR, 0, CLEAR, false)
      ensures registers[..] == seq(8, _ => 0)
    {
      this.memory := memory;
      registers := new u32[8](_ => 0);
      pc, flags, savedPc, savedFlags, sleep := entry, CLEAR, 0, CLEAR, false;
      new;
      assert registers[..] == seq(8, _ => 0);
    }

    /** Back to the entry point with all registers zero. */
    method Restart(entry: u16)
      requires Valid()
      modifies this, registers
      ensures CoreValue() == Core(entry, CLEAR, 0, CLEAR, false) && registers[..] == seq(8, _ => 0)
    {
      for i := 0 to 8
        invariant forall k :: 0 <= k < i ==> registers[k] == 0
      {
        registers[i] := 0;
      }
      pc, flags, savedPc, savedFlags, sleep := entry, CLEAR, 0, CLEAR, false;
    }

    method GetMemory16(address: int) returns (value: u16)
      requires Valid()
      ensures value == Get16(memory[..], address)
    {
      var a := Low16(address);
      value := Word(memory[a], memory[Nth(a, 1)]);
    }

    method SetMemory16(address: int, value: u16)
      requires Valid()
      modifies memory
      ensures memory[..] == Set16(old(memory[..]), address, value)
    {
      var a := Low16(address);
      memory[a] := value / 0x100;
      memory[Nth(a, 1)] := value % 0x100;
    }

    method SetFlagsSub(value1: u32, value2: u32, w: Width)
      modifies this`flags
      ensures flags == FlagsSub(old(flags), value1, value2, w)
    {
      var diff := Low32(value1 - value2);
      var n := Negative(diff, w);
      var z := diff == 0;
      var v := Negative(value1, w) != Negative(value2, w) && Negative(diff, w) == Negative(value2, w);
      var c := value2 > value1;
      var h := value2 % LowPart(w) > value1 % LowPart(w);
      flags := Flags(flags.I, flags.UI, h, flags.U, n, z, v, c);
    }

    /** Takes an interrupt. */
    method EnterInterrupt(vector: u16)
      modifies this
      ensures CoreValue() == Enter(old(CoreValue()), vector)
    {
      savedPc := pc;
      savedFlags := flags;
      flags := flags.(I := true);
      pc := vector;
      sleep := false;
    }

    method PushReturnAddress(address: int)
      requires Valid()
      modifies memory, registers
      ensures Value() == PushReturn(old(Value()), address)
    {
      registers[7] := Moved(registers[7], -2);
      SetMemory16(registers[7], Low16(address));
    }

    method ReturnFromSubroutine()
      requires Valid()
      modifies this`pc, registers
      ensures Value() == Goto(old(Value()), Get16(old(memory[..]), old(registers[7])) - 2).(
                           er := old(registers[..])[7 := Moved(old(registers[7]), 2)])
    {
      var target := GetMemory16(registers[7]);
      pc := Low16(target as int - 2);
      registers[7] := Moved(registers[7], 2);
    }

    method LoadByteRegister(address: int, register: nat)
      requires Valid() && register < 16
      modifies this`pc, this`flags, memory, registers
      ensures var value := Get8(old(memory[..]), address);
              Value() == Cpu(old(CoreValue()).(pc := Low16(old(pc) + 2), flags := FlagsMove(old(flags), value)),
                             SetReg8(old(registers[..]), register, value), AfterLoad(old(memory[..]), address))
    {
      var value := memory[Low16(address)];
      flags := FlagsMove(flags, value);
      registers[register % 8] := SetReg8(registers[..], register, value)[register % 8];
      memory[SSSR] := if Low16(address) == SSRDR then Lower(memory[SSSR], 0x02) else memory[SSSR];
      pc := Low16(pc + 2);
    }

    method StoreByteRegister(address: int, value: u8)
      requires Valid()
      modifies this`pc, this`flags, memory
      ensures Value() == Cpu(old(CoreValue()).(pc := Low16(old(pc) + 2), flags := FlagsMove(old(flags), value)),
                             old(registers[..]), AfterStore(old(memory[..]), address, value))
    {
      flags := FlagsMove(flags, value);
      memory[Low16(address)] := value;
      if Low16(address) == SSTDR {
        memory[SSSR] := Lower(memory[SSSR], 0x04);
        memory[SSSR] := Lower(memory[SSSR], 0x08);
      }
      assert memory[..] == AfterStore(old(memory[..]), address, value);
      pc := Low16(pc + 2);
    }

    /** A 16-bit branch has its displacement in a second word, which BRN does not skip. */
    method Branch(cc: Nibble, disp: int)
      modifies this`pc
      ensures pc == if cc == 1 then old(pc) else Low16(if Taken(cc, flags) then old(pc) + 2 + disp else old(pc) + 2)
    {
      if cc == 1 {
        return;
      }
      if Taken(cc, flags) {
        pc := Low16(pc + 2 + disp);
      } else {
        pc := Low16(pc + 2);
      }
    }

    method Call(returnAddress: int, target: int)
      requires Valid()
      modifies this`pc, memory, registers
      ensures Value() == Goto(PushReturn(old(Value()), returnAddress), target)
    {
      PushReturnAddress(returnAddress);
      pc := Low16(target);
    }

    method Compare(value1: u32, value2: u32, w: Width, length: int)
      modifies this`pc, this`flags
      ensures pc == Low16(old(pc) + length - 2) && flags == FlagsSub(old(flags), value1, value2, w)
    {
      SetFlagsSub(value1, value2, w);
      pc := Low16(pc + length - 2);
    }

    /** Replaces everything that an instruction outside this model may change. */
    method Undergo(e: Effect)
      requires Valid() && Admissible(e, flags)
      modifies this`pc, this`flags, memory, registers
      ensures Value() == Cpu(old(CoreValue()).(pc := e.pc, flags := e.flags), e.er, e.mem)
    {
      forall i | 0 <= i < 8 {
        registers[i] := e.er[i];
      }
      forall i | 0 <= i < MEM_SIZE {
        memory[i] := e.mem[i];
      }
      pc, flags := e.pc, e.flags;
      assert registers[..] == e.er && memory[..] == e.mem;
    }

    method BranchOrJump(i: Insn, ghost e: Effect)
      requires Valid() && Admissible(e, flags)
      requires i.BranchByte? || i.BranchWord? || i.JumpRegister? || i.JumpAbsolute?
      modifies this`pc
      ensures Perform(old(Value()), i, e) == Some(Value())
    {
      match i {
        case BranchByte(cc, disp) =>
          if Taken(cc, flags) {
            pc := Low16(pc + disp);
          }
        case BranchWord(cc, disp) =>
          Branch(cc, disp);
        case JumpRegister(n) =>
          pc := Low16(Low16(registers[n]) as int - 2);
        case JumpAbsolute(address) =>
          pc := Low16(address - 2);
      }
    }

    method CallSubroutine(i: Insn, ghost e: Effect)
      requires Valid() && Admissible(e, flags)
      requires i.CallRelative? || i.CallRegister? || i.CallAbsolute?
      modifies this`pc, memory, registers
      ensures Perform(old(Value()), i, e) == Some(Value())
    {
      match i {
        case CallRelative(disp, length) =>
          Call(pc + length, pc + length - 2 + disp);
        case CallRegister(n) =>
          PushReturnAddress(pc + 2);
          pc := Low16(Low16(registers[n]) as int - 2);
        case CallAbsolute(address) =>
          Call(pc + 4, address - 2);
      }
    }

    method ReturnFromInterrupt()
      requires Valid()
      modifies this`pc, this`flags
      ensures Value() == old(Value()).(core := old(CoreValue()).(pc := Low16(savedPc - 2), flags := savedFlags))
    {
      pc := Low16(savedPc as int - 2);
      flags := savedFlags;
    }

    method Return(i: Insn, ghost e: Effect)
      requires Valid() && Admissible(e, flags)
      requires i.ReturnSub? || i.ReturnInterrupt?
      modifies this`pc, this`flags, registers
      ensures Perform(old(Value()), i, e) == Some(Value())
    {
      if i.ReturnSub? {
        ReturnFromSubroutine();
      } else {
        ReturnFromInterrupt();
      }
    }

    /** Branches, jumps, calls and returns. */
    method Transfer(i: Insn, ghost e: Effect)
      requires Valid() && Admissible(e, flags)
      requires i.BranchByte? || i.BranchWord? || i.CallRelative? || i.CallRegister? || i.CallAbsolute?
            || i.JumpRegister? || i.JumpAbsolute? || i.ReturnSub? || i.ReturnInterrupt?
      modifies this, memory, registers
      ensures Perform(old(Value()), i, e) == Some(Value())
    {
      hide Perform, Value;
      if i.CallRelative? || i.CallRegister? || i.CallAbsolute? {
        CallSubroutine(i, e);
      } else if i.ReturnSub? || i.ReturnInterrupt? {
        Return(i, e);
      } else {
        BranchOrJump(i, e);
      }
    }

    /** Carries out a decoded instruction; false when the emulator gives up. */
    method PerformOne(i: Insn, e: Effect) returns (ok: bool)
      requires Valid() && Admissible(e, flags)
      modifies this, memory, registers
      ensures ok == Perform(old(Value()), i, e).Some?
      ensures ok ==> Value() == Perform(old(Value()), i, e).value
    {
      match i {
        case Nop =>
        case SleepInsn =>
          sleep := true;
        case LoadCcr(value) =>
          flags := FlagsLoad(value);
        case Compare(w, value1, value2, length) =>
          Compare(value1, value2, w, length);
        case LoadByte(address, register) =>
          LoadByteRegister(address, register);
        case StoreByte(address, value) =>
          StoreByteRegister(address, value);
        case Stops =>
          return false;
        case Unmodelled =>
          if e.stops {
            return false;
          }
          Undergo(e);
        case _ =>
          Transfer(i, e);
      }
      return true;
    }

    method AdvanceOne()
      requires Valid()
      modifies this`pc
      ensures Value() == Advance(old(Value()))
    {
      pc := Low16(pc as int + 2);
    }

    /** Reads the three words at the program counter and tells which instruction they are. */
    method Fetch() returns (i: Insn)
      requires Valid()
      ensures i == Decode(Value())
    {
      var ab := GetMemory16(pc);
      var cd := GetMemory16(pc + 2);
      var ef := GetMemory16(pc + 4);
      ghost var c := Value();
      assert c.er == registers[..] && c.mem == memory[..] && c.core.pc == pc;
      i := DecodeWords(registers[..], ab, cd, ef);
      assert i == DecodeWords(c.er, Get16(c.mem, c.core.pc), Get16(c.mem, c.core.pc + 2), Get16(c.mem, c.core.pc + 4));
    }
  }
}
