/**
 What the bytes of a program do: for every instruction of the model, from the bytes at the program counter, the contents
 of the registers and memory, in numbers.
 */
module Encoding {
  import opened Words
  import opened H8
  import CallStack
  import Compare

  /** The program has these bytes at the program counter, across the wrap of addresses. */
  ghost predicate At(c: Cpu, bytes: seq<u8>)
    requires Sized(c)
  {
    forall i: nat :: i < |bytes| ==> ByteAt(c, i) == bytes[i]
  }

  function ByteAt(c: Cpu, i: nat): u8
    requires Sized(c)
  {
    c.mem[(c.core.pc + i as int) % 0x1_0000]
  }

  /** The byte register R0H to R7H or R0L to R7L. */
  function ByteRegister(er: seq<u32>, n: Nibble): u8
    requires |er| == 8
  {
    if n < 8 then er[n] / 0x100 % 0x100 else er[n - 8] % 0x100
  }

  /** The word register R0 to R7 or E0 to E7. */
  function WordRegister(er: seq<u32>, n: Nibble): u16
    requires |er| == 8
  {
    if n < 8 then er[n] % 0x1_0000 else er[n - 8] / 0x1_0000
  }

  function Displacement8(d: u8): int { if d < 0x80 then d else d - 0x100 }

  function Displacement16(d: u16): int { if d < 0x8000 then d else d - 0x1_0000 }

  // ---------------------------------------------------------------- fetching

  lemma BytesFetched(c: Cpu, k: nat)
    requires Sized(c) && k < 5
    ensures Get16(c.mem, c.core.pc + k) == ByteAt(c, k) as int * 0x100 + ByteAt(c, k + 1) as int
  {
  }

  lemma Halves(high: u8, low: u8)
    ensures (high as int * 0x100 + low as int) / 0x100 == high && (high as int * 0x100 + low as int) % 0x100 == low
  {
  }

  lemma Nibbles(high: Nibble, low: Nibble)
    ensures (high as int * 0x10 + low as int) / 0x10 == high && (high as int * 0x10 + low as int) % 0x10 == low
  {
  }

  lemma Fetched(c: Cpu)
    requires Sized(c)
    ensures Decode(c) == DecodeBytes(c.er, ByteAt(c, 0), ByteAt(c, 1), Get16(c.mem, c.core.pc + 2),
                                     Get16(c.mem, c.core.pc + 4))
    ensures Get16(c.mem, c.core.pc + 2) == ByteAt(c, 2) as int * 0x100 + ByteAt(c, 3) as int
    ensures Get16(c.mem, c.core.pc + 4) == ByteAt(c, 4) as int * 0x100 + ByteAt(c, 5) as int
  {
    hide DecodeBytes;
    BytesFetched(c, 0);
    BytesFetched(c, 2);
    BytesFetched(c, 4);
    Halves(ByteAt(c, 0), ByteAt(c, 1));
  }

  /** The first bytes of an instruction, and its second word if it has one. */
  lemma Opcode(c: Cpu, bytes: seq<u8>)
    requires Sized(c) && At(c, bytes) && |bytes| >= 2
    ensures Decode(c) == DecodeBytes(c.er, bytes[0], bytes[1], Get16(c.mem, c.core.pc + 2),
                                     Get16(c.mem, c.core.pc + 4))
    ensures |bytes| >= 4 ==> Get16(c.mem, c.core.pc + 2) == bytes[2] as int * 0x100 + bytes[3] as int
    ensures |bytes| >= 6 ==> Get16(c.mem, c.core.pc + 4) == bytes[4] as int * 0x100 + bytes[5] as int
  {
    hide DecodeBytes, Decode, Get16;
    Fetched(c);
    assert ByteAt(c, 0) == bytes[0] && ByteAt(c, 1) == bytes[1];
    if |bytes| >= 4 {
      assert ByteAt(c, 2) == bytes[2] && ByteAt(c, 3) == bytes[3];
    }
    if |bytes| >= 6 {
      assert ByteAt(c, 4) == bytes[4] && ByteAt(c, 5) == bytes[5];
    }
  }

  // ---------------------------------------------------------------- compares and branches

  /** The compares; the first operand is what is subtracted, the second, `d`, what it is subtracted from. */
  datatype Comparison =
    | ByteRegisters(s: Nibble, d: Nibble)              // CMP.B Rs, Rd
    | WordRegisters(s: Nibble, d: Nibble)              // CMP.W Rs, Rd
    | LongRegisters(n: RegisterNumber, d: Nibble)      // CMP.L ERn, ERd
    | ByteImmediate(b: u8, d: Nibble)                  // CMP.B #b, Rd
    | WordImmediate(w: u16, d: Nibble)                 // CMP.W #w, Rd
    | LongImmediate(l: u32, d: Nibble)                 // CMP.L #l, ERd

  function Code(x: Comparison): seq<u8> {
    match x
    case ByteRegisters(s, d) => [0x1C, s * 0x10 + d as int]
    case WordRegisters(s, d) => [0x1D, s * 0x10 + d as int]
    case LongRegisters(n, d) => [0x1F, (8 + n as int) * 0x10 + d as int]
    case ByteImmediate(b, d) => [0xA0 + d as int, b]
    case WordImmediate(w, d) => [0x79, 0x20 + d as int, w / 0x100, w % 0x100]
    case LongImmediate(l, d) =>
      [0x7A, 0x20 + d as int, l / 0x100_0000, l / 0x1_0000 % 0x100, l / 0x100 % 0x100, l % 0x100]
  }

  function WidthOf(x: Comparison): Width {
    match x
    case ByteRegisters(_, _) => Byte
    case ByteImmediate(_, _) => Byte
    case WordRegisters(_, _) => Half
    case WordImmediate(_, _) => Half
    case _ => Full
  }

  /** The operand that branches call the first: the destination. */
  function Destination(x: Comparison, er: seq<u32>): u32
    requires |er| == 8
  {
    match WidthOf(x)
    case Byte => ByteRegister(er, x.d)
    case Half => WordRegister(er, x.d)
    case Full => er[x.d % 8]
  }

  function Source(x: Comparison, er: seq<u32>): u32
    requires |er| == 8
  {
    match x
    case ByteRegisters(s, _) => ByteRegister(er, s)
    case WordRegisters(s, _) => WordRegister(er, s)
    case LongRegisters(n, _) => er[n]
    case ByteImmediate(b, _) => b
    case WordImmediate(w, _) => w
    case LongImmediate(l, _) => l
  }

  lemma RegisterCompareDecodes(c: Cpu, x: Comparison)
    requires Sized(c) && At(c, Code(x)) && (x.ByteRegisters? || x.WordRegisters? || x.LongRegisters?)
    ensures Decode(c) == H8.Compare(WidthOf(x), Destination(x, c.er), Source(x, c.er), |Code(x)|)
  {
    hide At, Decode;
    Opcode(c, Code(x));
    Nibbles(if x.LongRegisters? then 8 + x.n as int else x.s, x.d);
  }

  lemma LongOfWords(l: u32)
    ensures Long(l / 0x100_0000 * 0x100 + l / 0x1_0000 % 0x100, l / 0x100 % 0x100 * 0x100 + l % 0x100) == l
  {
    LongOfBytes(l);
  }

  lemma ImmediateCompareDecodes(c: Cpu, x: Comparison)
    requires Sized(c) && At(c, Code(x)) && (x.ByteImmediate? || x.WordImmediate? || x.LongImmediate?)
    ensures Decode(c) == H8.Compare(WidthOf(x), Destination(x, c.er), Source(x, c.er), |Code(x)|)
  {
    hide At, Decode, Get16;
    Opcode(c, Code(x));
    Nibbles(if x.ByteImmediate? then 0xA else 2, x.d);
    if x.LongImmediate? {
      LongOfWords(x.l);
    }
  }

  /** Conditional branches with an 8-bit and with a 16-bit displacement; four bits of the latter are not looked at. */
  datatype Branch = Short(cc: Nibble, d: u8) | Wide(cc: Nibble, unused: Nibble, w: u16)

  function BranchCode(b: Branch): seq<u8> {
    match b
    case Short(cc, d) => [0x40 + cc as int, d]
    case Wide(cc, unused, w) => [0x58, cc * 0x10 + unused as int, w / 0x100, w % 0x100]
  }

  function BranchDisplacement(b: Branch): int { if b.Short? then Displacement8(b.d) else Displacement16(b.w) }

  lemma BranchDecodes(c: Cpu, b: Branch)
    requires Sized(c) && At(c, BranchCode(b)) && b.cc != 1
    ensures Decode(c) == if b.Short? then BranchByte(b.cc, BranchDisplacement(b))
                         else BranchWord(b.cc, BranchDisplacement(b))
  {
    hide At, Decode, Get16;
    Opcode(c, BranchCode(b));
    Nibbles(if b.Short? then 4 else b.cc, if b.Short? then b.cc else b.unused);
  }

  /** Behind the first part of the bytes come the others. */
  lemma AtNext(c: Cpu, first: seq<u8>, second: seq<u8>, next: Cpu)
    requires Sized(c) && At(c, first + second)
    requires Sized(next) && next.mem == c.mem && next.core.pc == Low16(c.core.pc + |first|)
    ensures At(c, first) && At(next, second)
  {
    forall i: nat | i < |first|
      ensures ByteAt(c, i) == first[i]
    {
      assert ByteAt(c, i) == (first + second)[i];
    }
    forall i: nat | i < |second|
      ensures ByteAt(next, i) == second[i]
    {
      assert ByteAt(c, |first| + i) == (first + second)[|first| + i];
      WrapOnce(c.core.pc + |first|, i);
    }
  }

  /**
   A compare and the branch behind it, in any of their forms and with any condition: two steps reach the target if the
   destination, compared with the source, is in the relation that the branch is named after, and the instruction behind
   the branch if it is not. Nothing but the program counter and the flags changes, and the mask is kept.
   */
  lemma CompareAndBranch(c: Cpu, e: Effect, e': Effect, x: Comparison, b: Branch)
    requires Sized(c) && At(c, Code(x) + BranchCode(b)) && b.cc != 1
    requires Admissible(e, c.core.flags) && Admissible(e', c.core.flags)
    ensures Step(c, e).Some? && Admissible(e', Step(c, e).value.core.flags) && Step(Step(c, e).value, e').Some?
    ensures var t := Step(Step(c, e).value, e').value;
            var holds := Compare.Relation(b.cc, Destination(x, c.er), Source(x, c.er), WidthOf(x));
            && t == c.(core := c.core.(pc := t.core.pc, flags := t.core.flags)) && t.core.flags.I == c.core.flags.I
            && t.core.pc == (c.core.pc + |Code(x)| + |BranchCode(b)| + if holds then BranchDisplacement(b) else 0)
                            % 0x1_0000
  {
    hide DecodeBytes, Taken, FlagsSub, Compare.Relation, Step;
    var after := c.(core := c.core.(pc := Low16(c.core.pc + |Code(x)|)));
    AtNext(c, Code(x), BranchCode(b), after);
    CompareDecodes(c, x);
    Compare.CompareThenBranch(c, e, e');
    Compare.CompareStep(c, e);
    AtNext(c, Code(x), BranchCode(b), Step(c, e).value);
    BranchDecodes(Step(c, e).value, b);
  }

  lemma CompareDecodes(c: Cpu, x: Comparison)
    requires Sized(c) && At(c, Code(x))
    ensures Decode(c) == H8.Compare(WidthOf(x), Destination(x, c.er), Source(x, c.er), |Code(x)|)
  {
    if x.ByteRegisters? || x.WordRegisters? || x.LongRegisters? {
      RegisterCompareDecodes(c, x);
    } else {
      ImmediateCompareDecodes(c, x);
    }
  }

  lemma BranchNeverDecodes(c: Cpu, b: Branch)
    requires Sized(c) && At(c, BranchCode(b)) && b.cc == 1
    ensures if b.Short? then Decode(c) == Stops else Decode(c).BranchWord? && Decode(c).cc == 1
  {
    hide At, Decode, Get16;
    Opcode(c, BranchCode(b));
    Nibbles(if b.Short? then 4 else 1, if b.Short? then 1 else b.unused);
  }

  /** BRN: the short form stops the emulator, the wide one goes on inside its own displacement. */
  lemma BranchNever(c: Cpu, e: Effect, b: Branch)
    requires Sized(c) && At(c, BranchCode(b)) && b.cc == 1 && Admissible(e, c.core.flags)
    ensures Step(c, e) == if b.Short? then None else Some(c.(core := c.core.(pc := (c.core.pc + 2) % 0x1_0000)))
  {
    hide At, Decode;
    BranchNeverDecodes(c, b);
  }

  // ---------------------------------------------------------------- calls, jumps and returns

  /** The transfers; bits that are not looked at are `unused`. */
  datatype Transfer =
    | BsrShort(d: u8)                             // BSR d:8
    | BsrWide(unused: u8, w: u16)                 // BSR d:16
    | JsrRegister(n: RegisterNumber, low: Nibble) // JSR @ERn
    | JsrAddress(high: u8, w: u16)                // JSR @aa:24, of which the emulator keeps 16 bits
    | JmpRegister(n: RegisterNumber, low: Nibble) // JMP @ERn
    | JmpAddress(high: u8, w: u16)                // JMP @aa:24
    | Rts(unused: u8)
    | Rte(unused: u8)

  function TransferCode(x: Transfer): seq<u8> {
    match x
    case BsrShort(d) => [0x55, d]
    case BsrWide(unused, w) => [0x5C, unused, w / 0x100, w % 0x100]
    case JsrRegister(n, low) => [0x5D, n * 0x10 + low as int]
    case JsrAddress(high, w) => [0x5E, high, w / 0x100, w % 0x100]
    case JmpRegister(n, low) => [0x59, n * 0x10 + low as int]
    case JmpAddress(high, w) => [0x5A, high, w / 0x100, w % 0x100]
    case Rts(unused) => [0x54, unused]
    case Rte(unused) => [0x56, unused]
  }

  predicate Calls(x: Transfer) { x.BsrShort? || x.BsrWide? || x.JsrRegister? || x.JsrAddress? }

  /** Where a transfer goes; a call through ER7 finds it lowered. */
  function Goal(x: Transfer, c: Cpu): int
    requires Sized(c)
  {
    match x
    case BsrShort(d) => c.core.pc as int + 2 + Displacement8(d)
    case BsrWide(_, w) => c.core.pc as int + 4 + Displacement16(w)
    case JsrRegister(n, _) => if n == 7 then c.er[7] as int - 2 else c.er[n]
    case JsrAddress(_, w) => w
    case JmpRegister(n, _) => c.er[n]
    case JmpAddress(_, w) => w
    case Rts(_) => c.mem[c.er[7] % 0x1_0000] as int * 0x100 + c.mem[(c.er[7] as int + 1) % 0x1_0000] as int
    case Rte(_) => c.core.savedPc
  }

  /** What a call decodes to, where it goes, and what it pushes. */
  predicate IsCallTo(c: Cpu, i: Insn, x: Transfer)
    requires Sized(c)
  {
    && CallStack.IsCall(i) && CallStack.CallTarget(c, i) == Goal(x, c) % 0x1_0000
    && CallStack.ReturnAddress(c.core.pc, i) == (c.core.pc + |TransferCode(x)|) % 0x1_0000
  }

  lemma BsrDecodes(c: Cpu, x: Transfer)
    requires Sized(c) && At(c, TransferCode(x)) && (x.BsrShort? || x.BsrWide?)
    ensures IsCallTo(c, Decode(c), x)
  {
    hide At, Decode, Get16;
    Opcode(c, TransferCode(x));
    assert Decode(c) == if x.BsrShort? then CallRelative(Displacement8(x.d), 2)
                        else CallRelative(Displacement16(x.w), 4);
  }

  lemma LongWord(high: u8, w: u16)
    ensures Long(high, w) == high * 0x1_0000 + w as int
    ensures w / 0x100 * 0x100 + w % 0x100 == w
  {
  }

  lemma JsrRegisterDecodes(c: Cpu, x: Transfer)
    requires Sized(c) && At(c, TransferCode(x)) && x.JsrRegister?
    ensures Decode(c) == CallRegister(x.n)
  {
    hide At, Decode, Get16, Reg8, Reg16, Reg32, Long;
    Opcode(c, TransferCode(x));
    Nibbles(x.n, x.low);
  }

  lemma JsrAddressDecodes(c: Cpu, x: Transfer)
    requires Sized(c) && At(c, TransferCode(x)) && x.JsrAddress?
    ensures Decode(c) == CallAbsolute(x.high * 0x1_0000 + x.w as int)
  {
    hide At, Decode, Get16, Reg8, Reg16, Reg32, Long;
    Opcode(c, TransferCode(x));
    LongWord(x.high, x.w);
  }

  lemma JsrCalls(c: Cpu, x: Transfer)
    requires Sized(c) && (x.JsrRegister? || x.JsrAddress?)
    ensures IsCallTo(c, if x.JsrRegister? then CallRegister(x.n) else CallAbsolute(x.high * 0x1_0000 + x.w as int), x)
  {
    LoweredAddress(c.er[7]);
    if x.JsrAddress? {
      CutTo16(x.high, x.w);
    }
  }

  lemma LoweredAddress(sp: u32)
    ensures Low16(Moved(sp, -2)) == (sp as int - 2) % 0x1_0000
  {
  }

  /** Calls store the address behind them, high byte first, below the stack pointer. */
  lemma CallBytes(c: Cpu, e: Effect, x: Transfer)
    requires Sized(c) && At(c, TransferCode(x)) && Calls(x) && Admissible(e, c.core.flags)
    ensures Step(c, e).Some?
    ensures var t, sp := Step(c, e).value, (c.er[7] as int - 2) % 0x1_0000_0000;
            var behind := (c.core.pc + |TransferCode(x)|) % 0x1_0000;
            && t.core == c.core.(pc := Goal(x, c) % 0x1_0000) && t.er == c.er[7 := sp]
            && t.mem == c.mem[sp % 0x1_0000 := behind / 0x100][(sp + 1) % 0x1_0000 := behind % 0x100]
  {
    hide Decode, Perform, Set16, At, Goal, TransferCode, CallStack.CallTarget, CallStack.ReturnAddress;
    if x.BsrShort? || x.BsrWide? {
      BsrDecodes(c, x);
    } else {
      if x.JsrRegister? {
        JsrRegisterDecodes(c, x);
      } else {
        JsrAddressDecodes(c, x);
      }
      JsrCalls(c, x);
    }
    CallStack.CallPerforms(c, Decode(c), e);
    StoredWord(c.mem, (c.er[7] as int - 2) % 0x1_0000_0000, (c.core.pc + |TransferCode(x)|) % 0x1_0000);
  }

  lemma StoredWord(mem: seq<u8>, address: u32, w: u16)
    requires |mem| == MEM_SIZE
    ensures Set16(mem, address, w) == mem[address % 0x1_0000 := w / 0x100][(address + 1) % 0x1_0000 := w % 0x100]
  {
  }

  lemma CutTo16(high: u8, w: u16)
    ensures (high * 0x1_0000 + w as int) % 0x1_0000 == w
  {
  }

  lemma JumpRegisterDecodes(c: Cpu, x: Transfer)
    requires Sized(c) && At(c, TransferCode(x)) && x.JmpRegister?
    ensures Decode(c) == JumpRegister(x.n)
  {
    hide At, Decode, Get16, Reg8, Reg16, Reg32, Long;
    Opcode(c, TransferCode(x));
    Nibbles(x.n, x.low);
  }

  lemma JumpAddressDecodes(c: Cpu, x: Transfer)
    requires Sized(c) && At(c, TransferCode(x)) && x.JmpAddress?
    ensures Decode(c) == JumpAbsolute(x.high * 0x1_0000 + x.w as int)
  {
    hide At, Decode, Get16, Reg8, Reg16, Reg32, Long;
    Opcode(c, TransferCode(x));
    LongWord(x.high, x.w);
  }

  lemma ReturnDecodes(c: Cpu, x: Transfer)
    requires Sized(c) && At(c, TransferCode(x)) && (x.Rts? || x.Rte?)
    ensures Decode(c) == if x.Rts? then ReturnSub else ReturnInterrupt
  {
    hide At, Decode, Get16;
    Opcode(c, TransferCode(x));
  }

  lemma JumpPerforms(c: Cpu, i: Insn, e: Effect, target: int)
    requires Sized(c) && Admissible(e, c.core.flags)
    requires (i.JumpRegister? && target == c.er[i.n]) || (i.JumpAbsolute? && target == i.address)
    ensures Perform(c, i, e).Some? && Advance(Perform(c, i, e).value) == c.(core := c.core.(pc := target % 0x1_0000))
  {
    if i.JumpRegister? {
      BackAndForth(Low16(target));
    } else {
      BackAndForth(target);
    }
  }

  /** JMP goes to the address in the register or behind the opcode, cut to 16 bits. */
  lemma JumpBytes(c: Cpu, e: Effect, x: Transfer)
    requires Sized(c) && At(c, TransferCode(x)) && (x.JmpRegister? || x.JmpAddress?) && Admissible(e, c.core.flags)
    ensures Step(c, e) == Some(c.(core := c.core.(pc := Goal(x, c) % 0x1_0000)))
  {
    hide Decode, Perform, At;
    if x.JmpRegister? {
      JumpRegisterDecodes(c, x);
      JumpPerforms(c, JumpRegister(x.n), e, c.er[x.n]);
    } else {
      JumpAddressDecodes(c, x);
      JumpPerforms(c, JumpAbsolute(x.high * 0x1_0000 + x.w as int), e, x.high * 0x1_0000 + x.w as int);
      CutTo16(x.high, x.w);
    }
  }

  /** RTS goes to the word at the stack pointer and takes it off the stack. */
  lemma ReturnBytes(c: Cpu, e: Effect, x: Transfer)
    requires Sized(c) && At(c, TransferCode(x)) && x.Rts? && Admissible(e, c.core.flags)
    ensures Step(c, e) == Some(c.(core := c.core.(pc := Goal(x, c) % 0x1_0000),
                                  er := c.er[7 := (c.er[7] as int + 2) % 0x1_0000_0000]))
  {
    hide Decode, Perform, At, Goal, Get16;
    ReturnDecodes(c, x);
    TopOfStack(c, x);
    CallStack.ReturnPerforms(c, ReturnSub, e);
  }

  lemma TopOfStack(c: Cpu, x: Transfer)
    requires Sized(c) && x.Rts?
    ensures Goal(x, c) % 0x1_0000 == Get16(c.mem, c.er[7])
  {
  }

  /** RTE goes back to the saved program counter with the saved flags. */
  lemma InterruptReturnBytes(c: Cpu, e: Effect, x: Transfer)
    requires Sized(c) && At(c, TransferCode(x)) && x.Rte? && Admissible(e, c.core.flags)
    ensures Step(c, e) == Some(c.(core := c.core.(pc := c.core.savedPc, flags := c.core.savedFlags)))
  {
    hide Decode, At;
    ReturnDecodes(c, x);
    BackAndForth(c.core.savedPc);
  }

  // ---------------------------------------------------------------- flags, sleep, and what stops the emulator

  datatype Control =
    | NopInsn(unused: u8)                  // NOP
    | Sleep(low: Nibble)                   // SLEEP
    | LdcRegister(high: Nibble, s: Nibble) // LDC.B Rs, CCR
    | LdcImmediate(b: u8)                  // LDC.B #b, CCR
    | Trap(unused: u8)                     // TRAPA

  function ControlCode(x: Control): seq<u8> {
    match x
    case NopInsn(unused) => [0x00, unused]
    case Sleep(low) => [0x01, 0x80 + low as int]
    case LdcRegister(high, s) => [0x03, high * 0x10 + s as int]
    case LdcImmediate(b) => [0x07, b]
    case Trap(unused) => [0x57, unused]
  }

  /** The flags in a byte, I in the highest bit and C in the lowest. */
  function FlagsIn(b: u8): Flags {
    Flags(b / 0x80 == 1, b / 0x40 % 2 == 1, b / 0x20 % 2 == 1, b / 0x10 % 2 == 1,
          b / 8 % 2 == 1, b / 4 % 2 == 1, b / 2 % 2 == 1, b % 2 == 1)
  }

  lemma ControlDecodes(c: Cpu, x: Control)
    requires Sized(c) && At(c, ControlCode(x)) && !x.LdcRegister? && !x.LdcImmediate?
    ensures Decode(c) == if x.NopInsn? then Nop else if x.Sleep? then SleepInsn else Stops
  {
    hide At, Decode, Get16;
    Opcode(c, ControlCode(x));
    if x.Sleep? {
      Nibbles(8, x.low);
    }
  }

  lemma LdcDecodes(c: Cpu, x: Control)
    requires Sized(c) && At(c, ControlCode(x)) && (x.LdcRegister? || x.LdcImmediate?)
    ensures Decode(c) == LoadCcr(if x.LdcRegister? then ByteRegister(c.er, x.s) else x.b)
  {
    hide At, Decode, Get16;
    Opcode(c, ControlCode(x));
    if x.LdcRegister? {
      Nibbles(x.high, x.s);
    }
  }

  lemma FlagsLoaded(b: u8)
    ensures FlagsLoad(b) == FlagsIn(b)
  {
  }

  lemma ControlPerforms(c: Cpu, i: Insn, e: Effect)
    requires Sized(c) && Admissible(e, c.core.flags) && (i.Nop? || i.SleepInsn? || i.LoadCcr? || i.Stops?)
    ensures Perform(c, i, e).None? <==> i.Stops?
    ensures !i.Stops? ==> Advance(Perform(c, i, e).value)
                          == c.(core := c.core.(pc := (c.core.pc + 2) % 0x1_0000, sleep := c.core.sleep || i.SleepInsn?,
                                                flags := if i.LoadCcr? then FlagsLoad(i.value) else c.core.flags))
  {
    hide FlagsLoad;
  }

  lemma ControlBytes(c: Cpu, e: Effect, x: Control)
    requires Sized(c) && At(c, ControlCode(x)) && Admissible(e, c.core.flags)
    ensures var next, d := (c.core.pc + 2) % 0x1_0000, c.core;
            Step(c, e) == match x
                          case NopInsn(_) => Some(c.(core := d.(pc := next)))
                          case Sleep(_) => Some(c.(core := d.(pc := next, sleep := true)))
                          case LdcRegister(_, s) =>
                            Some(c.(core := d.(pc := next, flags := FlagsIn(ByteRegister(c.er, s)))))
                          case LdcImmediate(b) => Some(c.(core := d.(pc := next, flags := FlagsIn(b))))
                          case Trap(_) => None
  {
    hide Decode, At, FlagsLoad, FlagsIn, Perform;
    if x.LdcRegister? || x.LdcImmediate? {
      LdcDecodes(c, x);
      FlagsLoaded(Decode(c).value);
    } else {
      ControlDecodes(c, x);
    }
    ControlPerforms(c, Decode(c), e);
  }

  // ---------------------------------------------------------------- byte moves

  /** MOV.B @aa:16, Rd and MOV.B Rs, @aa:16. */
  datatype Move = LoadMove(w: u16, r: Nibble) | StoreMove(w: u16, r: Nibble)

  function MoveCode(x: Move): seq<u8> {
    match x
    case LoadMove(w, r) => [0x6A, r, w / 0x100, w % 0x100]
    case StoreMove(w, r) => [0x6A, 0x80 + r as int, w / 0x100, w % 0x100]
  }

  lemma MoveDecodes(c: Cpu, x: Move)
    requires Sized(c) && At(c, MoveCode(x))
    ensures Decode(c) == if x.LoadMove? then LoadByte(x.w, x.r) else H8.StoreByte(x.w, ByteRegister(c.er, x.r))
  {
    hide At, Decode, Get16;
    Opcode(c, MoveCode(x));
    Nibbles(if x.LoadMove? then 0 else 8, x.r);
  }

  /** The flags behind a byte move: the overflow is cleared, carry and half carry are kept. */
  predicate MoveFlags(f: Flags, g: Flags, value: u8) {
    g == f.(N := value >= 0x80, Z := value == 0, V := false)
  }

  /** One byte register is set: the other bytes of its long word and all other registers stay. */
  ghost predicate OneByteSet(er: seq<u32>, t: seq<u32>, r: Nibble, value: u8)
    requires |er| == 8
  {
    var n := r % 8;
    && |t| == 8 && (forall k: nat :: k < 8 && k != n ==> t[k] == er[k])
    && t[n] / 0x1_0000 == er[n] / 0x1_0000
    && t[n] / 0x100 % 0x100 == (if r < 8 then value else er[n] / 0x100 % 0x100)
    && t[n] % 0x100 == (if r < 8 then er[n] % 0x100 else value)
  }

  /** What a load from `w` does; clearing bit 1 of the status at 0xF0E4 comes with loading the received byte. */
  ghost predicate Loaded(c: Cpu, t: Cpu, w: u16, r: Nibble)
    requires Sized(c) && Sized(t)
  {
    && t.core == c.core.(pc := (c.core.pc + 4) % 0x1_0000, flags := t.core.flags)
    && MoveFlags(c.core.flags, t.core.flags, c.mem[w])
    && OneByteSet(c.er, t.er, r, c.mem[w])
    && t.mem == c.mem[0xF0E4 := t.mem[0xF0E4]]
    && c.mem[0xF0E4] == t.mem[0xF0E4] as int + if w == 0xF0E9 && c.mem[0xF0E4] / 2 % 2 == 1 then 2 else 0
  }

  /** What a store to `w` does; clearing bits 2 and 3 of the status comes with storing the byte to transmit. */
  predicate Stored(c: Cpu, t: Cpu, w: u16, value: u8)
    requires Sized(c) && Sized(t)
  {
    && t.core == c.core.(pc := (c.core.pc + 4) % 0x1_0000, flags := t.core.flags)
    && MoveFlags(c.core.flags, t.core.flags, value)
    && t.er == c.er
    && t.mem == (if w == 0xF0EB then c.mem[w := value][0xF0E4 := c.mem[0xF0E4] / 0x10 * 0x10 + c.mem[0xF0E4] % 4]
                 else c.mem[w := value])
  }

  /**
   A load puts the byte in memory into its half of its register. Loading the received byte at 0xF0E9 clears bit 1 of the
   status at 0xF0E4, and no other load changes memory.
   */
  lemma LoadBytes(c: Cpu, e: Effect, x: Move)
    requires Sized(c) && At(c, MoveCode(x)) && x.LoadMove? && Admissible(e, c.core.flags)
    ensures Step(c, e).Some? && Loaded(c, Step(c, e).value, x.w, x.r)
  {
    hide Decode, SetReg8, At, OneByteSet;
    MoveDecodes(c, x);
    HalfSet(c.er, x.r, c.mem[x.w]);
    WrapOnce(c.core.pc + 2, 2);
  }

  lemma HalfSet(er: seq<u32>, r: Nibble, value: u8)
    requires |er| == 8
    ensures OneByteSet(er, SetReg8(er, r, value), r, value)
  {
    var n := r % 8;
    HighByteSet(er[n], value);
    LowByteSet(er[n], value);
    assert SetReg8(er, r, value)
        == er[n := if r < 8 then er[n] / 0x1_0000 * 0x1_0000 + value as int * 0x100 + er[n] % 0x100
                   else er[n] / 0x100 * 0x100 + value as int];
  }

  lemma HighByteSet(before: u32, value: u8)
    ensures var t := before / 0x1_0000 * 0x1_0000 + value as int * 0x100 + before % 0x100;
            && 0 <= t < 0x1_0000_0000
            && t / 0x100 % 0x100 == value && t % 0x100 == before % 0x100 && t / 0x1_0000 == before / 0x1_0000
  {
    var t := before / 0x1_0000 * 0x1_0000 + value as int * 0x100 + before % 0x100;
    var q := before / 0x1_0000 * 0x100 + value as int;
    assert t / 0x100 == q && t % 0x100 == before % 0x100;
    assert q / 0x100 == before / 0x1_0000 && q % 0x100 == value;
    UpperHalf(t);
  }

  lemma LowByteSet(before: u32, value: u8)
    ensures var t := before / 0x100 * 0x100 + value as int;
            && 0 <= t < 0x1_0000_0000
            && t % 0x100 == value && t / 0x100 % 0x100 == before / 0x100 % 0x100 && t / 0x1_0000 == before / 0x1_0000
  {
    var q := before / 0x100;
    var t := q * 0x100 + value as int;
    assert t / 0x100 == q && t % 0x100 == value;
    UpperHalf(t);
    UpperHalf(before);
  }

  lemma UpperHalf(x: int)
    ensures x / 0x1_0000 == x / 0x100 / 0x100
  {
  }

  /**
   A store puts the byte of the register into memory. Storing the byte to transmit at 0xF0EB clears bits 2 and 3 of the
   status at 0xF0E4. Nothing else in memory changes, and no register.
   */
  lemma StoreBytes(c: Cpu, e: Effect, x: Move)
    requires Sized(c) && At(c, MoveCode(x)) && x.StoreMove? && Admissible(e, c.core.flags)
    ensures Step(c, e).Some? && Stored(c, Step(c, e).value, x.w, ByteRegister(c.er, x.r))
  {
    hide Decode, At, Lower;
    MoveDecodes(c, x);
    WrapOnce(c.core.pc + 2, 2);
    TransmitBitsCleared(c.mem[0xF0E4]);
  }

  lemma TransmitBitsCleared(b: u8)
    ensures Lower(Lower(b, 0x04), 0x08) == b / 0x10 * 0x10 + b % 4
  {
    var t := Lower(b, 0x04);
    assert b == b / 8 * 8 + b / 4 % 2 * 4 + b % 4;
    assert t == b / 8 * 8 + b % 4;
    assert t / 8 == b / 8;
    assert b / 8 == b / 0x10 * 2 + b / 8 % 2;
  }

  // ---------------------------------------------------------------- everything else

  /** The first two bytes of the instructions above. */
  predicate Listed(a: u8, b: u8) {
    || a in {0x00, 0x03, 0x07, 0x1C, 0x1D} || (a == 0x01 && b / 0x10 == 8) || (a == 0x1F && b >= 0x80)
    || 0xA0 <= a <= 0xAF || (a in {0x79, 0x7A} && b / 0x10 == 2)
    || 0x40 <= a <= 0x4F || a in {0x54, 0x55, 0x56, 0x57, 0x58, 0x59, 0x5A, 0x5C, 0x5D, 0x5E}
    || (a == 0x6A && (b / 0x10 == 0 || b / 0x10 == 8))
  }

  /** Any other instruction may stop the emulator or do anything but change the mask, the saved core and the sleep. */
  lemma OthersDoAnything(c: Cpu, e: Effect)
    requires Sized(c) && !Listed(ByteAt(c, 0), ByteAt(c, 1)) && Admissible(e, c.core.flags)
    ensures Step(c, e) == if e.stops then None
                          else Some(Cpu(c.core.(pc := (e.pc + 2) % 0x1_0000, flags := e.flags), e.er, e.mem))
  {
    hide Decode, Get16;
    Fetched(c);
  }
}
