/**
 The H8 processor as `walker.c` emulates it: registers, flags, one big-endian memory whose addresses wrap
 at 16 bits, and the compare, branch, call, return, load-CCR and sleep instructions.
 */
module H8 {
  import opened Words

  const MEM_SIZE: int := 0x1_0000

  datatype Flags = Flags(I: bool, UI: bool, H: bool, U: bool, N: bool, Z: bool, V: bool, C: bool)

  const CLEAR: Flags := Flags(false, false, false, false, false, false, false, false)

  /** What interrupts touch: the program counter, the flags, the one saved copy of both, and the sleep latch. */
  datatype Core = Core(pc: u16, flags: Flags, savedPc: u16, savedFlags: Flags, sleep: bool)

  /** Interrupt entry: one level of saved state, and further interrupts masked. */
  function Enter(c: Core, vector: u16): Core {
    Core(vector, c.flags.(I := true), c.pc, c.flags, false)
  }

  datatype Cpu = Cpu(core: Core, er: seq<u32>, mem: seq<u8>)

  predicate Sized(c: Cpu) { |c.er| == 8 && |c.mem| == MEM_SIZE }

  // ---------------------------------------------------------------- memory

  /** Address `base + k` within the 16-bit address space. */
  function Nth(base: u16, k: nat): u16
    requires k < 4
  {
    if base + k < MEM_SIZE then base + k else base + k - MEM_SIZE
  }

  function Word(high: u8, low: u8): u16 { (high as int) * 0x100 + low }

  function Long(high: u16, low: u16): u32 { (high as int) * 0x1_0000 + low }

  function Get8(mem: seq<u8>, address: int): u8
    requires |mem| == MEM_SIZE
  {
    mem[Low16(address)]
  }

  function Get16(mem: seq<u8>, address: int): u16
    requires |mem| == MEM_SIZE
  {
    var a := Low16(address);
    Word(mem[a], mem[Nth(a, 1)])
  }

  function Get32(mem: seq<u8>, address: int): u32
    requires |mem| == MEM_SIZE
  {
    var a := Low16(address);
    Long(Word(mem[a], mem[Nth(a, 1)]), Word(mem[Nth(a, 2)], mem[Nth(a, 3)]))
  }

  function Set8(mem: seq<u8>, address: int, value: u8): (r: seq<u8>)
    requires |mem| == MEM_SIZE
    ensures |r| == MEM_SIZE
  {
    mem[Low16(address) := value]
  }

  function Set16(mem: seq<u8>, address: int, value: u16): (r: seq<u8>)
    requires |mem| == MEM_SIZE
    ensures |r| == MEM_SIZE
  {
    var a := Low16(address);
    mem[a := value / 0x100][Nth(a, 1) := value % 0x100]
  }

  function Set32(mem: seq<u8>, address: int, value: u32): (r: seq<u8>)
    requires |mem| == MEM_SIZE
    ensures |r| == MEM_SIZE
  {
    var a := Low16(address);
    mem[a := value / 0x100_0000][Nth(a, 1) := value / 0x1_0000 % 0x100]
       [Nth(a, 2) := value / 0x100 % 0x100][Nth(a, 3) := value % 0x100]
  }

  /** A 16-bit word reads back across the address wrap, and no other byte changes. */
  lemma Set16RoundTrip(mem: seq<u8>, address: int, value: u16)
    requires |mem| == MEM_SIZE
    ensures Get16(Set16(mem, address, value), address) == value
    ensures forall a: u16 :: a != Low16(address) && a != Nth(Low16(address), 1) ==>
                               Set16(mem, address, value)[a] == mem[a]
  {
  }

  /** Writing what is there changes nothing. */
  lemma Set16Same(mem: seq<u8>, address: int)
    requires |mem| == MEM_SIZE
    ensures Set16(mem, address, Get16(mem, address)) == mem
  {
  }

  lemma HighWord(value: u32)
    ensures value / 0x1_0000 == value / 0x100_0000 * 0x100 + value / 0x1_0000 % 0x100
  {
  }

  lemma LowWord(value: u32)
    ensures value % 0x1_0000 == value / 0x100 % 0x100 * 0x100 + value % 0x100
  {
  }

  lemma LongOfBytes(value: u32)
    ensures Long(Word(value / 0x100_0000, value / 0x1_0000 % 0x100), Word(value / 0x100 % 0x100, value % 0x100))
         == value
  {
    HighWord(value);
    LowWord(value);
  }

  /** A 32-bit long word reads back across the address wrap, and no other byte changes. */
  lemma Set32RoundTrip(mem: seq<u8>, address: int, value: u32)
    requires |mem| == MEM_SIZE
    ensures Get32(Set32(mem, address, value), address) == value
    ensures forall a: u16 :: (a != Low16(address) && a != Nth(Low16(address), 1)
                              && a != Nth(Low16(address), 2) && a != Nth(Low16(address), 3)) ==>
                               Set32(mem, address, value)[a] == mem[a]
  {
    LongOfBytes(value);
  }

  // ---------------------------------------------------------------- registers

  /** The byte register that a 4-bit operand names: bit 3 selects RnL over RnH. */
  function Reg8(er: seq<u32>, operand: nat): u8
    requires |er| == 8 && operand < 16
  {
    if operand < 8 then er[operand] / 0x100 % 0x100 else er[operand - 8] % 0x100
  }

  /** The word register that a 4-bit operand names: bit 3 selects En over Rn. */
  function Reg16(er: seq<u32>, operand: nat): u16
    requires |er| == 8 && operand < 16
  {
    if operand < 8 then er[operand] % 0x1_0000 else er[operand - 8] / 0x1_0000
  }

  function Reg32(er: seq<u32>, operand: nat): u32
    requires |er| == 8 && operand < 16
  {
    er[operand % 8]
  }

  /** Writes a byte register and leaves the other bytes of its long word. */
  function SetReg8(er: seq<u32>, operand: nat, value: u8): (r: seq<u32>)
    requires |er| == 8 && operand < 16
    ensures |r| == 8
  {
    var before := er[operand % 8] as int;
    er[operand % 8 := if operand < 8 then before / 0x1_0000 * 0x1_0000 + (value as int) * 0x100 + before % 0x100
                      else before / 0x100 * 0x100 + value]
  }

  // ---------------------------------------------------------------- flags

  datatype Width = Byte | Half | Full

  /** The sign bit of a width, which is also half its number of values. */
  function SignBit(w: Width): int {
    match w
    case Byte => 0x80
    case Half => 0x8000
    case Full => 0x8000_0000
  }

  function LowPart(w: Width): int {
    match w
    case Byte => 0x10
    case Half => 0x100
    case Full => 0x1_0000
  }

  predicate Negative(x: u32, w: Width) { x / SignBit(w) % 2 == 1 }

  /** The flags after `value1 - value2`; the interrupt mask and the user bits are kept. */
  function FlagsSub(f: Flags, value1: u32, value2: u32, w: Width): Flags {
    var diff := Low32(value1 - value2);
    f.(N := Negative(diff, w),
       Z := diff == 0,
       V := Negative(value1, w) != Negative(value2, w) && Negative(diff, w) == Negative(value2, w),
       C := value2 > value1,
       H := value2 % LowPart(w) > value1 % LowPart(w))
  }

  /** The flags after moving a byte. */
  function FlagsMove(f: Flags, value: u8): Flags { f.(V := false, Z := value == 0, N := value >= 0x80) }

  /** Loading the condition code register. */
  function FlagsLoad(value: u8): Flags {
    Flags(Has(value, 0x80), Has(value, 0x40), Has(value, 0x20), Has(value, 0x10),
          Has(value, 0x08), Has(value, 0x04), Has(value, 0x02), Has(value, 0x01))
  }

  /** Whether a conditional branch with this condition code is taken. */
  function Taken(cc: nat, f: Flags): bool
    requires cc < 16
  {
    match cc
    case 0 => true
    case 1 => false
    case 2 => !(f.C || f.Z)
    case 3 => f.C || f.Z
    case 4 => !f.C
    case 5 => f.C
    case 6 => !f.Z
    case 7 => f.Z
    case 8 => !f.V
    case 9 => f.V
    case 10 => !f.N
    case 11 => f.N
    case 12 => f.N == f.V
    case 13 => f.N != f.V
    case 14 => !(f.Z || f.N != f.V)
    case _ => f.Z || f.N != f.V
  }

  // ---------------------------------------------------------------- instructions

  type Nibble = x: int | 0 <= x < 16

  type RegisterNumber = x: int | 0 <= x < 8

  datatype Insn =
    | Nop
    | SleepInsn
    | LoadCcr(value: u8)
    | Compare(w: Width, value1: u32, value2: u32, length: int)
    | BranchByte(cc: Nibble, disp: int)
    | BranchWord(cc: Nibble, disp: int)
    | CallRelative(disp: int, length: int)
    | CallRegister(n: RegisterNumber)
    | CallAbsolute(address: int)
    | JumpRegister(n: RegisterNumber)
    | JumpAbsolute(address: int)
    | ReturnSub
    | ReturnInterrupt
    | LoadByte(address: int, register: Nibble)
    | StoreByte(address: int, value: u8)
    | Stops      // the emulator reports the instruction as unimplemented
    | Unmodelled // other data movement, logic, arithmetic and bit instructions

  function Signed8(b: u8): int { if b < 0x80 then b else b - 0x100 }

  function Signed16(w: u16): int { if w < 0x8000 then w else w - 0x1_0000 }

  /** The instruction that the next three words `ab`, `cd` and `ef` of the program encode. */
  function DecodeWords(er: seq<u32>, ab: u16, cd: u16, ef: u16): Insn
    requires |er| == 8
  {
    DecodeBytes(er, ab / 0x100, ab % 0x100, cd, ef)
  }

  /** The same for the two bytes of the first word. */
  function DecodeBytes(er: seq<u32>, a: u8, b: u8, cd: u16, ef: u16): Insn
    requires |er| == 8
  {
    var aL, bH, bL := a % 0x10, b / 0x10, b % 0x10;
    if a == 0x00 then Nop
    else if a == 0x01 && bH == 8 then SleepInsn
    else if a == 0x03 then LoadCcr(Reg8(er, bL))
    else if a == 0x07 then LoadCcr(b)
    else if a == 0x1C then Compare(Byte, Reg8(er, bL), Reg8(er, bH), 2)
    else if a == 0x1D then Compare(Half, Reg16(er, bL), Reg16(er, bH), 2)
    else if a == 0x1F && bH >= 8 then Compare(Full, Reg32(er, bL), Reg32(er, bH), 2)
    else if a / 0x10 == 0xA then Compare(Byte, Reg8(er, aL), b, 2)
    else if a == 0x79 && bH == 2 then Compare(Half, Reg16(er, bL), cd, 4)
    else if a == 0x7A && bH == 2 then Compare(Full, Reg32(er, bL), Long(cd, ef), 6)
    else if a == 0x41 then Stops
    else if a / 0x10 == 4 then BranchByte(aL, Signed8(b))
    else if a == 0x54 then ReturnSub
    else if a == 0x55 then CallRelative(Signed8(b), 2)
    else if a == 0x56 then ReturnInterrupt
    else if a == 0x57 then Stops
    else if a == 0x58 then BranchWord(bH, Signed16(cd))
    else if a == 0x59 then JumpRegister(bH % 8)
    else if a == 0x5A then JumpAbsolute(Long(b, cd))
    else if a == 0x5C then CallRelative(Signed16(cd), 4)
    else if a == 0x5D then CallRegister(bH % 8)
    else if a == 0x5E then CallAbsolute(Long(b, cd))
    else if a == 0x6A && bH == 0 then LoadByte(cd, bL)
    else if a == 0x6A && bH == 8 then StoreByte(cd, Reg8(er, bL))
    else Unmodelled
  }

  function Decode(c: Cpu): Insn
    requires Sized(c)
  {
    var pc := c.core.pc;
    DecodeWords(c.er, Get16(c.mem, pc), Get16(c.mem, pc + 2), Get16(c.mem, pc + 4))
  }

  // Registers of the serial unit that a byte move treats specially.
  const SSSR: nat := 0xF0E4
  const SSRDR: nat := 0xF0E9
  const SSTDR: nat := 0xF0EB

  /** Reading the received byte clears RDRF. */
  function AfterLoad(mem: seq<u8>, address: int): (r: seq<u8>)
    requires |mem| == MEM_SIZE
    ensures |r| == MEM_SIZE
  {
    mem[SSSR := if Low16(address) == SSRDR then Lower(mem[SSSR], 0x02) else mem[SSSR]]
  }

  /** Storing the byte to transmit clears TDRE and TEND. */
  function AfterStore(mem: seq<u8>, address: int, value: u8): (r: seq<u8>)
    requires |mem| == MEM_SIZE
    ensures |r| == MEM_SIZE
  {
    var stored := Set8(mem, address, value);
    var status := stored[SSSR];
    stored[SSSR := if Low16(address) == SSTDR then Lower(Lower(status, 0x04), 0x08) else status]
  }

  /**
   What an instruction outside this model does: anything to registers, memory and condition flags, and any change of the
   program counter, but it neither masks nor unmasks interrupts (only the CCR loads and RTE do).
   */
  datatype Effect = Effect(er: seq<u32>, mem: seq<u8>, flags: Flags, pc: u16, stops: bool)

  predicate Admissible(e: Effect, f: Flags) {
    |e.er| == 8 && |e.mem| == MEM_SIZE && e.flags.I == f.I
  }

  function Goto(c: Cpu, pc: int): Cpu { c.(core := c.core.(pc := Low16(pc))) }

  /** A 32-bit register after adding `delta`. */
  function Moved(r: u32, delta: int): u32 { Low32(r + delta) }

  /** Decrements the stack pointer and stores a return address. */
  function PushReturn(c: Cpu, address: int): (r: Cpu)
    requires Sized(c)
    ensures Sized(r)
  {
    var sp := Moved(c.er[7], -2);
    c.(er := c.er[7 := sp], mem := Set16(c.mem, sp, Low16(address)))
  }

  /** Raises the stack pointer and goes to an address, less the advance that follows. */
  function Returned(c: Cpu, target: u16): (r: Cpu)
    requires Sized(c)
    ensures Sized(r)
  {
    Goto(c, target as int - 2).(er := c.er[7 := Moved(c.er[7], 2)])
  }

  /**
   What an instruction does up to, and not including, the final advance of the program counter by 2;
   `None` when the emulator gives up.
   */
  function Perform(c: Cpu, i: Insn, e: Effect): (r: Option<Cpu>)
    requires Sized(c) && Admissible(e, c.core.flags)
    ensures r.Some? ==> Sized(r.value)
  {
    var pc := c.core.pc;
    match i
    case Nop => Some(c)
    case SleepInsn => Some(c.(core := c.core.(sleep := true)))
    case LoadCcr(value) => Some(c.(core := c.core.(flags := FlagsLoad(value))))
    case Compare(w, value1, value2, length) =>
      Some(Goto(c.(core := c.core.(flags := FlagsSub(c.core.flags, value1, value2, w))), pc + length - 2))
    case BranchByte(cc, disp) => Some(if Taken(cc, c.core.flags) then Goto(c, pc + disp) else c)
    case BranchWord(cc, disp) =>
      if cc == 1 then Some(c)
      else Some(Goto(c, if Taken(cc, c.core.flags) then pc + 2 + disp else pc + 2))
    case CallRelative(disp, length) => Some(Goto(PushReturn(c, pc + length), pc + length - 2 + disp))
    case CallRegister(n) =>
      var pushed := PushReturn(c, pc + 2);
      Some(Goto(pushed, Low16(pushed.er[n]) as int - 2))
    case CallAbsolute(address) => Some(Goto(PushReturn(c, pc + 4), address - 2))
    case JumpRegister(n) => Some(Goto(c, Low16(c.er[n]) as int - 2))
    case JumpAbsolute(address) => Some(Goto(c, address - 2))
    case ReturnSub =>
      Some(Returned(c, Get16(c.mem, c.er[7])))
    case ReturnInterrupt =>
      Some(c.(core := c.core.(pc := Low16(c.core.savedPc - 2), flags := c.core.savedFlags)))
    case LoadByte(address, register) =>
      var value := Get8(c.mem, address);
      Some(Cpu(c.core.(pc := Low16(pc + 2), flags := FlagsMove(c.core.flags, value)),
               SetReg8(c.er, register, value), AfterLoad(c.mem, address)))
    case StoreByte(address, value) =>
      Some(Cpu(c.core.(pc := Low16(pc + 2), flags := FlagsMove(c.core.flags, value)),
               c.er, AfterStore(c.mem, address, value)))
    case Stops => None
    case Unmodelled =>
      if e.stops then None
      else Some(Cpu(c.core.(pc := e.pc, flags := e.flags), e.er, e.mem))
  }

  function Execute(c: Cpu, e: Effect): (r: Option<Cpu>)
    requires Sized(c) && Admissible(e, c.core.flags)
    ensures r.Some? ==> Sized(r.value)
  {
    Perform(c, Decode(c), e)
  }

  /** The advance that ends every instruction. */
  function Advance(c: Cpu): Cpu { Goto(c, c.core.pc + 2) }

  /** One instruction executed without interruption. */
  function Step(c: Cpu, e: Effect): (r: Option<Cpu>)
    requires Sized(c) && Admissible(e, c.core.flags)
    ensures r.Some? ==> Sized(r.value)
  {
    var r := Execute(c, e);
    if r.None? then None else Some(Advance(r.value))
  }

  /** Instructions that jump go back by 2 first, because every instruction ends with an advance by 2. */
  lemma BackAndForth(x: int)
    ensures Low16(Low16(x - 2) + 2) == Low16(x)
  {
    WrapOnce(x - 2, 2);
  }

  lemma WrapsTo(x: int, r: u16, q: int)
    requires x == r + MEM_SIZE * q
    ensures Low16(x) == r
  {
  }

  /** Wrapping the program counter at every step is wrapping it once. */
  lemma WrapOnce(x: int, d: int)
    ensures Low16(Low16(x) + d) == Low16(x + d)
  {
    var r := Low16(Low16(x) + d);
    var q := x / MEM_SIZE + (Low16(x) + d) / MEM_SIZE;
    WrapsTo(x + d, r, q);
  }
}
