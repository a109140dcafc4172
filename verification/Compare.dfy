/** A compare followed by a conditional branch decides the order relation that the branch is named after. */
module Compare {
  import opened Words
  import opened H8

  /** The two's complement reading of a `w`-wide word. */
  function AsSigned(x: u32, w: Width): int {
    if x < SignBit(w) then x else x - 2 * SignBit(w)
  }

  /** The numbers that fit in the lower half of a width: half carry is a borrow from there. */
  function LowHalf(w: Width): int {
    match w
    case Byte => 0x10
    case Half => 0x100
    case Full => 0x1_0000
  }

  predicate Fits(x: u32, w: Width) { x < 2 * SignBit(w) }

  /** The relation that each branch of a compare `value1, value2` is meant to decide. */
  predicate Relation(cc: nat, value1: u32, value2: u32, w: Width)
    requires cc < 16
  {
    var s1, s2 := AsSigned(value1, w), AsSigned(value2, w);
    match cc
    case 0 => true
    case 1 => false
    case 2 => value1 > value2
    case 3 => value1 <= value2
    case 4 => value1 >= value2
    case 5 => value1 < value2
    case 6 => value1 != value2
    case 7 => value1 == value2
    case 8 => -SignBit(w) <= s1 - s2 < SignBit(w)
    case 9 => !(-SignBit(w) <= s1 - s2 < SignBit(w))
    case 10 => (s1 - s2) % (2 * SignBit(w)) < SignBit(w)
    case 11 => (s1 - s2) % (2 * SignBit(w)) >= SignBit(w)
    case 12 => s1 >= s2
    case 13 => s1 < s2
    case 14 => s1 > s2
    case _ => s1 <= s2
  }

  /** The sign bit of the wrapped 32-bit difference, read at the narrow width. */
  lemma NegativeOfDifference(value1: u32, value2: u32, w: Width)
    requires Fits(value1, w) && Fits(value2, w)
    ensures var d := value1 as int - value2;
            Negative(Low32(d), w) <==> d >= SignBit(w) || -SignBit(w) <= d < 0
  {
    var d := value1 as int - value2;
    match w {
      case Byte => NegativeByte(d);
      case Half => NegativeHalf(d);
      case Full => NegativeFull(d);
    }
  }

  lemma NegativeByte(d: int)
    requires -0x100 < d < 0x100
    ensures Negative(Low32(d), Byte) <==> d >= 0x80 || -0x80 <= d < 0
  {
    if d < 0 {
      assert Low32(d) == d + 0x80 * 0x200_0000;
    }
  }

  lemma NegativeHalf(d: int)
    requires -0x1_0000 < d < 0x1_0000
    ensures Negative(Low32(d), Half) <==> d >= 0x8000 || -0x8000 <= d < 0
  {
    if d < 0 {
      assert Low32(d) == d + 0x8000 * 0x2_0000;
    }
  }

  lemma NegativeFull(d: int)
    requires -0x1_0000_0000 < d < 0x1_0000_0000
    ensures Negative(Low32(d), Full) <==> d >= 0x8000_0000 || -0x8000_0000 <= d < 0
  {
    if d < 0 {
      assert Low32(d) == d + 0x8000_0000 * 2;
    }
  }

  lemma NegativeOfOperand(value: u32, w: Width)
    requires Fits(value, w)
    ensures Negative(value, w) <==> value >= SignBit(w)
  {
    match w {
      case Byte =>
      case Half =>
      case Full =>
    }
  }

  lemma RemainderByte(s: int, r: int)
    requires 0 <= r < 0x100 && (s == r - 0x200 || s == r - 0x100 || s == r || s == r + 0x100)
    ensures s % 0x100 == r
  {
  }

  lemma RemainderHalf(s: int, r: int)
    requires 0 <= r < 0x1_0000 && (s == r - 0x2_0000 || s == r - 0x1_0000 || s == r || s == r + 0x1_0000)
    ensures s % 0x1_0000 == r
  {
  }

  lemma RemainderFull(s: int, r: int)
    requires 0 <= r < 0x1_0000_0000
    requires s == r - 0x2_0000_0000 || s == r - 0x1_0000_0000 || s == r || s == r + 0x1_0000_0000
    ensures s % 0x1_0000_0000 == r
  {
  }

  /** Numbers a multiple of the width apart have the same remainder. */
  lemma SameRemainder(s: int, d: int, w: Width)
    requires -2 * SignBit(w) < d < 2 * SignBit(w)
    requires s == d || s == d + 2 * SignBit(w) || s == d - 2 * SignBit(w)
    ensures s % (2 * SignBit(w)) == if d < 0 then d + 2 * SignBit(w) else d
  {
    match w {
      case Byte => RemainderByte(s, if d < 0 then d + 0x100 else d);
      case Half => RemainderHalf(s, if d < 0 then d + 0x1_0000 else d);
      case Full => RemainderFull(s, if d < 0 then d + 0x1_0000_0000 else d);
    }
  }

  /** The signed difference wraps like the unsigned one. */
  lemma SignedDifferenceWraps(value1: u32, value2: u32, w: Width)
    requires Fits(value1, w) && Fits(value2, w)
    ensures var d := value1 as int - value2;
            var s := (AsSigned(value1, w) - AsSigned(value2, w)) % (2 * SignBit(w));
            s >= SignBit(w) <==> d >= SignBit(w) || -SignBit(w) <= d < 0
  {
    SameRemainder(AsSigned(value1, w) - AsSigned(value2, w), value1 as int - value2, w);
  }

  /** What the five flags mean for the operands; the interrupt mask and the user bits are kept. */
  lemma FlagsAfterCompare(f: Flags, value1: u32, value2: u32, w: Width)
    requires Fits(value1, w) && Fits(value2, w)
    ensures var g := FlagsSub(f, value1, value2, w);
            var s := AsSigned(value1, w) - AsSigned(value2, w);
            && (g.C <==> value1 < value2)
            && (g.Z <==> value1 == value2)
            && (g.N <==> s % (2 * SignBit(w)) >= SignBit(w))
            && (g.V <==> !(-SignBit(w) <= s < SignBit(w)))
            && (g.N != g.V <==> s < 0)
            && (g.H <==> value1 % LowHalf(w) < value2 % LowHalf(w))
            && g == f.(C := g.C, Z := g.Z, N := g.N, V := g.V, H := g.H)
  {
    hide Negative;
    NegativeOfDifference(value1, value2, w);
    NegativeOfOperand(value1, w);
    NegativeOfOperand(value2, w);
    SignedDifferenceWraps(value1, value2, w);
  }

  /** Every condition code, at every width, for all operands. */
  lemma BranchDecidesRelation(cc: nat, f: Flags, value1: u32, value2: u32, w: Width)
    requires cc < 16 && Fits(value1, w) && Fits(value2, w)
    ensures Taken(cc, FlagsSub(f, value1, value2, w)) <==> Relation(cc, value1, value2, w)
  {
    FlagsAfterCompare(f, value1, value2, w);
    assert AsSigned(value1, w) == AsSigned(value2, w) <==> value1 == value2;
  }

  /** A decoded compare has operands of its own width. */
  lemma CompareOperandsFit(c: Cpu)
    requires Sized(c) && Decode(c).Compare?
    ensures Fits(Decode(c).value1, Decode(c).w) && Fits(Decode(c).value2, Decode(c).w)
    ensures Decode(c).length in {2, 4, 6}
  {
  }

  lemma ComparePerforms(c: Cpu, i: Insn, e: Effect)
    requires Sized(c) && Admissible(e, c.core.flags) && i.Compare?
    ensures Perform(c, i, e).Some?
    ensures Advance(Perform(c, i, e).value)
         == c.(core := c.core.(pc := Low16(c.core.pc + i.length),
                               flags := FlagsSub(c.core.flags, i.value1, i.value2, i.w)))
  {
    WrapOnce(c.core.pc + i.length - 2, 2);
  }

  lemma CompareStep(c: Cpu, e: Effect)
    requires Sized(c) && Admissible(e, c.core.flags) && Decode(c).Compare?
    ensures var i := Decode(c);
            Step(c, e) == Some(c.(core := c.core.(pc := Low16(c.core.pc + i.length),
                                                  flags := FlagsSub(c.core.flags, i.value1, i.value2, i.w))))
  {
    ComparePerforms(c, Decode(c), e);
  }

  lemma BranchPerforms(c: Cpu, i: Insn, e: Effect)
    requires Sized(c) && Admissible(e, c.core.flags) && (i.BranchByte? || i.BranchWord?) && i.cc != 1
    ensures Perform(c, i, e).Some?
    ensures var next := c.core.pc + if i.BranchByte? then 2 else 4;
            Advance(Perform(c, i, e).value) == Goto(c, if Taken(i.cc, c.core.flags) then next + i.disp else next)
  {
    WrapOnce(c.core.pc + i.disp, 2);
    WrapOnce(c.core.pc + 2 + i.disp, 2);
    WrapOnce(c.core.pc + 2, 2);
  }

  /** A branch other than BRN lands on its target if taken and on the next instruction otherwise. */
  lemma BranchStep(c: Cpu, e: Effect)
    requires Sized(c) && Admissible(e, c.core.flags)
    requires Decode(c).BranchByte? || Decode(c).BranchWord?
    requires Decode(c).cc != 1
    ensures var i := Decode(c);
            var next := c.core.pc + if i.BranchByte? then 2 else 4;
            Step(c, e) == Some(Goto(c, if Taken(i.cc, c.core.flags) then next + i.disp else next))
  {
    BranchPerforms(c, Decode(c), e);
  }

  /** A branch that the program can rely on: the 8-bit BRN stops the emulator, the 16-bit one resumes inside itself. */
  predicate IsBranch(i: Insn) { (i.BranchByte? || i.BranchWord?) && i.cc != 1 }

  /** Going on from an address that was wrapped is going on from the address itself. */
  lemma GoesOn(after: Cpu, before: int, delta: int)
    requires after.core.pc == Low16(before)
    ensures Goto(after, after.core.pc + delta) == Goto(after, before + delta)
  {
    WrapOnce(before, delta);
  }

  lemma MaskKept(f: Flags, value1: u32, value2: u32, w: Width)
    requires Fits(value1, w) && Fits(value2, w)
    ensures FlagsSub(f, value1, value2, w).I == f.I
  {
  }

  /** A branch whose condition is known, at an address that was wrapped. */
  lemma BranchFrom(after: Cpu, e: Effect, before: int, holds: bool)
    requires Sized(after) && Admissible(e, after.core.flags) && IsBranch(Decode(after))
    requires after.core.pc == Low16(before) && (Taken(Decode(after).cc, after.core.flags) <==> holds)
    ensures var branch := Decode(after);
            var next := before + if branch.BranchByte? then 2 else 4;
            Step(after, e) == Some(Goto(after, if holds then next + branch.disp else next))
  {
    hide Step, Taken, Decode;
    var branch := Decode(after);
    var length := if branch.BranchByte? then 2 else 4;
    BranchStep(after, e);
    GoesOn(after, before, length);
    GoesOn(after, before, length + branch.disp);
  }

  /**
   Executing a compare and then the 8-bit or 16-bit branch behind it reaches the branch target exactly when
   the relation holds, the instruction after the branch otherwise, and changes nothing but pc and flags.
   */
  lemma CompareThenBranch(c: Cpu, e: Effect, e': Effect)
    requires Sized(c) && Admissible(e, c.core.flags) && Decode(c).Compare?
    ensures Step(c, e).Some?
    ensures var compare, after := Decode(c), Step(c, e).value;
            var branch := Decode(after);
            && after == c.(core := c.core.(pc := after.core.pc, flags := after.core.flags))
            && after.core.flags.I == c.core.flags.I
            && (Admissible(e', after.core.flags) && IsBranch(branch) ==>
                  var next := c.core.pc + compare.length + if branch.BranchByte? then 2 else 4;
                  var holds := Relation(branch.cc, compare.value1, compare.value2, compare.w);
                  Step(after, e') == Some(Goto(after, if holds then next + branch.disp else next)))
  {
    hide Taken, Relation, FlagsSub, DecodeWords;
    CompareStep(c, e);
    var i, after := Decode(c), Step(c, e).value;
    CompareOperandsFit(c);
    MaskKept(c.core.flags, i.value1, i.value2, i.w);
    if Admissible(e', after.core.flags) && IsBranch(Decode(after)) {
      var branch := Decode(after);
      BranchDecidesRelation(branch.cc, c.core.flags, i.value1, i.value2, i.w);
      BranchFrom(after, e', c.core.pc + i.length, Relation(branch.cc, i.value1, i.value2, i.w));
    }
  }
}
