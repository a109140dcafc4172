/**
 Calls and returns agree with a stack of return addresses, across the 16-bit address wrap. Between a call and its
 return the program may push and pop data, call further, be interrupted, and write anything but the words that
 hold open return addresses.
 */
module CallStack {
  import opened Words
  import opened H8

  /** How many words fit in the address space. */
  const CAPACITY: nat := 0x8000

  predicate IsCall(i: Insn) { i.CallRelative? || i.CallRegister? || i.CallAbsolute? }

  /** The address of the instruction after a call. */
  function ReturnAddress(pc: u16, i: Insn): u16 {
    Low16(pc + if i.CallAbsolute? then 4 else if i.CallRelative? then i.length else 2)
  }

  /** Where a call goes; JSR @ER7 reads the stack pointer after it was lowered. */
  function CallTarget(c: Cpu, i: Insn): u16
    requires Sized(c) && IsCall(i)
  {
    match i
    case CallRelative(disp, length) => Low16(c.core.pc + length + disp)
    case CallRegister(n) => Low16(if n == 7 then Moved(c.er[7], -2) else c.er[n])
    case CallAbsolute(address) => Low16(address)
  }

  /** BSR and JSR store the address of the instruction behind them at the lowered stack pointer. */
  lemma CallPerforms(c: Cpu, i: Insn, e: Effect)
    requires Sized(c) && Admissible(e, c.core.flags) && IsCall(i)
    ensures Perform(c, i, e).Some?
    ensures var t, sp := Advance(Perform(c, i, e).value), Moved(c.er[7], -2);
            && t.er == c.er[7 := sp] && t.mem == Set16(c.mem, sp, ReturnAddress(c.core.pc, i))
            && t.core == c.core.(pc := CallTarget(c, i))
  {
    match i
    case CallRelative(disp, length) => BackAndForth(c.core.pc + length + disp);
    case CallRegister(n) =>
      var target: u16 := Low16(PushReturn(c, c.core.pc + 2).er[n]);
      BackAndForth(target);
      WrapsTo(target, target, 0);
    case CallAbsolute(address) => BackAndForth(address);
  }

  lemma ReturnedAdvances(c: Cpu, target: u16)
    requires Sized(c)
    ensures Advance(Returned(c, target)).core == c.core.(pc := target)
    ensures Advance(Returned(c, target)).er == c.er[7 := Moved(c.er[7], 2)]
    ensures Advance(Returned(c, target)).mem == c.mem
  {
    BackAndForth(target);
    WrapsTo(target, target, 0);
  }

  /** RTS resumes at the word at the stack pointer. */
  lemma ReturnPerforms(c: Cpu, i: Insn, e: Effect)
    requires Sized(c) && Admissible(e, c.core.flags) && i.ReturnSub?
    ensures Perform(c, i, e).Some?
    ensures var t := Advance(Perform(c, i, e).value);
            && t.core == c.core.(pc := Get16(c.mem, c.er[7]))
            && t.er == c.er[7 := Moved(c.er[7], 2)]
            && t.mem == c.mem
  {
    ReturnedAdvances(c, Get16(c.mem, c.er[7]));
  }

  // ---------------------------------------------------------------- the stack in memory

  /** A word on the stack: a return address, or data that the program keeps there. */
  datatype Slot = Address(value: u16) | Data

  /** The i-th word pushed below stack address `base`. */
  function SlotAddress(base: u16, i: nat): u16 { Low16(base - 2 * (i + 1)) }

  predicate SlotHolds(mem: seq<u8>, base: u16, i: nat, slot: Slot)
    requires |mem| == MEM_SIZE
  {
    slot.Address? ==> Get16(mem, SlotAddress(base, i)) == slot.value
  }

  /** The return addresses among the words below `base` are those of `frames`, the innermost at the stack pointer. */
  ghost predicate Shadowed(sp: u32, mem: seq<u8>, base: u16, frames: seq<Slot>) {
    && |mem| == MEM_SIZE
    && |frames| <= CAPACITY
    && Low16(sp) == Low16(base - 2 * |frames|)
    && forall i: nat :: i < |frames| ==> SlotHolds(mem, base, i, frames[i])
  }

  lemma WrapMany(x: int, q: int)
    ensures Low16(x + MEM_SIZE * q) == Low16(x)
  {
    WrapsTo(x + MEM_SIZE * q, Low16(x), x / MEM_SIZE + q);
  }

  /** A slot is two bytes at even and odd distance below the base. */
  lemma SlotOffset(base: u16, i: nat)
    requires i < CAPACITY
    ensures Low16(base - 1 - SlotAddress(base, i)) == 2 * i + 1
    ensures Low16(base - 1 - Nth(SlotAddress(base, i), 1)) == 2 * i
  {
    var below := base - 2 * (i + 1);
    var q := if below < 0 then -1 else 0;
    WrapsTo(below, below - MEM_SIZE * q, q);
    WrapsTo(base - 1 - SlotAddress(base, i), 2 * i + 1, q);
    WrapsTo(base - 1 - Nth(SlotAddress(base, i), 1), 2 * i, if below == -1 then 0 else q);
  }

  /** Bytes at different distances below the base are different. */
  lemma Apart(base: u16, a: u16, b: u16, x: int, y: int)
    requires Low16(base - 1 - a) == x && Low16(base - 1 - b) == y && x != y
    ensures a != b
  {
  }

  /** The bytes of two slots of a stack that fits are all different. */
  lemma SlotsDisjoint(base: u16, i: nat, j: nat)
    requires i < j < CAPACITY
    ensures SlotAddress(base, i) != SlotAddress(base, j)
    ensures SlotAddress(base, i) != Nth(SlotAddress(base, j), 1)
    ensures Nth(SlotAddress(base, i), 1) != SlotAddress(base, j)
    ensures Nth(SlotAddress(base, i), 1) != Nth(SlotAddress(base, j), 1)
  {
    hide SlotAddress, Low16, Nth;
    SlotOffset(base, i);
    SlotOffset(base, j);
    var a, b := SlotAddress(base, i), SlotAddress(base, j);
    Apart(base, a, b, 2 * i + 1, 2 * j + 1);
    Apart(base, a, Nth(b, 1), 2 * i + 1, 2 * j);
    Apart(base, Nth(a, 1), b, 2 * i, 2 * j + 1);
    Apart(base, Nth(a, 1), Nth(b, 1), 2 * i, 2 * j);
  }

  /** Writing one slot leaves every other slot as it was. */
  lemma SlotKept(mem: seq<u8>, base: u16, i: nat, n: nat, value: u16)
    requires |mem| == MEM_SIZE && i < n < CAPACITY
    ensures Get16(Set16(mem, SlotAddress(base, n), value), SlotAddress(base, i)) == Get16(mem, SlotAddress(base, i))
  {
    SlotsDisjoint(base, i, n);
    WrapsTo(SlotAddress(base, i), SlotAddress(base, i), 0);
    Set16RoundTrip(mem, SlotAddress(base, n), value);
    WrapsTo(SlotAddress(base, n), SlotAddress(base, n), 0);
  }

  lemma StackPointerMoves(sp: u32, delta: int)
    ensures Low16(Moved(sp, delta)) == Low16(Low16(sp) + delta)
  {
    WrapOnce(sp, delta);
    var q := (sp + delta) / 0x1_0000_0000;
    assert sp + delta == Moved(sp, delta) + MEM_SIZE * (0x1_0000 * q);
    WrapMany(Moved(sp, delta), 0x1_0000 * q);
  }

  /** Where the stack pointer stands after `words` more words. */
  lemma TopMoves(sp: u32, base: u16, n: int, words: int)
    requires Low16(sp) == Low16(base - 2 * n)
    ensures Low16(Moved(sp, -2 * words)) == Low16(base - 2 * (n + words))
  {
    StackPointerMoves(sp, -2 * words);
    WrapOnce(base - 2 * n, -2 * words);
  }

  lemma SameAddress(mem: seq<u8>, address: int, address': int, value: u16)
    requires |mem| == MEM_SIZE && Low16(address) == Low16(address')
    ensures Set16(mem, address, value) == Set16(mem, address', value)
    ensures Get16(mem, address) == Get16(mem, address')
  {
  }

  // ---------------------------------------------------------------- events

  /** A call carries the address behind it; anything else moves the stack pointer down by some words, or up. */
  datatype Event = Call(address: u16) | Return | Other(words: int)

  function Grows(event: Event): int {
    match event
    case Call(_) => 1
    case Return => -1
    case Other(words) => words
  }

  /** The words on the stack after an event. */
  function After(frames: seq<Slot>, event: Event): (r: seq<Slot>)
    ensures 0 <= |frames| + Grows(event) ==> |r| == |frames| + Grows(event)
  {
    match event
    case Call(address) => frames + [Address(address)]
    case Return => if frames == [] then [] else frames[..|frames| - 1]
    case Other(words) =>
      if words >= 0 then frames + seq(words, _ => Data)
      else if |frames| + words >= 0 then frames[..|frames| + words]
      else []
  }

  /** What calls and returns are about. */
  datatype View = View(pc: u16, sp: u32, mem: seq<u8>)

  function ViewOf(c: Cpu): View
    requires Sized(c)
  {
    View(c.core.pc, c.er[7], c.mem)
  }

  /** No open return address is overwritten; data on the stack may be. */
  ghost predicate SparesFrames(mem: seq<u8>, mem': seq<u8>, base: u16, frames: seq<Slot>)
    requires |mem| == |mem'| == MEM_SIZE
  {
    forall i: nat :: i < |frames| && frames[i].Address? ==> SlotUntouched(mem, mem', base, i)
  }

  predicate SlotUntouched(mem: seq<u8>, mem': seq<u8>, base: u16, i: nat)
    requires |mem| == |mem'| == MEM_SIZE
  {
    Get16(mem', SlotAddress(base, i)) == Get16(mem, SlotAddress(base, i))
  }

  /** One event with the words `frames` on the stack. */
  ghost predicate Follows(v: View, event: Event, t: View, base: u16, frames: seq<Slot>) {
    && |v.mem| == |t.mem| == MEM_SIZE
    && match event
       case Call(address) => t.sp == Moved(v.sp, -2) && t.mem == Set16(v.mem, t.sp, address)
       case Return => t.sp == Moved(v.sp, 2) && t.mem == v.mem && t.pc == Get16(v.mem, v.sp)
       case Other(words) =>
         t.sp == Moved(v.sp, -2 * words) && SparesFrames(v.mem, t.mem, base, After(frames, event))
  }

  lemma CallFollows(c: Cpu, i: Insn, e: Effect, base: u16, frames: seq<Slot>)
    requires Sized(c) && Admissible(e, c.core.flags) && IsCall(i)
    ensures Perform(c, i, e).Some?
    ensures Follows(ViewOf(c), Call(ReturnAddress(c.core.pc, i)), ViewOf(Advance(Perform(c, i, e).value)), base, frames)
  {
    CallPerforms(c, i, e);
  }

  lemma ReturnFollows(c: Cpu, i: Insn, e: Effect, base: u16, frames: seq<Slot>)
    requires Sized(c) && Admissible(e, c.core.flags) && i.ReturnSub?
    ensures Perform(c, i, e).Some?
    ensures Follows(ViewOf(c), Return, ViewOf(Advance(Perform(c, i, e).value)), base, frames)
  {
    ReturnPerforms(c, i, e);
  }

  lemma PushExtends(sp: u32, mem: seq<u8>, base: u16, frames: seq<Slot>, address: u16)
    requires Shadowed(sp, mem, base, frames) && |frames| < CAPACITY
    ensures Shadowed(Moved(sp, -2), Set16(mem, Moved(sp, -2), address), base, frames + [Address(address)])
  {
    var n := |frames|;
    TopMoves(sp, base, n, 1);
    var a := SlotAddress(base, n);
    WrapsTo(a, a, 0);
    Set16RoundTrip(mem, a, address);
    SameAddress(mem, Moved(sp, -2), a, address);
    forall i: nat | i < n + 1
      ensures SlotHolds(Set16(mem, a, address), base, i, (frames + [Address(address)])[i])
    {
      if i < n {
        assert SlotHolds(mem, base, i, frames[i]);
        SlotKept(mem, base, i, n, address);
      }
    }
  }

  lemma PopShrinks(sp: u32, mem: seq<u8>, base: u16, frames: seq<Slot>)
    requires Shadowed(sp, mem, base, frames) && frames != []
    ensures frames[|frames| - 1].Address? ==> Get16(mem, sp) == frames[|frames| - 1].value
    ensures Shadowed(Moved(sp, 2), mem, base, frames[..|frames| - 1])
  {
    hide Moved, Get16;
    var n := |frames|;
    TopMoves(sp, base, n, -1);
    assert SlotHolds(mem, base, n - 1, frames[n - 1]);
    WrapsTo(SlotAddress(base, n - 1), SlotAddress(base, n - 1), 0);
    SameAddress(mem, sp, SlotAddress(base, n - 1), 0);
  }

  lemma OtherKeepsShadow(sp: u32, mem: seq<u8>, mem': seq<u8>, base: u16, frames: seq<Slot>, words: int)
    requires Shadowed(sp, mem, base, frames) && |mem'| == MEM_SIZE && 0 <= |frames| + words <= CAPACITY
    requires SparesFrames(mem, mem', base, After(frames, Other(words)))
    ensures Shadowed(Moved(sp, -2 * words), mem', base, After(frames, Other(words)))
  {
    TopMoves(sp, base, |frames|, words);
    var after := After(frames, Other(words));
    forall i: nat | i < |after|
      ensures SlotHolds(mem', base, i, after[i])
    {
      if after[i].Address? {
        assert SlotHolds(mem, base, i, frames[i]);
        assert SlotUntouched(mem, mem', base, i);
      }
    }
  }

  lemma FollowsKeepsShadow(v: View, event: Event, t: View, base: u16, frames: seq<Slot>)
    requires Follows(v, event, t, base, frames) && Shadowed(v.sp, v.mem, base, frames)
    requires 0 <= |frames| + Grows(event) <= CAPACITY
    ensures Shadowed(t.sp, t.mem, base, After(frames, event))
    ensures event.Return? && frames[|frames| - 1].Address? ==> t.pc == frames[|frames| - 1].value
  {
    match event {
      case Call(address) => PushExtends(v.sp, v.mem, base, frames, address);
      case Return => PopShrinks(v.sp, v.mem, base, frames);
      case Other(words) => OtherKeepsShadow(v.sp, v.mem, t.mem, base, frames, words);
    }
  }

  // ---------------------------------------------------------------- whole runs

  /** Words pushed and not yet popped by the first `n` events. */
  function Depth(events: seq<Event>, n: nat): int
    requires n <= |events|
  {
    if n == 0 then 0 else Depth(events, n - 1) + Grows(events[n - 1])
  }

  /** Nothing is popped below the base, and the stack always fits in the address space. */
  ghost predicate WellNested(events: seq<Event>) {
    forall n: nat :: n <= |events| ==> 0 <= Depth(events, n) <= CAPACITY
  }

  /** The words on the stack after `n` events. */
  function Frames(events: seq<Event>, n: nat): seq<Slot>
    requires n <= |events|
  {
    if n == 0 then [] else After(Frames(events, n - 1), events[n - 1])
  }

  lemma {:induction false} OneFramePerWord(events: seq<Event>, n: nat)
    requires WellNested(events) && n <= |events|
    ensures |Frames(events, n)| == Depth(events, n)
  {
    assert 0 <= Depth(events, n);
    if n > 0 {
      OneFramePerWord(events, n - 1);
    }
  }

  /** The word that an open call pushed stays what it is until the stack shrinks past it. */
  lemma {:induction false} FrameStays(events: seq<Event>, i: nat, k: nat)
    requires WellNested(events) && i < k <= |events| && events[i].Call?
    requires forall m: nat :: i < m <= k ==> Depth(events, m) > Depth(events, i)
    ensures 0 <= Depth(events, i) < |Frames(events, k)|
    ensures Frames(events, k)[Depth(events, i)] == Address(events[i].address)
  {
    OneFramePerWord(events, k);
    OneFramePerWord(events, k - 1);
    assert 0 <= Depth(events, i) && Depth(events, k) > Depth(events, i);
    if k > i + 1 {
      FrameStays(events, i, k - 1);
    }
  }

  /** An event with what may happen right before and right behind it without an instruction of the program. */
  datatype Passage = Passage(before: View, ready: View, done: View, after: View)

  ghost predicate Passes(p: Passage, event: Event, base: u16, frames: seq<Slot>) {
    && Follows(p.before, Other(0), p.ready, base, frames)
    && Follows(p.ready, event, p.done, base, frames)
    && Follows(p.done, Other(0), p.after, base, After(frames, event))
  }

  ghost predicate PassesAt(passages: seq<Passage>, events: seq<Event>, base: u16, n: nat)
    requires |passages| == |events| && n < |events|
  {
    && Passes(passages[n], events[n], base, Frames(events, n))
    && (n > 0 ==> passages[n].before == passages[n - 1].after)
  }

  ghost predicate IsRun(passages: seq<Passage>, events: seq<Event>, base: u16) {
    && |passages| == |events| > 0
    && WellNested(events)
    && Low16(passages[0].before.sp) == base
    && forall n: nat :: n < |events| ==> PassesAt(passages, events, base, n)
  }

  lemma AfterNothing(frames: seq<Slot>)
    ensures After(frames, Other(0)) == frames
  {
  }

  lemma MovedTwice(r: u32, d: int, d': int)
    ensures Moved(Moved(r, d), d') == Moved(r, d + d')
  {
    var q := (r + d) / 0x1_0000_0000;
    assert r + d + d' == Moved(r, d) + d' + 0x1_0000_0000 * q;
  }

  /** A passage keeps the shadow, and a return in it goes to the innermost return address. */
  lemma PassageKeepsShadow(p: Passage, event: Event, base: u16, frames: seq<Slot>)
    requires Passes(p, event, base, frames) && Shadowed(p.before.sp, p.before.mem, base, frames)
    requires 0 <= |frames| + Grows(event) <= CAPACITY
    ensures Shadowed(p.after.sp, p.after.mem, base, After(frames, event))
    ensures event.Return? && frames[|frames| - 1].Address? ==> p.done.pc == frames[|frames| - 1].value
  {
    AfterNothing(frames);
    AfterNothing(After(frames, event));
    FollowsKeepsShadow(p.before, Other(0), p.ready, base, frames);
    FollowsKeepsShadow(p.ready, event, p.done, base, frames);
    FollowsKeepsShadow(p.done, Other(0), p.after, base, After(frames, event));
  }

  lemma PassageMovesStackPointer(p: Passage, event: Event, base: u16, frames: seq<Slot>)
    requires Passes(p, event, base, frames)
    ensures p.ready.sp == p.before.sp && p.after.sp == p.done.sp == Moved(p.before.sp, -2 * Grows(event))
  {
    hide Moved, SparesFrames, Set16, Get16;
    NotMoved(p.before.sp);
    NotMoved(p.done.sp);
  }

  lemma NothingIsShadowed(v: View, base: u16)
    requires |v.mem| == MEM_SIZE && Low16(v.sp) == base
    ensures Shadowed(v.sp, v.mem, base, [])
  {
    WrapsTo(base, base, 0);
  }

  lemma ShadowAdvances(passages: seq<Passage>, events: seq<Event>, base: u16, n: nat)
    requires IsRun(passages, events, base) && n + 1 < |events|
    requires Shadowed(passages[n].before.sp, passages[n].before.mem, base, Frames(events, n))
    ensures Shadowed(passages[n].after.sp, passages[n].after.mem, base, Frames(events, n + 1))
  {
    assert PassesAt(passages, events, base, n);
    OneFramePerWord(events, n);
    assert 0 <= Depth(events, n + 1) <= CAPACITY;
    PassageKeepsShadow(passages[n], events[n], base, Frames(events, n));
  }

  lemma PassagesJoin(passages: seq<Passage>, events: seq<Event>, base: u16, n: nat)
    requires IsRun(passages, events, base) && n < |events|
    ensures |passages[n].before.mem| == MEM_SIZE
    ensures n > 0 ==> passages[n].before == passages[n - 1].after
  {
    assert PassesAt(passages, events, base, n);
  }

  /** Before every event of a run, memory holds exactly the open return addresses, at the stack pointer. */
  lemma {:induction false} RunIsShadowed(passages: seq<Passage>, events: seq<Event>, base: u16, n: nat)
    requires IsRun(passages, events, base) && n < |events|
    ensures Shadowed(passages[n].before.sp, passages[n].before.mem, base, Frames(events, n))
  {
    PassagesJoin(passages, events, base, n);
    if n == 0 {
      NothingIsShadowed(passages[0].before, base);
    } else {
      RunIsShadowed(passages, events, base, n - 1);
      ShadowAdvances(passages, events, base, n - 1);
    }
  }

  lemma MovedFurther(start: u32, sp: u32, sp': u32, depth: int, words: int)
    requires sp == Moved(start, -2 * depth) && sp' == Moved(sp, -2 * words)
    ensures sp' == Moved(start, -2 * (depth + words))
  {
    MovedTwice(start, -2 * depth, -2 * words);
  }

  lemma StackPointerSteps(passages: seq<Passage>, events: seq<Event>, base: u16, n: nat)
    requires IsRun(passages, events, base) && n < |events|
    ensures passages[n].done.sp == Moved(passages[n].before.sp, -2 * Grows(events[n]))
    ensures n + 1 < |events| ==> passages[n + 1].before.sp == passages[n].done.sp
  {
    assert PassesAt(passages, events, base, n);
    PassageMovesStackPointer(passages[n], events[n], base, Frames(events, n));
    if n + 1 < |events| {
      assert PassesAt(passages, events, base, n + 1);
    }
  }

  lemma NotMoved(sp: u32)
    ensures Moved(sp, 0) == sp
  {
  }

  lemma {:induction false} StackPointerFollowsDepth(passages: seq<Passage>, events: seq<Event>, base: u16, n: nat)
    requires IsRun(passages, events, base) && n < |events|
    ensures passages[n].before.sp == Moved(passages[0].before.sp, -2 * Depth(events, n))
  {
    hide Moved, PassesAt, WellNested, Grows;
    if n == 0 {
      NotMoved(passages[0].before.sp);
    } else {
      StackPointerFollowsDepth(passages, events, base, n - 1);
      StackPointerSteps(passages, events, base, n - 1);
      MovedFurther(passages[0].before.sp, passages[n - 1].before.sp, passages[n].before.sp,
                   Depth(events, n - 1), Grows(events[n - 1]));
    }
  }

  /** The stack pointer behind an event is the one before any event of equal depth. */
  lemma StackPointerReturns(passages: seq<Passage>, events: seq<Event>, base: u16, i: nat, j: nat)
    requires IsRun(passages, events, base) && i < |events| && j < |events| && Depth(events, j + 1) == Depth(events, i)
    ensures passages[j].done.sp == passages[i].before.sp
  {
    StackPointerFollowsDepth(passages, events, base, i);
    StackPointerFollowsDepth(passages, events, base, j);
    StackPointerSteps(passages, events, base, j);
    MovedFurther(passages[0].before.sp, passages[j].before.sp, passages[j].done.sp,
                 Depth(events, j), Grows(events[j]));
  }

  /** A return goes to the return address on top of the stack. */
  lemma ReturnGoesToTop(passages: seq<Passage>, events: seq<Event>, base: u16, j: nat, address: u16)
    requires IsRun(passages, events, base) && j < |events| && events[j].Return?
    requires |Frames(events, j)| > 0 && Frames(events, j)[|Frames(events, j)| - 1] == Address(address)
    ensures passages[j].done.pc == address
  {
    OneFramePerWord(events, j);
    assert 0 <= Depth(events, j + 1) <= CAPACITY;
    RunIsShadowed(passages, events, base, j);
    assert PassesAt(passages, events, base, j);
    PassageKeepsShadow(passages[j], events[j], base, Frames(events, j));
  }

  /**
   In every well-nested run, the return that matches a call goes to the instruction after that call and leaves
   the stack pointer where it was before the call, whatever nests in between and wherever addresses wrap.
   */
  lemma MatchingReturn(passages: seq<Passage>, events: seq<Event>, base: u16, i: nat, j: nat)
    requires IsRun(passages, events, base) && i < j < |events| && events[i].Call? && events[j].Return?
    requires Depth(events, j + 1) == Depth(events, i)
    requires forall m: nat :: i < m <= j ==> Depth(events, m) > Depth(events, i)
    ensures passages[j].done.pc == events[i].address
    ensures passages[j].done.sp == passages[i].before.sp
  {
    FrameStays(events, i, j);
    OneFramePerWord(events, j);
    ReturnGoesToTop(passages, events, base, j, events[i].address);
    StackPointerReturns(passages, events, base, i, j);
  }

  /**
   The bound is exact: one call more than fits lands on the outermost word of the stack, where a return address
   survives only if both calls return to the same place.
   */
  lemma CallAtFullDepth(v: View, t: View, address: u16, base: u16, frames: seq<Slot>)
    requires Follows(v, Call(address), t, base, frames)
    requires Shadowed(v.sp, v.mem, base, frames) && |frames| == CAPACITY && frames[0].Address?
    ensures SlotHolds(t.mem, base, 0, frames[0]) <==> address == frames[0].value
  {
    TopMoves(v.sp, base, CAPACITY, 1);
    assert base - 2 * (CAPACITY + 1) == base - 2 + MEM_SIZE * -1;
    WrapMany(base - 2, -1);
    var a := SlotAddress(base, 0);
    WrapsTo(a, a, 0);
    SameAddress(v.mem, Moved(v.sp, -2), a, address);
    Set16RoundTrip(v.mem, a, address);
  }
}
