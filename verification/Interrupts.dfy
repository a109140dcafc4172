/**
 Which interrupt is taken, told from the bits of the registers: which request and enable bits each source has, in which
 order the sources are asked, and where each one enters.
 */
module Interrupts {
  import opened Words
  import opened H8
  import opened Machine
  import Runs
  import Ssu
  import Timers

  /**
   The sources of the dispatcher in the order in which it asks them: the center key, the three periods of the clock, and
   Timer B, which is asked only while the clock is disabled.
   */
  predicate Wants(mem: seq<u8>, source: nat)
    requires |mem| == MEM_SIZE
  {
    match source
    case 0 => mem[0xFFF6] % 2 == 1 && mem[0xFFF3] % 2 == 1
    case 1 => mem[0xFFF3] / 0x80 == 1 && mem[0xF067] % 2 == 1
    case 2 => mem[0xFFF3] / 0x80 == 1 && mem[0xF067] / 2 % 2 == 1
    case 3 => mem[0xFFF3] / 0x80 == 1 && mem[0xF067] / 4 % 2 == 1
    case 4 => mem[0xFFF3] / 0x80 == 0 && mem[0xFFF7] / 4 % 2 == 1 && mem[0xFFF4] / 4 % 2 == 1
    case _ => false
  }

  /** Where each of them enters. */
  function EntryOf(source: nat): u16 {
    match source
    case 0 => 0xa300
    case 1 => 0xa65e
    case 2 => 0xa674
    case 3 => 0xa682
    case _ => 0x06fa
  }

  const TIMER_W: u16 := 0x3a4a

  /** The source wants an interrupt and no earlier one does. */
  predicate IsFirst(mem: seq<u8>, source: nat)
    requires |mem| == MEM_SIZE
  {
    Wants(mem, source) && forall k: nat :: k < source ==> !Wants(mem, k)
  }

  /** The core behind an entry: at the entry, awake and masked, with the interrupted program counter and flags saved. */
  predicate Entered(c: Core, d: Core, entry: u16) {
    && d.pc == entry && !d.sleep && d.savedPc == c.pc && d.savedFlags == c.flags
    && d.flags == Flags(true, c.flags.UI, c.flags.H, c.flags.U, c.flags.N, c.flags.Z, c.flags.V, c.flags.C)
  }

  /**
   The dispatcher takes the entry of a source if and only if interrupts are unmasked and that source is the first that
   wants one; the center key's entry also queues that key and its release. It changes nothing else, and nothing at all
   if no source wants an interrupt or interrupts are masked.
   */
  lemma DispatchIsExact(s: State)
    requires Ok(s)
    ensures var c, d := s.cpu.core, Dispatch(s).cpu.core;
            && Dispatch(s) == s.(cpu := s.cpu.(core := d), inputs := Dispatch(s).inputs)
            && (c.flags.I || (forall k: nat :: !Wants(s.cpu.mem, k)) ==> Dispatch(s) == s)
            && (!c.flags.I ==> forall k: nat :: k < 5 ==> (Entered(c, d, EntryOf(k)) <==> IsFirst(s.cpu.mem, k)))
            && Dispatch(s).inputs == s.inputs + if !c.flags.I && Wants(s.cpu.mem, 0) then [1, 0] else []
  {
    var mem := s.cpu.mem;
    assert s.inputs + [] == s.inputs;
    if !s.cpu.core.flags.I {
      PendingIsFirst(mem);
    }
  }

  lemma PendingIsFirst(mem: seq<u8>)
    requires |mem| == MEM_SIZE
    ensures (forall k: nat :: !Wants(mem, k)) <==> Pending(mem).None?
    ensures forall k: nat :: k < 5 ==> (IsFirst(mem, k) <==> Pending(mem) == Some(EntryOf(k)))
  {
    hide EntryOf;
    PendingIsWanted(mem);
    if Pending(mem).None? {
      assert forall k: nat :: !Wants(mem, k);
    }
  }

  /** If one is pending it is that of the first source that wants one. */
  lemma PendingIsWanted(mem: seq<u8>)
    requires |mem| == MEM_SIZE
    ensures Pending(mem).None? ==> forall k: nat :: !Wants(mem, k)
    ensures Pending(mem).Some? ==> exists k: nat :: k < 5 && IsFirst(mem, k) && Pending(mem).value == EntryOf(k)
    ensures forall j: nat, k: nat :: j < k < 5 ==> EntryOf(j) != EntryOf(k)
  {
    if Pending(mem).Some? {
      var k := if Wants(mem, 0) then 0 else if Wants(mem, 1) then 1 else if Wants(mem, 2) then 2
               else if Wants(mem, 3) then 3 else 4;
      assert IsFirst(mem, k) && Pending(mem).value == EntryOf(k);
    }
  }

  // ---------------------------------------------------------------- in the calls of a run

  /** Masked, the clock takes no interrupt. */
  lemma MaskedStays(s: State)
    requires Ok(s) && s.cpu.core.flags.I && TwoCycles(s).Ran?
    ensures TwoCycles(s).value.cpu.core == s.cpu.core
  {
    Runs.TwoCyclesEnter(s);
  }

  lemma CycleEntersTimerW(s: State)
    requires Ok(s) && Cycle(s).Ran?
    ensures var c, d := s.cpu.core, Cycle(s).value.cpu.core;
            d == c || (!c.flags.I && Entered(c, d, TIMER_W))
  {
    hide SsuTick;
    var t := CountCycle(s);
    assert SsuPhase(t).value.cpu.core == s.cpu.core by {
      if t.cycles % SSU_PERIOD == 0 {
        TickKeepsCore(t);
      }
    }
  }

  lemma TickKeepsCore(s: State)
    requires Ok(s) && SsuTick(s).Ran?
    ensures SsuTick(s).value.cpu.core == s.cpu.core
  {
  }

  lemma ClockEntersTimerW(s: State)
    requires Ok(s) && TwoCycles(s).Ran?
    ensures var c, d := s.cpu.core, TwoCycles(s).value.cpu.core;
            d == c || (!c.flags.I && Entered(c, d, TIMER_W))
  {
    hide Cycle;
    CycleEntersTimerW(s);
    CycleEntersTimerW(Cycle(s).value);
  }

  /**
   What follows the instruction of a call: the entry of the first source that wants one, and only for want of any may
   Timer W enter; nothing while masked.
   */
  lemma CallTakesFirst(s: State, e: Effect, t: State)
    requires Ok(s) && Ok(t) && !Skipped(s.cpu.core) && Runs.Next(s, Runs.Call(e), t)
    ensures Instruct(s, e).Ran?
    ensures var left := Instruct(s, e).value;
            var c, mem, d := left.cpu.core, left.cpu.mem, t.cpu.core;
            && (c.flags.I ==> d == c)
            && (!c.flags.I ==> forall k: nat :: k < 5 && IsFirst(mem, k) ==> Entered(c, d, EntryOf(k)))
            && (!c.flags.I && (forall k: nat :: !Wants(mem, k)) ==> d == c || Entered(c, d, TIMER_W))
            && t.inputs == left.inputs + if !c.flags.I && Wants(mem, 0) then [1, 0] else []
  {
    hide Instruct, Wants, IsFirst, TwoCycles, Dispatch;
    var left := Instruct(s, e).value;
    DispatchIsExact(left);
    ClockEntersTimerW(Dispatch(left));
    Runs.TwoCyclesEnter(Dispatch(left));
  }

  /** The bits of the clock's register after a quarter second; nothing else in memory changes. */
  lemma QuarterRaisesFlags(s: State, half: bool, second: bool)
    requires Ok(s) && s.cycles >= 921600
    ensures var m, m' := s.cpu.mem, Runs.PassQuarter(s, half, second).cpu.mem;
            && m' == m[0xF067 := m'[0xF067]]
            && m'[0xF067] % 2 == 1
            && m'[0xF067] / 2 % 2 == (if half then 1 else m[0xF067] / 2 % 2)
            && m'[0xF067] / 4 % 2 == (if second then 1 else m[0xF067] / 4 % 2)
            && m'[0xF067] / 8 == m[0xF067] / 8
    ensures Runs.PassQuarter(s, half, second)
         == s.(cycles := s.cycles - 921600, cpu := s.cpu.(mem := Runs.PassQuarter(s, half, second).cpu.mem))
  {
    LowBits(s.cpu.mem[RTCFLG], half, second);
  }

  lemma RaiseLowest(byte: u8, raised: bool)
    ensures var b := RaiseIf(byte, 0x01, raised);
            b % 2 == (if raised then 1 else byte % 2) && b / 2 == byte / 2
  {
  }

  lemma RaiseSecond(byte: u8, raised: bool)
    ensures var b := RaiseIf(byte, 0x02, raised);
            b % 2 == byte % 2 && b / 2 % 2 == (if raised then 1 else byte / 2 % 2) && b / 4 == byte / 4
  {
  }

  lemma RaiseThird(byte: u8, raised: bool)
    ensures var b := RaiseIf(byte, 0x04, raised);
            && b % 2 == byte % 2 && b / 2 % 2 == byte / 2 % 2
            && b / 4 % 2 == (if raised then 1 else byte / 4 % 2) && b / 8 == byte / 8
  {
    if raised && !Has(byte, 0x04) {
      ShiftTwo(byte, 2);
      ShiftTwo(byte / 2, 1);
      NoCarry(byte, 4);
    }
  }

  lemma Halved(b: u8, c: u8)
    requires b / 2 == c / 2
    ensures b / 4 == c / 4 && b / 8 == c / 8
  {
    assert b / 4 == b / 2 / 2 && b / 8 == b / 2 / 4 && c / 4 == c / 2 / 2 && c / 8 == c / 2 / 4;
  }

  lemma Quartered(b: u8, c: u8)
    requires b / 4 == c / 4
    ensures b / 8 == c / 8
  {
    assert b / 8 == b / 4 / 2 && c / 8 == c / 4 / 2;
  }

  lemma LowBits(byte: u8, second: bool, third: bool)
    ensures var b := RaiseIf(RaiseIf(Raise(byte, 0x01), 0x02, second), 0x04, third);
            && b % 2 == 1
            && b / 2 % 2 == (if second then 1 else byte / 2 % 2)
            && b / 4 % 2 == (if third then 1 else byte / 4 % 2)
            && b / 8 == byte / 8
  {
    assert Raise(byte, 0x01) == RaiseIf(byte, 0x01, true);
    hide RaiseIf;
    var b1 := RaiseIf(byte, 0x01, true);
    var b2 := RaiseIf(b1, 0x02, second);
    RaiseLowest(byte, true);
    RaiseSecond(b1, second);
    RaiseThird(b2, third);
    Halved(b1, byte);
    Quartered(b2, b1);
  }

  /** The program left the clock's flags, its enable bit and the mask alone, and no center key waits to be taken. */
  predicate LeavesClock(before: Cpu, after: Cpu)
    requires Sized(before) && Sized(after)
  {
    && after.mem[0xF067] == before.mem[0xF067] && after.mem[0xFFF3] == before.mem[0xFFF3]
    && after.core.flags.I == before.core.flags.I
    && !Wants(after.mem, 0)
  }

  /** A call right behind a quarter second. */
  lemma QuarterThenCall(s: State, half: bool, second: bool, u: State, e: Effect, t: State)
    requires Ok(s) && Ok(t) && s.cycles >= 921600 && !s.cpu.core.flags.I && s.cpu.mem[0xFFF3] >= 0x80
    requires u == Runs.PassQuarter(s, half, second) && !Skipped(s.cpu.core)
    requires Runs.Next(u, Runs.Call(e), t) && Admissible(e, u.cpu.core.flags) && Instruct(u, e).Ran?
    requires LeavesClock(u.cpu, Instruct(u, e).value.cpu)
    ensures Entered(Instruct(u, e).value.cpu.core, t.cpu.core, 0xa65e)
  {
    hide Instruct, Runs.Next, Runs.PassQuarter, Entered;
    QuarterRaisesFlags(s, half, second);
    var left := Instruct(u, e).value;
    assert left.cpu.mem[0xFFF3] / 0x80 == 1 && left.cpu.mem[0xF067] % 2 == 1;
    assert IsFirst(left.cpu.mem, 1);
    CallTakesFirst(u, e, t);
    assert EntryOf(1) == 0xa65e;
  }

  /**
   In every run, a quarter second that passes while interrupts are unmasked and the clock's are enabled leads to its
   handler with the next call, and wakes a program that sleeps, unless a center key comes first or the instruction
   of that call changes the clock's registers or the mask. The handler finds the program where the instruction left it.
   */
  lemma QuarterIsHandled(states: seq<State>, actions: seq<Runs.Action>, n: nat)
    requires Runs.IsRun(states, actions) && n + 2 <= |actions| && Ok(states[n]) && Ok(states[n + 1])
    requires actions[n].Quarter? && actions[n + 1].Call? && !Skipped(states[n].cpu.core)
    requires !states[n].cpu.core.flags.I && states[n].cpu.mem[0xFFF3] >= 0x80
    requires Admissible(actions[n + 1].e, states[n + 1].cpu.core.flags)
    requires Instruct(states[n + 1], actions[n + 1].e).Ran?
    requires LeavesClock(states[n + 1].cpu, Instruct(states[n + 1], actions[n + 1].e).value.cpu)
    ensures Entered(Instruct(states[n + 1], actions[n + 1].e).value.cpu.core, states[n + 2].cpu.core, 0xa65e)
  {
    hide Instruct, LeavesClock, Entered, Turn;
    assert Runs.NextAt(states, actions, n) && Runs.NextAt(states, actions, n + 1);
    QuarterThenCall(states[n], actions[n].half, actions[n].second, states[n + 1], actions[n + 1].e, states[n + 2]);
  }

  lemma AsleepLeavesAll(s: State, e: Effect)
    requires Ok(s) && Admissible(e, s.cpu.core.flags) && s.cpu.core.sleep
    ensures Instruct(s, e) == Ssu.Ran(s)
  {
  }

  /** So a sleeping program is woken by it and goes on behind its SLEEP once the handler returns. */
  lemma QuarterWakesSleeper(states: seq<State>, actions: seq<Runs.Action>, n: nat)
    requires Runs.IsRun(states, actions) && n + 2 <= |actions| && Ok(states[n])
    requires actions[n].Quarter? && actions[n + 1].Call? && states[n].cpu.core.sleep
    requires !states[n].cpu.core.flags.I && states[n].cpu.mem[0xFFF3] >= 0x80 && !Wants(states[n].cpu.mem, 0)
    ensures Entered(states[n].cpu.core, states[n + 2].cpu.core, 0xa65e)
  {
    hide Instruct, Entered, Turn;
    assert Runs.NextAt(states, actions, n) && Runs.NextAt(states, actions, n + 1);
    QuarterRaisesFlags(states[n], actions[n].half, actions[n].second);
    AsleepLeavesAll(states[n + 1], actions[n + 1].e);
    QuarterIsHandled(states, actions, n);
  }

  // ---------------------------------------------------------------- the center key

  /**
   In every run, the center key pressed while interrupts are unmasked, its own enabled, leads to its handler with the
   next call, which queues the key and its release, unless the instruction of that call changes its registers or the
   mask.
   */
  lemma CenterKeyIsHandled(states: seq<State>, actions: seq<Runs.Action>, n: nat)
    requires Runs.IsRun(states, actions) && n + 2 <= |actions| && Ok(states[n]) && Ok(states[n + 1])
    requires actions[n].Press? && actions[n].key % 2 == 1 && actions[n + 1].Call? && !Skipped(states[n].cpu.core)
    requires !states[n].cpu.core.flags.I && states[n].cpu.mem[0xFFF3] % 2 == 1
    requires Admissible(actions[n + 1].e, states[n + 1].cpu.core.flags)
    requires Instruct(states[n + 1], actions[n + 1].e).Ran?
    requires var u, left := states[n + 1].cpu, Instruct(states[n + 1], actions[n + 1].e).value.cpu;
             && left.mem[0xFFF6] == u.mem[0xFFF6] && left.mem[0xFFF3] == u.mem[0xFFF3]
             && left.core.flags.I == u.core.flags.I
    ensures var left, t := Instruct(states[n + 1], actions[n + 1].e).value, states[n + 2];
            Entered(left.cpu.core, t.cpu.core, 0xa300) && t.inputs == left.inputs + [1, 0]
  {
    hide Instruct, Entered, Turn;
    assert Runs.NextAt(states, actions, n) && Runs.NextAt(states, actions, n + 1);
    PressRequests(states[n], actions[n].key);
    var left := Instruct(states[n + 1], actions[n + 1].e).value;
    assert IsFirst(left.cpu.mem, 0);
    CallTakesFirst(states[n + 1], actions[n + 1].e, states[n + 2]);
    assert EntryOf(0) == 0xa300;
  }

  /**
   What a key press does: the center key requests its interrupt and nothing else while interrupts are unmasked; any
   other key, or the center key while they are masked, is queued with its release behind it, and wakes the program.
   */
  lemma PressRequests(s: State, key: u8)
    requires Ok(s)
    ensures var t, m := Runs.PressKey(s, key), s.cpu.mem;
            if !s.cpu.core.flags.I && key % 2 == 1
            then t == s.(cpu := s.cpu.(mem := m[0xFFF6 := t.cpu.mem[0xFFF6]]))
                 && t.cpu.mem[0xFFF6] % 2 == 1 && t.cpu.mem[0xFFF6] / 2 == m[0xFFF6] / 2
            else t == s.(inputs := s.inputs + [key, 0], cpu := s.cpu.(core := s.cpu.core.(sleep := false)))
  {
    RaiseLowest(s.cpu.mem[IRR1], true);
  }
}
