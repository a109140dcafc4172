/**
 Whole runs of the machine: calls of `runNextInstruction` interleaved with key presses, clock interrupts and
 display refreshes. Interrupts are transparent, keys reach the program in pairs, and the clocks keep pace.
 */
module Runs {
  import opened Words
  import opened H8
  import opened Machine
  import Ssu
  import Timers

  /** Cycles in a quarter second; the host takes them off the counter when they have passed. */
  const QUARTER: int := 921600

  datatype Action =
    | Call(e: Effect)
    | Press(key: u8)
    | Quarter(half: bool, second: bool) // a quarter second passed, perhaps also a half or a whole one
    | Display

  /** A press of the center key requests an interrupt unless masked; any other press is queued with its release. */
  predicate Requests(s: State, key: u8) { !s.cpu.core.flags.I && Has(key, 0x01) }

  function Requested(s: State): (r: State)
    requires Ok(s)
    ensures Ok(r)
  {
    s.(cpu := s.cpu.(mem := s.cpu.mem[IRR1 := Raise(s.cpu.mem[IRR1], 0x01)]))
  }

  function Awake(s: State): (r: State)
    requires Ok(s)
    ensures Ok(r)
  {
    s.(cpu := s.cpu.(core := s.cpu.core.(sleep := false)))
  }

  function WithKey(s: State, key: u8): (r: State)
    requires Ok(s)
    ensures Ok(r)
  {
    s.(inputs := s.inputs + [key, 0])
  }

  function Queued(s: State, key: u8): (r: State)
    requires Ok(s)
    ensures Ok(r)
  {
    Awake(WithKey(s, key))
  }

  function PressKey(s: State, key: u8): (r: State)
    requires Ok(s)
    ensures Ok(r)
  {
    if Requests(s, key) then Requested(s) else Queued(s, key)
  }

  function RequestQuarter(s: State, half: bool, second: bool): (r: State)
    requires Ok(s)
    ensures Ok(r)
  {
    var flags := RaiseIf(RaiseIf(Raise(s.cpu.mem[RTCFLG], 0x01), 0x02, half), 0x04, second);
    s.(cpu := s.cpu.(mem := s.cpu.mem[RTCFLG := flags]))
  }

  function WithoutQuarter(s: State): (r: State)
    requires Ok(s) && s.cycles >= QUARTER
    ensures Ok(r)
  {
    s.(cycles := s.cycles - QUARTER)
  }

  function PassQuarter(s: State, half: bool, second: bool): (r: State)
    requires Ok(s) && s.cycles >= QUARTER
    ensures Ok(r)
  {
    RequestQuarter(WithoutQuarter(s), half, second)
  }

  function Refresh(s: State): (r: State)
    requires Ok(s)
    ensures Ok(r)
  {
    s.(peripherals := s.peripherals.(lcd := s.peripherals.lcd.(secondBuffer := !s.peripherals.lcd.secondBuffer)))
  }

  ghost predicate Next(s: State, a: Action, t: State)
    requires Ok(s)
  {
    match a
    case Call(e) => Admissible(e, s.cpu.core.flags) && Turn(s, e) == Ssu.Ran(t)
    case Press(key) => t == PressKey(s, key)
    case Quarter(half, second) => s.cycles >= QUARTER && t == PassQuarter(s, half, second)
    case Display => t == Refresh(s)
  }

  /** The action executes an instruction. */
  predicate Executes(s: State, a: Action) { a.Call? && !s.cpu.core.sleep && !Skipped(s.cpu.core) }

  ghost predicate NextAt(states: seq<State>, actions: seq<Action>, i: nat)
    requires |states| == |actions| + 1 && i < |actions|
  {
    Ok(states[i]) && Ok(states[i + 1]) && Next(states[i], actions[i], states[i + 1])
  }

  ghost predicate IsRun(states: seq<State>, actions: seq<Action>) {
    && |states| == |actions| + 1
    && Ok(states[0])
    && forall i: nat :: i < |actions| ==> NextAt(states, actions, i)
  }

  // ---------------------------------------------------------------- what one call executes

  /**
   What the program finds when an instruction is executed: the next queued key at 0xFFDE if it is the instruction at
   0x9b84, 50 watts at 0xF78E if it is the one at 0x79b8, and else what was there.
   */
  lemma ProgramFinds(s: State)
    requires Ok(s)
    ensures var pc, m, t := s.cpu.core.pc, s.cpu.mem, Prepare(s);
            var taken := pc == 0x9b84 && s.inputs != [];
            && t == s.(cpu := s.cpu.(mem := t.cpu.mem), inputs := if taken then s.inputs[1..] else s.inputs)
            && t.cpu.mem == (if taken then m[0xFFDE := s.inputs[0] % 0x100]
                             else if pc == 0x79b8 then m[0xF78E := 0][0xF78F := 50] else m)
  {
    Set16Same(TakenKeys(s).cpu.mem, WATTS);
    assert s.cpu.mem[KEYS := s.cpu.mem[KEYS]] == s.cpu.mem;
  }

  /** An awake call executes one instruction on what the program finds; asleep it executes none. */
  lemma CallExecutesOne(s: State, e: Effect)
    requires Ok(s) && Admissible(e, s.cpu.core.flags) && !Skipped(s.cpu.core)
    ensures s.cpu.core.sleep ==> Instruct(s, e) == Ssu.Ran(s)
    ensures !s.cpu.core.sleep ==>
              && (Instruct(s, e).Ran? <==> Step(Prepare(s).cpu, e).Some?)
              && (Instruct(s, e).Ran? ==> Instruct(s, e).value.cpu == Step(Prepare(s).cpu, e).value)
    ensures Turn(s, e) == if Instruct(s, e).Ran? then TwoCycles(Dispatch(Instruct(s, e).value)) else Instruct(s, e)
  {
    hide Perform, Decode, Dispatch, TwoCycles;
  }

  /** Awake at one of three addresses, a call goes on behind the call or SLEEP there, and no time passes. */
  lemma SkipsGoOn(s: State, e: Effect)
    requires Ok(s) && Admissible(e, s.cpu.core.flags)
    ensures Skipped(s.cpu.core) <==> !s.cpu.core.sleep && s.cpu.core.pc in {0x336, 0x350, 0x7700}
    ensures Skipped(s.cpu.core) ==>
              var pc, er := s.cpu.core.pc, s.cpu.er;
              Turn(s, e)
              == Ssu.Ran(s.(cpu := s.cpu.(core := s.cpu.core.(pc := if pc == 0x7700 then 0x7702 else pc + 4),
                                          er := if pc == 0x350 then er[0 := er[0] / 0x100 * 0x100] else er)))
  {
    assert s.cpu.er[0 := s.cpu.er[0]] == s.cpu.er;
  }

  // ---------------------------------------------------------------- what one call does to the core

  /** The processor once the instruction part of a call is done. */
  function Instructed(s: State, e: Effect): Cpu
    requires Ok(s) && Admissible(e, s.cpu.core.flags) && Instruct(s, e).Ran?
  {
    Instruct(s, e).value.cpu
  }

  function AfterInstruction(s: State, e: Effect): Core
    requires Ok(s) && Admissible(e, s.cpu.core.flags) && Instruct(s, e).Ran?
  {
    Instructed(s, e).core
  }

  /** The call executes an instruction that loads the condition codes. */
  predicate LoadsCcr(s: State)
    requires Ok(s)
  {
    !s.cpu.core.sleep && !Skipped(s.cpu.core) && Decode(Prepare(s).cpu).LoadCcr?
  }

  /** The condition codes that the call loads leave interrupts unmasked. */
  predicate Unmasks(s: State)
    requires Ok(s)
  {
    LoadsCcr(s) && !Has(Decode(Prepare(s).cpu).value, 0x80)
  }

  predicate Returns(s: State)
    requires Ok(s)
  {
    !s.cpu.core.sleep && !Skipped(s.cpu.core) && Decode(Prepare(s).cpu).ReturnInterrupt?
  }

  const VECTORS: set<u16> := {VECTOR_IRQ0, VECTOR_RTC_QUARTER_SEC, VECTOR_RTC_HALF_SEC, VECTOR_RTC_EVERY_SEC,
                              VECTOR_TIMER_B1, Timers.VECTOR_TIMER_W}

  /** Nothing, or the entry of one interrupt, which needs interrupts unmasked. */
  predicate AtMostOneEntry(c: Core, d: Core) {
    d == c || (!c.flags.I && d.pc in VECTORS && d == Enter(c, d.pc))
  }

  lemma PerformCore(c: Cpu, i: Insn, e: Effect)
    requires Sized(c) && Admissible(e, c.core.flags) && Perform(c, i, e).Some?
    ensures var d := Advance(Perform(c, i, e).value).core;
            && d.savedPc == c.core.savedPc && d.savedFlags == c.core.savedFlags
            && (i.ReturnInterrupt? ==> d.pc == c.core.savedPc && d.flags == c.core.savedFlags)
            && (i.LoadCcr? ==> d.pc == Low16(c.core.pc + 2) && d.flags == FlagsLoad(i.value))
            && (!i.ReturnInterrupt? && !i.LoadCcr? ==> d.flags.I == c.core.flags.I)
  {
    WrapOnce(c.core.savedPc - 2, 2);
  }

  lemma InstructCore(s: State, e: Effect)
    requires Ok(s) && Admissible(e, s.cpu.core.flags) && Instruct(s, e).Ran? && !Skipped(s.cpu.core)
    ensures var c, d := s.cpu.core, AfterInstruction(s, e);
            && d.savedPc == c.savedPc && d.savedFlags == c.savedFlags
            && (Returns(s) ==> d.pc == c.savedPc && d.flags == c.savedFlags)
            && (LoadsCcr(s) ==>
                  d.pc == Low16(c.pc + 2) && d.flags == FlagsLoad(Decode(Prepare(s).cpu).value))
            && (!Returns(s) && !LoadsCcr(s) ==> d.flags.I == c.flags.I)
  {
    if !s.cpu.core.sleep {
      PerformCore(Prepare(s).cpu, Decode(Prepare(s).cpu), e);
    }
  }

  lemma DispatchEnters(s: State)
    requires Ok(s)
    ensures AtMostOneEntry(s.cpu.core, Dispatch(s).cpu.core)
  {
  }

  lemma CycleEnters(s: State)
    requires Ok(s) && Cycle(s).Ran?
    ensures AtMostOneEntry(s.cpu.core, Cycle(s).value.cpu.core)
    ensures Cycle(s).value.inputs == s.inputs
  {
  }

  lemma TwoCyclesEnter(s: State)
    requires Ok(s) && TwoCycles(s).Ran?
    ensures AtMostOneEntry(s.cpu.core, TwoCycles(s).value.cpu.core)
    ensures TwoCycles(s).value.inputs == s.inputs
  {
    var t := Cycle(s).value;
    CycleEnters(s);
    CycleEnters(t);
    EntriesCompose(s.cpu.core, t.cpu.core, Cycle(t).value.cpu.core);
  }

  /** Entries do not chain: the first masks the second. */
  lemma EntriesCompose(a: Core, b: Core, c: Core)
    requires AtMostOneEntry(a, b) && AtMostOneEntry(b, c)
    ensures AtMostOneEntry(a, c)
  {
  }

  /** A call is its instruction followed by at most one interrupt entry. */
  lemma CallIsInstructionThenEntry(s: State, e: Effect)
    requires Ok(s) && Admissible(e, s.cpu.core.flags) && !Skipped(s.cpu.core)
    ensures Turn(s, e).Ran? ==> Instruct(s, e).Ran?
    ensures Turn(s, e).Ran? ==> AtMostOneEntry(AfterInstruction(s, e), Turn(s, e).value.cpu.core)
  {
    if Turn(s, e).Ran? {
      var s1 := Instruct(s, e).value;
      var s2 := Dispatch(s1);
      DispatchEnters(s1);
      TwoCyclesEnter(s2);
      EntriesCompose(s1.cpu.core, s2.cpu.core, TwoCycles(s2).value.cpu.core);
    }
  }

  // ---------------------------------------------------------------- interrupts are transparent

  /** What one action does to the saved copy and to the mask. */
  lemma ActionKeepsSaved(s: State, a: Action, t: State)
    requires Ok(s) && Ok(t) && Next(s, a, t)
    requires s.cpu.core.flags.I && !(a.Call? && Unmasks(s))
    ensures var c, d := s.cpu.core, t.cpu.core;
            && d.savedPc == c.savedPc && d.savedFlags == c.savedFlags
            && (!d.flags.I ==> d.pc == c.savedPc && d.flags == c.savedFlags)
  {
    if a.Call? && !Skipped(s.cpu.core) {
      CallIsInstructionThenEntry(s, a.e);
      InstructCore(s, a.e);
    }
  }

  /**
   While a handler runs, every further interrupt chained to it saves the same program counter and flags. The
   handler may load the condition codes as long as it keeps interrupts masked.
   */
  lemma {:induction false} HandlerKeepsSaved(states: seq<State>, actions: seq<Action>, from: nat, n: nat)
    requires IsRun(states, actions) && from <= n <= |actions|
    requires forall i: nat :: from <= i < n ==>
               states[i].cpu.core.flags.I && Ok(states[i]) && !(actions[i].Call? && Unmasks(states[i]))
    ensures states[n].cpu.core.savedPc == states[from].cpu.core.savedPc
    ensures states[n].cpu.core.savedFlags == states[from].cpu.core.savedFlags
  {
    hide Next, Unmasks;
    if n > from {
      HandlerKeepsSaved(states, actions, from, n - 1);
      assert NextAt(states, actions, n - 1);
      ActionKeepsSaved(states[n - 1], actions[n - 1], states[n]);
    }
  }

  /** What an interrupt that took over from core `c` keeps of it. */
  predicate Holds(s: State, c: Core) { s.cpu.core.savedPc == c.pc && s.cpu.core.savedFlags == c.flags }

  /** Core `c` is not lost: it is still saved, or, with interrupts unmasked again, back in place. */
  predicate Keeps(s: State, c: Core) {
    if s.cpu.core.flags.I then Holds(s, c) else s.cpu.core.pc == c.pc && s.cpu.core.flags == c.flags
  }

  lemma ActionKeeps(s: State, a: Action, t: State, c: Core)
    requires Ok(s) && Ok(t) && Next(s, a, t) && Holds(s, c)
    requires s.cpu.core.flags.I && !(a.Call? && Unmasks(s))
    ensures Keeps(t, c)
  {
    ActionKeepsSaved(s, a, t);
  }

  /**
   An LDC that unmasks interrupts ends the handler: the machine is left with interrupts unmasked at the address
   behind the LDC, or has saved that address for a further interrupt. Either way the core that the first interrupt
   took over from is lost, unless it happens to be the one that the LDC makes.
   */
  lemma UnmaskingLosesSaved(s: State, e: Effect, t: State, c: Core)
    requires Ok(s) && Ok(t) && Next(s, Call(e), t) && Holds(s, c) && s.cpu.core.flags.I && Unmasks(s)
    ensures var behind, flags := Low16(s.cpu.core.pc + 2), FlagsLoad(Decode(Prepare(s).cpu).value);
            && (if t.cpu.core.flags.I then t.cpu.core.savedPc == behind && t.cpu.core.savedFlags == flags
                else t.cpu.core.pc == behind && t.cpu.core.flags == flags)
            && (Keeps(t, c) <==> behind == c.pc && flags == c.flags)
  {
    CallIsInstructionThenEntry(s, e);
    InstructCore(s, e);
  }

  lemma OneActionRun(s: State, a: Action, t: State)
    requires Ok(s) && Ok(t) && Next(s, a, t)
    ensures IsRun([s, t], [a])
  {
    assert NextAt([s, t], [a], 0);
  }

  /** A handler at 0x100 that begins with LDC #0, CCR; everything else in memory is zero. */
  function Unmasker(saved: u16): (s: State)
    ensures Ok(s)
  {
    var memory := seq(MEM_SIZE, a => if a == 0x100 then 0x07 else 0);
    State(Cpu(Core(0x100, CLEAR.(I := true), saved, CLEAR, false), seq(8, _ => 0), memory),
          PowerOn(seq(Ssu.EEPROM_SIZE, _ => 0)), Latches(false, false, 0, 0, 0), 0, [])
  }

  lemma UnmaskerDecodes(saved: u16)
    ensures Decode(Unmasker(saved).cpu) == LoadCcr(0) && Prepare(Unmasker(saved)) == Unmasker(saved)
  {
    var s := Unmasker(saved);
    Set16Same(s.cpu.mem, WATTS);
    assert s.cpu.mem[KEYS := s.cpu.mem[KEYS]] == s.cpu.mem;
    assert Get16(s.cpu.mem, 0x100) == 0x0700;
  }

  lemma LdcCarries(s: State, value: u8, e: Effect)
    requires Ok(s) && Admissible(e, s.cpu.core.flags)
    ensures Carry(s, LoadCcr(value), e).Ran?
    ensures var t := Carry(s, LoadCcr(value), e).value;
            && t.cpu == s.cpu.(core := s.cpu.core.(pc := Low16(s.cpu.core.pc + 2), flags := FlagsLoad(value)))
            && t.cycles == s.cycles
  {
  }

  lemma QuietCycle(s: State)
    requires Ok(s) && CountCycle(s).cycles % SSU_PERIOD != 0 && CountCycle(s).cycles % SUB_CLOCK_PERIOD != 0
    ensures Cycle(s) == Ssu.Ran(CountCycle(s))
  {
    assert SsuPhase(CountCycle(s)) == Ssu.Ran(CountCycle(s));
  }

  /** Without a request the first two cycles leave the processor alone. */
  lemma FirstCyclesAreQuiet(s: State)
    requires Ok(s) && s.cycles == 0 && Pending(s.cpu.mem).None?
    ensures TwoCycles(Dispatch(s)).Ran? && TwoCycles(Dispatch(s)).value.cpu == s.cpu
  {
    assert Dispatch(s) == s;
    QuietCycle(s);
    QuietCycle(CountCycle(s));
  }

  lemma UnmaskerTurns(saved: u16, e: Effect)
    requires Admissible(e, CLEAR.(I := true))
    ensures Turn(Unmasker(saved), e).Ran?
    ensures Turn(Unmasker(saved), e).value.cpu.core == Core(0x102, CLEAR, saved, CLEAR, false)
  {
    hide TwoCycles, Carry, Decode, Perform;
    var s := Unmasker(saved);
    UnmaskerDecodes(saved);
    LdcCarries(s, 0, e);
    FirstCyclesAreQuiet(Carry(s, LoadCcr(0), e).value);
  }

  /**
   Its first step goes on behind the LDC with interrupts unmasked, instead of at the saved address and without any
   RTE.
   */
  lemma UnmaskerLosesSaved(saved: u16, e: Effect)
    requires Admissible(e, CLEAR.(I := true)) && saved != 0x102
    ensures var s, c := Unmasker(saved), Core(saved, CLEAR, 0, CLEAR, false);
            && Turn(s, e).Ran? && IsRun([s, Turn(s, e).value], [Call(e)])
            && Holds(s, c) && Unmasks(s) && !Keeps(Turn(s, e).value, c)
  {
    var s := Unmasker(saved);
    UnmaskerTurns(saved, e);
    UnmaskerDecodes(saved);
    OneActionRun(s, Call(e), Turn(s, e).value);
  }

  /**
   An interrupt that takes over from core `c` gives it back: however many interrupts are chained behind it, the
   first state with interrupts unmasked again has exactly the program counter and the flags of `c`, unless the
   handler unmasks them itself.
   */
  lemma InterruptsAreTransparent(states: seq<State>, actions: seq<Action>, from: nat, n: nat, c: Core)
    requires IsRun(states, actions) && from < n <= |actions|
    requires Holds(states[from], c)
    requires forall i: nat :: from <= i < n ==>
               states[i].cpu.core.flags.I && Ok(states[i]) && !(actions[i].Call? && Unmasks(states[i]))
    requires !states[n].cpu.core.flags.I
    ensures states[n].cpu.core.pc == c.pc && states[n].cpu.core.flags == c.flags
  {
    hide Next, Unmasks;
    HandlerKeepsSaved(states, actions, from, n - 1);
    assert Holds(states[n - 1], c);
    assert NextAt(states, actions, n - 1);
    ActionKeeps(states[n - 1], actions[n - 1], states[n], c);
  }

  /**
   So an instruction of the interrupted program is neither lost nor repeated: the program goes on where the
   instruction of the call in which the interrupt came had left it.
   */
  lemma InterruptedProgramResumes(states: seq<State>, actions: seq<Action>, n: nat)
    requires IsRun(states, actions) && 1 < n <= |actions|
    requires actions[0].Call? && !Skipped(states[0].cpu.core)
    requires forall i: nat :: 1 <= i < n ==>
               states[i].cpu.core.flags.I && Ok(states[i]) && !(actions[i].Call? && Unmasks(states[i]))
    requires !states[n].cpu.core.flags.I
    ensures Ok(states[0]) && Admissible(actions[0].e, states[0].cpu.core.flags)
    ensures Instruct(states[0], actions[0].e).Ran?
    ensures var left := AfterInstruction(states[0], actions[0].e);
            !left.flags.I ==> states[n].cpu.core.pc == left.pc && states[n].cpu.core.flags == left.flags
  {
    assert NextAt(states, actions, 0);
    CallIsInstructionThenEntry(states[0], actions[0].e);
    var left := AfterInstruction(states[0], actions[0].e);
    if !left.flags.I {
      assert Holds(states[1], left);
      InterruptsAreTransparent(states, actions, 1, n, left);
    }
  }

  lemma ActionKeepsSavedUnmasked(s: State, a: Action, t: State)
    requires Ok(s) && Ok(t) && Next(s, a, t) && !s.cpu.core.savedFlags.I
    ensures !t.cpu.core.savedFlags.I
  {
    if a.Call? && !Skipped(s.cpu.core) {
      CallIsInstructionThenEntry(s, a.e);
      InstructCore(s, a.e);
    }
  }

  /** In every reachable state the saved flags have interrupts unmasked. */
  lemma {:induction false} SavedFlagsUnmasked(states: seq<State>, actions: seq<Action>, n: nat)
    requires IsRun(states, actions) && n <= |actions| && !states[0].cpu.core.savedFlags.I
    ensures !states[n].cpu.core.savedFlags.I
  {
    hide Next;
    if n > 0 {
      SavedFlagsUnmasked(states, actions, n - 1);
      assert NextAt(states, actions, n - 1);
      ActionKeepsSavedUnmasked(states[n - 1], actions[n - 1], states[n]);
    }
  }

  // ---------------------------------------------------------------- clocks

  /** Sub clock ticks in a quarter second: the host's subtraction is no multiple of the sub clock's period. */
  const QUARTER_TICKS: nat := 8228

  /** Calls that took time, among the first `n` actions. */
  function TimedCalls(states: seq<State>, actions: seq<Action>, n: nat): nat
    requires |states| == |actions| + 1 && n <= |actions|
  {
    if n == 0 then 0
    else
      var timed := actions[n - 1].Call? && !Skipped(states[n - 1].cpu.core);
      TimedCalls(states, actions, n - 1) + if timed then 1 else 0
  }

  function Quarters(actions: seq<Action>, n: nat): nat
    requires n <= |actions|
  {
    if n == 0 then 0 else Quarters(actions, n - 1) + if actions[n - 1].Quarter? then 1 else 0
  }

  /** The host takes a quarter second off the counter before it lets the machine go on. */
  ghost predicate Prompt(states: seq<State>, actions: seq<Action>, n: nat)
    requires |states| == |actions| + 1 && n <= |actions|
  {
    forall i: nat :: i < n && actions[i].Call? ==> states[i].cycles < QUARTER
  }

  lemma SsuPhaseCounts(s: State)
    requires Ok(s) && SsuPhase(s).Ran?
    ensures SsuPhase(s).value.cycles == s.cycles && SsuPhase(s).value.latches.sub == s.latches.sub
    ensures SsuPhase(s).value.latches.serial
         == s.latches.serial + if s.cycles % SSU_PERIOD == 0 then 1 else 0
  {
  }

  lemma SubClockPhaseCounts(s: State)
    requires Ok(s)
    ensures SubClockPhase(s).cycles == s.cycles && SubClockPhase(s).latches.serial == s.latches.serial
    ensures SubClockPhase(s).latches.sub == s.latches.sub + if s.cycles % SUB_CLOCK_PERIOD == 0 then 1 else 0
  {
  }

  lemma PhasesCount(s: State)
    requires Ok(s) && Phases(s).Ran?
    ensures Phases(s).value.cycles == s.cycles
    ensures Phases(s).value.latches.serial == s.latches.serial + if s.cycles % SSU_PERIOD == 0 then 1 else 0
    ensures Phases(s).value.latches.sub == s.latches.sub + if s.cycles % SUB_CLOCK_PERIOD == 0 then 1 else 0
  {
    SsuPhaseCounts(s);
    SubClockPhaseCounts(SsuPhase(s).value);
  }

  lemma NextQuotients(n: nat)
    ensures (n + 1) / SSU_PERIOD == n / SSU_PERIOD + if (n + 1) % SSU_PERIOD == 0 then 1 else 0
    ensures (n + 1) / SUB_CLOCK_PERIOD == n / SUB_CLOCK_PERIOD + if (n + 1) % SUB_CLOCK_PERIOD == 0 then 1 else 0
  {
    assert (n + 1) / 4 == n / 4 + if (n + 1) % 4 == 0 then 1 else 0;
    assert (n + 1) / 112 == n / 112 + if (n + 1) % 112 == 0 then 1 else 0;
  }

  /** Both counts follow the cycle counter, from wherever they stand. */
  predicate InPace(s: State, t: State) {
    && t.latches.serial - s.latches.serial == t.cycles / SSU_PERIOD - s.cycles / SSU_PERIOD
    && t.latches.sub - s.latches.sub == t.cycles / SUB_CLOCK_PERIOD - s.cycles / SUB_CLOCK_PERIOD
  }

  lemma PaceComposes(s: State, t: State, u: State)
    requires InPace(s, t) && InPace(t, u)
    ensures InPace(s, u)
  {
  }

  lemma CycleCounts(s: State)
    requires Ok(s) && Cycle(s).Ran?
    ensures Cycle(s).value.cycles == s.cycles + 1 && InPace(s, Cycle(s).value)
  {
    PhasesCount(CountCycle(s));
    NextQuotients(s.cycles);
  }

  lemma TwoCyclesCount(s: State)
    requires Ok(s) && TwoCycles(s).Ran?
    ensures TwoCycles(s).value.cycles == s.cycles + 2 && InPace(s, TwoCycles(s).value)
  {
    var t := Cycle(s).value;
    CycleCounts(s);
    CycleCounts(t);
    PaceComposes(s, t, Cycle(t).value);
  }

  /** What an action does to the counter and to both counts. */
  lemma ActionCounts(s: State, a: Action, t: State)
    requires Ok(s) && Ok(t) && Next(s, a, t)
    ensures t.cycles == s.cycles + (if a.Call? && !Skipped(s.cpu.core) then 2 else if a.Quarter? then -QUARTER else 0)
    ensures if a.Quarter? then t.latches == s.latches else InPace(s, t)
  {
    if a.Call? && !Skipped(s.cpu.core) {
      TwoCyclesCount(Dispatch(Instruct(s, a.e).value));
    }
  }

  /** The counter and the serial unit's ticks after `quarters` quarter seconds and `calls` timed calls. */
  predicate Paced(s: State, quarters: nat, calls: nat) {
    s.cycles + QUARTER * quarters == 2 * calls && s.latches.serial == calls / 2
  }

  lemma SerialPace(cycles: nat, cycles': nat, quarters: nat, quarters': nat, calls: nat, calls': nat)
    requires cycles + QUARTER * quarters == 2 * calls && cycles' + QUARTER * quarters' == 2 * calls'
    ensures cycles' / 4 - cycles / 4 == calls' / 2 - calls / 2 - 230400 * (quarters' - quarters)
  {
    assert cycles == 2 * (calls - 460800 * quarters) && cycles' == 2 * (calls' - 460800 * quarters');
    HalfOfDouble(calls - 460800 * quarters);
    HalfOfDouble(calls' - 460800 * quarters');
    HalfShifts(calls, 230400 * quarters);
    HalfShifts(calls', 230400 * quarters');
  }

  lemma HalfOfDouble(x: int)
    ensures 2 * x / 4 == x / 2
  {
  }

  lemma HalfShifts(x: int, k: int)
    ensures (x - 2 * k) / 2 == x / 2 - k
  {
  }

  lemma ActionKeepsPace(s: State, a: Action, t: State, quarters: nat, calls: nat)
    requires Ok(s) && Ok(t) && Next(s, a, t) && Paced(s, quarters, calls)
    ensures var timed := a.Call? && !Skipped(s.cpu.core);
            Paced(t, quarters + (if a.Quarter? then 1 else 0), calls + if timed then 1 else 0)
  {
    ActionCounts(s, a, t);
    var timed := a.Call? && !Skipped(s.cpu.core);
    SerialPace(s.cycles, t.cycles, quarters, quarters + (if a.Quarter? then 1 else 0),
               calls, calls + if timed then 1 else 0);
  }

  lemma {:induction false} CallsArePaced(states: seq<State>, actions: seq<Action>, n: nat)
    requires IsRun(states, actions) && n <= |actions|
    requires states[0].cycles == 0 && states[0].latches.serial == 0
    ensures Paced(states[n], Quarters(actions, n), TimedCalls(states, actions, n))
  {
    hide Next;
    if n > 0 {
      CallsArePaced(states, actions, n - 1);
      assert NextAt(states, actions, n - 1);
      ActionKeepsPace(states[n - 1], actions[n - 1], states[n],
                      Quarters(actions, n - 1), TimedCalls(states, actions, n - 1));
    }
  }

  /** The sub clock after `quarters` quarter seconds. */
  predicate InStep(s: State, quarters: nat) {
    s.latches.sub == QUARTER_TICKS * quarters + s.cycles / SUB_CLOCK_PERIOD
  }

  lemma ActionKeepsStep(s: State, a: Action, t: State, quarters: nat, calls: nat)
    requires Ok(s) && Ok(t) && Next(s, a, t) && Paced(s, quarters, calls)
    requires InStep(s, quarters) && s.cycles <= QUARTER && (a.Call? ==> s.cycles < QUARTER)
    ensures InStep(t, quarters + if a.Quarter? then 1 else 0) && t.cycles <= QUARTER
  {
    ActionCounts(s, a, t);
    EvenBelow(s.cycles, quarters, calls);
  }

  lemma InStepAtStart(s: State)
    requires s.cycles == 0 && s.latches.sub == 0
    ensures InStep(s, 0)
  {
  }

  lemma {:induction false} SubClockIsPaced(states: seq<State>, actions: seq<Action>, n: nat)
    requires IsRun(states, actions) && n <= |actions|
    requires states[0].cycles == 0 && states[0].latches.serial == 0 && states[0].latches.sub == 0
    requires Prompt(states, actions, n)
    ensures InStep(states[n], Quarters(actions, n)) && states[n].cycles <= QUARTER
  {
    hide Next, Paced, InStep;
    InStepAtStart(states[0]);
    if n > 0 {
      SubClockIsPaced(states, actions, n - 1);
      CallsArePaced(states, actions, n - 1);
      assert NextAt(states, actions, n - 1);
      ActionKeepsStep(states[n - 1], actions[n - 1], states[n],
                      Quarters(actions, n - 1), TimedCalls(states, actions, n - 1));
    }
  }

  lemma EvenBelow(cycles: nat, quarters: nat, calls: nat)
    requires cycles + QUARTER * quarters == 2 * calls
    ensures cycles < QUARTER ==> cycles + 2 <= QUARTER
  {
    assert cycles == 2 * (calls - 460800 * quarters);
  }

  lemma {:induction false} SubClockUntouched(states: seq<State>, actions: seq<Action>, n: nat)
    requires IsRun(states, actions) && n <= |actions| && Quarters(actions, n) == 0
    requires states[0].cycles == 0 && states[0].latches.sub == 0
    ensures InStep(states[n], 0)
  {
    hide Next;
    if n > 0 {
      SubClockUntouched(states, actions, n - 1);
      assert NextAt(states, actions, n - 1);
      ActionCounts(states[n - 1], actions[n - 1], states[n]);
    }
  }

  /**
   From reset, after any run with N calls that took time, the counter stands at 2N less what the host took off it,
   and the serial unit has ticked N / 2 times. As long as nothing is taken off, the sub clock has ticked N / 56 times.
   */
  lemma ClocksKeepPace(states: seq<State>, actions: seq<Action>, n: nat)
    requires IsRun(states, actions) && n <= |actions|
    requires states[0].cycles == 0 && states[0].latches.serial == 0 && states[0].latches.sub == 0
    ensures var calls := TimedCalls(states, actions, n);
            && states[n].cycles == 2 * calls - QUARTER * Quarters(actions, n)
            && states[n].latches.serial == calls / 2
            && (Quarters(actions, n) == 0 ==> states[n].latches.sub == calls / 56)
  {
    CallsArePaced(states, actions, n);
    if Quarters(actions, n) == 0 {
      SubClockUntouched(states, actions, n);
      SubClockOfCalls(TimedCalls(states, actions, n));
    }
  }

  lemma SubClockOfCalls(calls: nat)
    ensures 2 * calls / 112 == calls / 56
  {
  }

  /**
   The shipped host takes a quarter second off the counter as soon as it has passed. Then a quarter second is 460800
   calls and gives 8228 ticks of the sub clock, not a quarter of 32768, and the ticks start over with it.
   */
  lemma HostKeepsPace(states: seq<State>, actions: seq<Action>, n: nat)
    requires IsRun(states, actions) && n <= |actions| && Prompt(states, actions, n)
    requires states[0].cycles == 0 && states[0].latches.serial == 0 && states[0].latches.sub == 0
    requires states[n].cycles < QUARTER
    ensures var calls := TimedCalls(states, actions, n);
            && Quarters(actions, n) == calls / 460800
            && states[n].latches.sub == 8228 * (calls / 460800) + calls % 460800 / 56
            && states[n].latches.serial == calls / 2
  {
    CallsArePaced(states, actions, n);
    SubClockIsPaced(states, actions, n);
    QuartersOfCalls(states[n].cycles, Quarters(actions, n), TimedCalls(states, actions, n));
  }

  lemma QuartersOfCalls(cycles: nat, quarters: nat, calls: nat)
    requires cycles + QUARTER * quarters == 2 * calls && cycles < QUARTER
    ensures quarters == calls / 460800 && cycles / 112 == calls % 460800 / 56
  {
    Timers.DivisionIsUnique(calls, 460800, quarters, calls - 460800 * quarters);
    SubClockOfCalls(calls - 460800 * quarters);
  }

  /** A run of a prompt host that stands before its next call. */
  ghost predicate IsPromptRun(states: seq<State>, actions: seq<Action>) {
    IsRun(states, actions) && Prompt(states, actions, |actions|) && states[|actions|].cycles < QUARTER
  }

  /** A prompt run that begins in `s` and ends in `t`. */
  ghost predicate Leads(s: State, states: seq<State>, actions: seq<Action>, t: State) {
    IsPromptRun(states, actions) && states[0] == s && states[|actions|] == t
  }

  lemma NothingLeads(s: State)
    requires Ok(s) && s.cycles < QUARTER
    ensures Leads(s, [s], [], s)
  {
  }

  lemma LastIsOk(states: seq<State>, actions: seq<Action>)
    requires IsRun(states, actions)
    ensures Ok(states[|actions|])
  {
    if actions != [] {
      assert NextAt(states, actions, |actions| - 1);
    }
  }

  lemma RunExtends(states: seq<State>, actions: seq<Action>, a: Action, t: State)
    requires IsRun(states, actions) && Prompt(states, actions, |actions|)
    requires Ok(states[|actions|]) && Ok(t) && Next(states[|actions|], a, t)
    requires a.Call? ==> states[|actions|].cycles < QUARTER
    ensures IsRun(states + [t], actions + [a]) && Prompt(states + [t], actions + [a], |actions| + 1)
  {
    var states', actions' := states + [t], actions + [a];
    forall i: nat | i < |actions'|
      ensures NextAt(states', actions', i)
    {
      if i < |actions| {
        assert NextAt(states, actions, i);
        assert states'[i] == states[i] && states'[i + 1] == states[i + 1] && actions'[i] == actions[i];
      }
    }
  }

  lemma PressLeads(s: State, states: seq<State>, actions: seq<Action>, t: State, key: u8)
    requires Leads(s, states, actions, t)
    ensures Ok(t) && Leads(s, states + [PressKey(t, key)], actions + [Press(key)], PressKey(t, key))
  {
    LastIsOk(states, actions);
    RunExtends(states, actions, Press(key), PressKey(t, key));
  }

  /** What the host makes of a step: once a quarter second has passed, it takes it off and shows a frame. */
  function Looked(s: State, half: bool, second: bool): (r: State)
    requires Ok(s)
    ensures Ok(r)
  {
    if s.cycles < QUARTER then s else Refresh(PassQuarter(s, half, second))
  }

  lemma StepStaysBelow(s: State, e: Effect, t: State)
    requires Ok(s) && Ok(t) && s.cycles < QUARTER && Next(s, Call(e), t)
    ensures t.cycles < 2 * QUARTER
  {
    ActionCounts(s, Call(e), t);
  }

  lemma QuarterLeads(s: State, states: seq<State>, actions: seq<Action>, t: State, half: bool, second: bool)
    returns (states': seq<State>, actions': seq<Action>)
    requires IsRun(states, actions) && Prompt(states, actions, |actions|) && states[0] == s && states[|actions|] == t
    requires Ok(t) && QUARTER <= t.cycles < 2 * QUARTER
    ensures Leads(s, states', actions', Refresh(PassQuarter(t, half, second)))
  {
    var u := PassQuarter(t, half, second);
    RunExtends(states, actions, Quarter(half, second), u);
    states', actions' := states + [u], actions + [Quarter(half, second)];
    RunExtends(states', actions', Display, Refresh(u));
    states', actions' := states' + [Refresh(u)], actions' + [Display];
  }

  /** One turn of the shipped host's loop is a call, and a quarter second and a frame if they are due. */
  lemma TurnLeads(s: State, states: seq<State>, actions: seq<Action>, t: State, e: Effect, u: State,
                  half: bool, second: bool)
    returns (states': seq<State>, actions': seq<Action>)
    requires Leads(s, states, actions, t)
    requires Ok(t) && Ok(u) && Admissible(e, t.cpu.core.flags) && Turn(t, e) == Ssu.Ran(u)
    ensures Leads(s, states', actions', Looked(u, half, second))
  {
    StepStaysBelow(t, e, u);
    RunExtends(states, actions, Call(e), u);
    states', actions' := states + [u], actions + [Call(e)];
    if u.cycles >= QUARTER {
      states', actions' := QuarterLeads(s, states', actions', u, half, second);
    }
  }

  /** What the loop of the shipped host does to the clocks, from zero. */
  lemma LoopKeepsPace(s: State, states: seq<State>, actions: seq<Action>, t: State)
    requires Leads(s, states, actions, t) && s.cycles == 0 && s.latches.serial == 0 && s.latches.sub == 0
    ensures |states| == |actions| + 1
    ensures var calls := TimedCalls(states, actions, |actions|);
            && t.latches.sub == 8228 * (calls / 460800) + calls % 460800 / 56
            && t.latches.serial == calls / 2
  {
    HostKeepsPace(states, actions, |actions|);
  }

  // ---------------------------------------------------------------- frames

  lemma TransmitKeepsBuffer(d: Ssu.Devices)
    requires Ssu.Ok(d) && Ssu.Transmit(d).Ran?
    ensures Ssu.Transmit(d).value.lcd.secondBuffer == d.lcd.secondBuffer
  {
    var d1 := if d.bus.accelPin then d else Ssu.WriteAccel(d).value;
    assert d1.lcd == d.lcd;
    assert Ssu.TransmitToEeprom(d1).value.lcd == d.lcd;
  }

  lemma TickKeepsBuffer(d: Ssu.Devices)
    requires Ssu.Ok(d) && Ssu.Tick(d).Ran?
    ensures Ssu.Tick(d).value.lcd.secondBuffer == d.lcd.secondBuffer
  {
    var d0 := if d.bus.te then d else Ssu.SetTdre(d);
    if d0.bus.te && !d0.bus.tdre {
      if d0.bus.re {
        assert Ssu.Exchange(d0).value.lcd == d.lcd;
      } else {
        TransmitKeepsBuffer(d0);
      }
    }
  }

  predicate SameBuffer(s: State, t: State) {
    t.peripherals.lcd.secondBuffer == s.peripherals.lcd.secondBuffer
  }

  lemma CycleKeepsBuffer(s: State)
    requires Ok(s) && Cycle(s).Ran?
    ensures SameBuffer(s, Cycle(s).value)
  {
    if CountCycle(s).cycles % SSU_PERIOD == 0 {
      TickKeepsBuffer(Devices(CountCycle(s)));
    }
  }

  lemma InstructKeepsBuffer(s: State, e: Effect)
    requires Ok(s) && Admissible(e, s.cpu.core.flags) && Instruct(s, e).Ran?
    ensures SameBuffer(s, Instruct(s, e).value)
  {
  }

  lemma ActionKeepsBuffer(s: State, a: Action, t: State)
    requires Ok(s) && Ok(t) && Next(s, a, t)
    ensures SameBuffer(s, t) <==> !a.Display?
  {
    hide Cycle, Instruct;
    if a.Call? && !Skipped(s.cpu.core) {
      InstructKeepsBuffer(s, a.e);
      var s1 := Dispatch(Instruct(s, a.e).value);
      CycleKeepsBuffer(s1);
      CycleKeepsBuffer(Cycle(s1).value);
    }
  }

  function Displays(actions: seq<Action>, n: nat): nat
    requires n <= |actions|
  {
    if n == 0 then 0 else Displays(actions, n - 1) + if actions[n - 1].Display? then 1 else 0
  }

  /** Over any run successive frames alternate between the buffers: no instruction and no LCD command interferes. */
  lemma {:induction false} FramesAlternate(states: seq<State>, actions: seq<Action>, n: nat)
    requires IsRun(states, actions) && n <= |actions|
    ensures SameBuffer(states[0], states[n]) <==> Displays(actions, n) % 2 == 0
  {
    hide Next;
    if n > 0 {
      FramesAlternate(states, actions, n - 1);
      assert NextAt(states, actions, n - 1);
      ActionKeepsBuffer(states[n - 1], actions[n - 1], states[n]);
    }
  }

  // ---------------------------------------------------------------- keys

  /** The program reads a key in this call. */
  predicate Delivers(s: State, a: Action) {
    a.Call? && !s.cpu.core.sleep && !Skipped(s.cpu.core) && ReadsKeys(s)
  }

  /** The values put where the program looks for keys, in order. */
  function Delivered(states: seq<State>, actions: seq<Action>, n: nat): seq<int>
    requires |states| == |actions| + 1 && n <= |actions|
  {
    if n == 0 then []
    else
      var before, s := Delivered(states, actions, n - 1), states[n - 1];
      if Delivers(s, actions[n - 1]) then before + [s.inputs[0]] else before
  }

  /** Each key followed by its release. */
  function Pairs(keys: seq<int>): (r: seq<int>)
    ensures |r| == 2 * |keys|
    ensures forall i: nat :: i < |r| ==> r[i] == if i % 2 == 0 then keys[i / 2] else 0
  {
    if keys == [] then []
    else Pairs(keys[..|keys| - 1]) + [keys[|keys| - 1], 0]
  }

  /** The key that an action queues: that of a press, unless it requests the interrupt, or the center key when taken. */
  function KeysOf(s: State, a: Action): (keys: seq<int>)
    requires Ok(s)
    ensures |keys| <= 1
  {
    match a
    case Press(key) => if !s.cpu.core.flags.I && key % 2 == 1 then [] else [key]
    case Call(e) =>
      if Skipped(s.cpu.core) || !Admissible(e, s.cpu.core.flags) || !Instruct(s, e).Ran? then []
      else
        var left := Instruct(s, e).value.cpu;
        if !left.core.flags.I && left.mem[0xFFF6] % 2 == 1 && left.mem[0xFFF3] % 2 == 1 then [1] else []
    case _ => []
  }

  /** All keys that were queued, in order. */
  ghost function KeysQueued(states: seq<State>, actions: seq<Action>, n: nat): seq<int>
    requires IsRun(states, actions) && n <= |actions|
  {
    if n == 0 then []
    else
      assert NextAt(states, actions, n - 1);
      KeysQueued(states, actions, n - 1) + KeysOf(states[n - 1], actions[n - 1])
  }

  predicate Queues(s: State, a: Action, t: State, keys: seq<int>) {
    t.inputs == (if Delivers(s, a) then s.inputs[1..] else s.inputs) + Pairs(keys)
  }

  lemma PairOf(key: int)
    ensures Pairs([key]) == [key, 0] && Pairs([]) == []
  {
  }

  lemma InstructTakesKey(s: State, e: Effect)
    requires Ok(s) && Admissible(e, s.cpu.core.flags) && Instruct(s, e).Ran?
    ensures Instruct(s, e).value.inputs
         == if !s.cpu.core.sleep && ReadsKeys(s) then s.inputs[1..] else s.inputs
  {
    hide Perform, Decode;
  }

  lemma DispatchQueues(s: State)
    requires Ok(s)
    ensures var takes := !s.cpu.core.flags.I && s.cpu.mem[0xFFF6] % 2 == 1 && s.cpu.mem[0xFFF3] % 2 == 1;
            Dispatch(s).inputs == s.inputs + if takes then [1, 0] else []
  {
    assert s.inputs + [] == s.inputs;
  }

  /** A call queues the center key when it takes that key's interrupt, and otherwise nothing. */
  lemma CallQueues(s: State, e: Effect)
    requires Ok(s) && Admissible(e, s.cpu.core.flags) && !Skipped(s.cpu.core) && Turn(s, e).Ran?
    ensures Queues(s, Call(e), Turn(s, e).value, KeysOf(s, Call(e)))
  {
    hide TwoCycles, Instruct, Pairs, Dispatch;
    PairOf(1);
    var s1 := Instruct(s, e).value;
    InstructTakesKey(s, e);
    DispatchQueues(s1);
    TwoCyclesEnter(Dispatch(s1));
  }

  lemma ActionQueues(s: State, a: Action, t: State)
    requires Ok(s) && Ok(t) && Next(s, a, t)
    ensures Queues(s, a, t, KeysOf(s, a))
  {
    PairOf(0);
    assert s.inputs + [] == s.inputs;
    if a.Press? {
      PairOf(a.key);
    } else if a.Call? && !Skipped(s.cpu.core) {
      CallQueues(s, a.e);
    }
  }

  /**
   In every run that begins without queued keys, what the program was given and what is still queued are the keys in the
   order in which they were pressed, or the center key's interrupt was taken, each with its release behind it.
   */
  lemma {:induction false} KeysArriveInOrder(states: seq<State>, actions: seq<Action>, n: nat)
    requires IsRun(states, actions) && n <= |actions| && states[0].inputs == []
    ensures Delivered(states, actions, n) + states[n].inputs == Pairs(KeysQueued(states, actions, n))
  {
    hide Pairs, KeysOf, Next;
    if n == 0 {
      PairOf(0);
    } else {
      KeysArriveInOrder(states, actions, n - 1);
      var s, a := states[n - 1], actions[n - 1];
      assert NextAt(states, actions, n - 1);
      ActionQueues(s, a, states[n]);
      OneMorePair(Delivered(states, actions, n - 1), s.inputs, KeysQueued(states, actions, n - 1), KeysOf(s, a),
                  Delivers(s, a), Delivered(states, actions, n), states[n].inputs);
    }
  }

  ghost predicate PressesOnly(actions: seq<Action>, n: nat)
    requires n <= |actions|
  {
    forall i: nat :: i < n && actions[i].Press? ==> actions[i].key != 0
  }

  predicate NoneIsZero(keys: seq<int>) { forall i: nat :: i < |keys| ==> keys[i] != 0 }

  lemma KeyIsNotZero(s: State, a: Action)
    requires Ok(s) && !(a.Press? && a.key == 0)
    ensures NoneIsZero(KeysOf(s, a))
  {
    hide Instruct;
  }

  lemma NoMoreZeros(keys: seq<int>, more: seq<int>)
    requires NoneIsZero(keys) && NoneIsZero(more)
    ensures NoneIsZero(keys + more)
  {
  }

  lemma {:induction false} KeysAreNotZero(states: seq<State>, actions: seq<Action>, n: nat)
    requires IsRun(states, actions) && n <= |actions| && PressesOnly(actions, n)
    ensures NoneIsZero(KeysQueued(states, actions, n))
  {
    hide NoneIsZero, KeysOf, Next;
    if n == 0 {
      NothingIsZero();
    } else {
      KeysAreNotZero(states, actions, n - 1);
      assert NextAt(states, actions, n - 1);
      KeyIsNotZero(states[n - 1], actions[n - 1]);
      NoMoreZeros(KeysQueued(states, actions, n - 1), KeysOf(states[n - 1], actions[n - 1]));
    }
  }

  lemma NothingIsZero()
    ensures NoneIsZero([])
  {
  }

  /** Delivering the first queued value and queueing another pair at the end keep the whole sequence in order. */
  lemma OneMorePair(before: seq<int>, inputs: seq<int>, keys: seq<int>, more: seq<int>, delivers: bool,
                    after: seq<int>, inputs': seq<int>)
    requires before + inputs == Pairs(keys) && |more| <= 1
    requires delivers ==> inputs != [] && after == before + [inputs[0]] && inputs' == inputs[1..] + Pairs(more)
    requires !delivers ==> after == before && inputs' == inputs + Pairs(more)
    ensures after + inputs' == Pairs(keys + more)
  {
    PairsOfBoth(keys, more);
    if delivers {
      assert [inputs[0]] + inputs[1..] == inputs;
    }
  }

  lemma PairsOfBoth(keys: seq<int>, more: seq<int>)
    requires |more| <= 1
    ensures Pairs(keys + more) == Pairs(keys) + Pairs(more)
  {
    if more != [] {
      assert (keys + more)[..|keys|] == keys;
    } else {
      assert keys + more == keys;
    }
  }

  /** From reset, the program reads a key, a release, a key, a release, and so on. */
  lemma KeysAlternate(states: seq<State>, actions: seq<Action>, n: nat, i: nat)
    requires IsRun(states, actions) && n <= |actions| && states[0].inputs == []
    requires PressesOnly(actions, n) && i < |Delivered(states, actions, n)|
    ensures Delivered(states, actions, n)[i] == 0 <==> i % 2 == 1
  {
    var keys := KeysQueued(states, actions, n);
    KeysArriveInOrder(states, actions, n);
    KeysAreNotZero(states, actions, n);
    assert (Delivered(states, actions, n) + states[n].inputs)[i] == Pairs(keys)[i];
  }
}
