/**
 Calls and returns over whole runs of the machine: interrupts, clocks, key presses and display refreshes come
 between the instructions of the program, and each return still goes behind its matching call.
 */
module Nesting {
  import opened Words
  import opened H8
  import opened Machine
  import opened CallStack
  import Runs
  import Ssu

  // ---------------------------------------------------------------- what happens besides instructions

  /** Memory that the machine or the host writes by itself, not through an instruction of the program. */
  predicate Reserved(a: nat) {
    ClockRegister(a) || a in {KEYS, WATTS, WATTS + 1, IRR1, RTCFLG}
  }

  /** No open return address lies there. */
  ghost predicate Clear(base: u16, frames: seq<Slot>) {
    forall i: nat :: i < |frames| && frames[i].Address? ==> ClearAt(base, i)
  }

  predicate ClearAt(base: u16, i: nat) {
    !Reserved(SlotAddress(base, i)) && !Reserved(Nth(SlotAddress(base, i), 1))
  }

  ghost predicate OnlyReserved(mem: seq<u8>, mem': seq<u8>)
    requires |mem| == |mem'| == MEM_SIZE
  {
    forall a: nat :: a < MEM_SIZE && !Reserved(a) ==> mem'[a] == mem[a]
  }

  lemma ReservedSparesFrames(mem: seq<u8>, mem': seq<u8>, base: u16, frames: seq<Slot>)
    requires |mem| == |mem'| == MEM_SIZE && OnlyReserved(mem, mem') && Clear(base, frames)
    ensures SparesFrames(mem, mem', base, frames)
  {
    forall i: nat | i < |frames| && frames[i].Address?
      ensures SlotUntouched(mem, mem', base, i)
    {
      assert ClearAt(base, i);
      WrapsTo(SlotAddress(base, i), SlotAddress(base, i), 0);
    }
  }

  /** An event without a push or a pop that writes nothing but reserved memory. */
  lemma QuietFollows(c: Cpu, t: Cpu, base: u16, frames: seq<Slot>)
    requires Sized(c) && Sized(t) && t.er[7] == c.er[7] && OnlyReserved(c.mem, t.mem) && Clear(base, frames)
    ensures Follows(ViewOf(c), Other(0), ViewOf(t), base, frames)
  {
    AfterNothing(frames);
    ReservedSparesFrames(c.mem, t.mem, base, frames);
  }

  lemma CycleIsQuiet(s: State)
    requires Ok(s) && Cycle(s).Ran?
    ensures Cycle(s).value.cpu.er == s.cpu.er && OnlyReserved(s.cpu.mem, Cycle(s).value.cpu.mem)
  {
    CycleSparesMemory(s);
  }

  /** Interrupt entry, by the dispatcher or by a timer, and the clock move no stack pointer and write no stack word. */
  lemma EntryIsQuiet(s: State)
    requires Ok(s) && TwoCycles(Dispatch(s)).Ran?
    ensures var t := TwoCycles(Dispatch(s)).value;
            t.cpu.er == s.cpu.er && OnlyReserved(s.cpu.mem, t.cpu.mem)
  {
    CycleIsQuiet(Dispatch(s));
    CycleIsQuiet(Cycle(Dispatch(s)).value);
  }

  lemma PrepareIsQuiet(s: State)
    requires Ok(s)
    ensures Prepare(s).cpu.er == s.cpu.er && OnlyReserved(s.cpu.mem, Prepare(s).cpu.mem)
    ensures Prepare(s).cpu.core == s.cpu.core
  {
    var mem := TakenKeys(s).cpu.mem;
    Set16RoundTrip(mem, WATTS, if s.cpu.core.pc == 0x79b8 then STARTING_WATTS else Get16(mem, WATTS));
  }

  // ---------------------------------------------------------------- one action

  /** The processor in front of the instruction of an action, if it has one. */
  function Ready(s: State, a: Runs.Action): (r: Cpu)
    requires Ok(s)
    ensures Sized(r)
  {
    if Runs.Executes(s, a) then Prepare(s).cpu else s.cpu
  }

  /** The processor behind that instruction. */
  function Done(s: State, a: Runs.Action): (r: Cpu)
    requires Ok(s) && (Runs.Executes(s, a) ==> Admissible(a.e, s.cpu.core.flags))
    ensures Sized(r)
  {
    if !Runs.Executes(s, a) then s.cpu
    else
      var i := Decode(Prepare(s).cpu);
      var done := Perform(Prepare(s).cpu, i, a.e);
      if done.Some? then Advance(done.value) else s.cpu
  }

  function PassageOf(s: State, a: Runs.Action, t: State): Passage
    requires Ok(s) && Ok(t) && (Runs.Executes(s, a) ==> Admissible(a.e, s.cpu.core.flags))
  {
    Passage(ViewOf(s.cpu), ViewOf(Ready(s, a)), ViewOf(Done(s, a)), ViewOf(t.cpu))
  }

  /**
   The event of an action. Calls and returns are what they are; the program promises of every other instruction that
   it moves the stack pointer by whole words and overwrites no open return address.
   */
  ghost predicate Plays(s: State, a: Runs.Action, event: Event, base: u16, frames: seq<Slot>)
    requires Ok(s) && (Runs.Executes(s, a) ==> Admissible(a.e, s.cpu.core.flags))
  {
    if Runs.Executes(s, a) then
      var i := Decode(Ready(s, a));
      match event
      case Call(address) => IsCall(i) && address == ReturnAddress(s.cpu.core.pc, i)
      case Return => i.ReturnSub?
      case Other(_) => Follows(ViewOf(Ready(s, a)), event, ViewOf(Done(s, a)), base, frames)
    else event == Other(0)
  }

  lemma InstructionFollows(s: State, a: Runs.Action, event: Event, base: u16, frames: seq<Slot>)
    requires Ok(s) && Runs.Executes(s, a) && Admissible(a.e, s.cpu.core.flags) && Plays(s, a, event, base, frames)
    ensures Follows(ViewOf(Ready(s, a)), event, ViewOf(Done(s, a)), base, frames)
  {
    PrepareIsQuiet(s);
    match event {
      case Call(_) => CallFollows(Ready(s, a), Decode(Ready(s, a)), a.e, base, frames);
      case Return => ReturnFollows(Ready(s, a), Decode(Ready(s, a)), a.e, base, frames);
      case Other(_) =>
    }
  }

  /** Instructions that neither touch the stack nor write memory, RTE among them. */
  predicate SparesStack(i: Insn) {
    || i.Nop? || i.SleepInsn? || i.LoadCcr? || i.Compare? || i.BranchByte? || i.BranchWord?
    || i.JumpRegister? || i.JumpAbsolute? || i.ReturnInterrupt?
  }

  lemma TransferKeepsStack(c: Cpu, i: Insn, e: Effect)
    requires Sized(c) && Admissible(e, c.core.flags) && SparesStack(i)
    ensures Perform(c, i, e).Some?
    ensures Advance(Perform(c, i, e).value).er == c.er && Advance(Perform(c, i, e).value).mem == c.mem
  {
  }

  lemma UnwrittenFollows(c: Cpu, t: Cpu, base: u16, frames: seq<Slot>)
    requires Sized(c) && Sized(t) && t.er == c.er && t.mem == c.mem
    ensures Follows(ViewOf(c), Other(0), ViewOf(t), base, frames)
  {
  }

  lemma DoneIsPerformed(s: State, a: Runs.Action, i: Insn)
    requires Ok(s) && Runs.Executes(s, a) && Admissible(a.e, s.cpu.core.flags) && i == Decode(Ready(s, a))
    requires Perform(Ready(s, a), i, a.e).Some?
    ensures Done(s, a) == Advance(Perform(Ready(s, a), i, a.e).value)
  {
  }

  /** They keep the promise by themselves. */
  lemma TransfersKeepPromise(s: State, a: Runs.Action, base: u16, frames: seq<Slot>)
    requires Ok(s) && Runs.Executes(s, a) && Admissible(a.e, s.cpu.core.flags) && SparesStack(Decode(Ready(s, a)))
    ensures Plays(s, a, Other(0), base, frames)
  {
    var c, i := Ready(s, a), Decode(Ready(s, a));
    TransferKeepsStack(c, i, a.e);
    DoneIsPerformed(s, a, i);
    UnwrittenFollows(c, Advance(Perform(c, i, a.e).value), base, frames);
  }

  /** What happens behind the instruction of an action, or instead of one. */
  lemma RestIsQuiet(s: State, a: Runs.Action, t: State)
    requires Ok(s) && Ok(t) && Runs.Next(s, a, t)
    ensures t.cpu.er[7] == Done(s, a).er[7] && OnlyReserved(Done(s, a).mem, t.cpu.mem)
  {
    hide TwoCycles, Dispatch;
    if a.Call? && !Skipped(s.cpu.core) {
      EntryIsQuiet(Instruct(s, a.e).value);
    }
  }

  /** Every action of the machine is its event, with nothing but quiet events around it. */
  lemma ActionPasses(s: State, a: Runs.Action, t: State, event: Event, base: u16, frames: seq<Slot>)
    requires Ok(s) && Ok(t) && Runs.Next(s, a, t) && Plays(s, a, event, base, frames)
    requires Clear(base, frames) && Clear(base, After(frames, event))
    ensures Passes(PassageOf(s, a, t), event, base, frames)
  {
    PrepareIsQuiet(s);
    QuietFollows(s.cpu, Ready(s, a), base, frames);
    if Runs.Executes(s, a) {
      InstructionFollows(s, a, event, base, frames);
    } else {
      QuietFollows(s.cpu, s.cpu, base, frames);
    }
    RestIsQuiet(s, a, t);
    QuietFollows(Done(s, a), t.cpu, base, After(frames, event));
  }

  // ---------------------------------------------------------------- whole runs

  ghost predicate PlaysAt(states: seq<State>, actions: seq<Runs.Action>, events: seq<Event>, base: u16, n: nat)
    requires |states| == |actions| + 1 && |events| == |actions| && n < |actions|
  {
    && Runs.NextAt(states, actions, n)
    && Plays(states[n], actions[n], events[n], base, Frames(events, n))
    && Clear(base, Frames(events, n)) && Clear(base, Frames(events, n + 1))
  }

  /** A run whose program keeps its promise, starting with stack base `base`. */
  ghost predicate IsNested(states: seq<State>, actions: seq<Runs.Action>, events: seq<Event>, base: u16) {
    && Runs.IsRun(states, actions)
    && |events| == |actions| > 0
    && WellNested(events)
    && Low16(states[0].cpu.er[7]) == base
    && forall n: nat :: n < |events| ==> PlaysAt(states, actions, events, base, n)
  }

  ghost function Passages(states: seq<State>, actions: seq<Runs.Action>): (r: seq<Passage>)
    requires |states| == |actions| + 1
    requires forall n: nat :: n < |actions| ==> Runs.NextAt(states, actions, n)
    ensures |r| == |actions|
    ensures forall n: nat :: n < |actions| ==> r[n] == PassageAt(states, actions, n)
  {
    seq(|actions|, n requires 0 <= n < |actions| => PassageAt(states, actions, n))
  }

  ghost function PassageAt(states: seq<State>, actions: seq<Runs.Action>, n: nat): Passage
    requires |states| == |actions| + 1 && n < |actions| && Runs.NextAt(states, actions, n)
  {
    PassageOf(states[n], actions[n], states[n + 1])
  }

  lemma NestedRunPasses(states: seq<State>, actions: seq<Runs.Action>, events: seq<Event>, base: u16)
    requires IsNested(states, actions, events, base)
    ensures CallStack.IsRun(Passages(states, actions), events, base)
  {
    hide Plays, Passes;
    var passages := Passages(states, actions);
    forall n: nat | n < |events|
      ensures PassesAt(passages, events, base, n)
    {
      assert PlaysAt(states, actions, events, base, n);
      ActionPasses(states[n], actions[n], states[n + 1], events[n], base, Frames(events, n));
      if n > 0 {
        assert passages[n - 1] == PassageAt(states, actions, n - 1);
      }
    }
  }

  /**
   In every run of the machine whose program overwrites no open return address, the RTS that matches a BSR or JSR
   goes to the instruction behind that call and leaves the stack pointer where it was before the call: whatever is
   pushed, popped, called and interrupted in between, and wherever addresses wrap.
   */
  lemma ReturnsToMatchingCall(states: seq<State>, actions: seq<Runs.Action>, events: seq<Event>, base: u16,
                              i: nat, j: nat)
    requires IsNested(states, actions, events, base)
    requires i < j < |events| && events[i].Call? && events[j].Return?
    requires Depth(events, j + 1) == Depth(events, i)
    requires forall m: nat :: i < m <= j ==> Depth(events, m) > Depth(events, i)
    ensures PlaysAt(states, actions, events, base, i) && PlaysAt(states, actions, events, base, j)
    ensures IsCall(Decode(Ready(states[i], actions[i])))
    ensures Done(states[j], actions[j]).core.pc
         == ReturnAddress(states[i].cpu.core.pc, Decode(Ready(states[i], actions[i])))
    ensures Done(states[j], actions[j]).er[7] == states[i].cpu.er[7]
  {
    hide Passes, Follows;
    NestedRunPasses(states, actions, events, base);
    assert PlaysAt(states, actions, events, base, i) && PlaysAt(states, actions, events, base, j);
    var passages := Passages(states, actions);
    MatchingReturn(passages, events, base, i, j);
    assert passages[i] == PassageAt(states, actions, i) && passages[j] == PassageAt(states, actions, j);
  }
}
