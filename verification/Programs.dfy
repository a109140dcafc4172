/**
 What programs find over whole runs of the machine, with instructions, interrupts, keys and displays in between: the
 timers count as they do on their own, and transactions with the EEPROM and the LCD have the effect that they have on
 the bare devices.
 */
module Programs {
  import opened Words
  import opened H8
  import opened Machine
  import opened Driving
  import EepromProtocol
  import LcdProtocol
  import Runs
  import Ssu
  import Timers

  // ---------------------------------------------------------------- the timers

  function TimersOf(s: State): Timers.State
    requires Ok(s)
  {
    Timers.State(s.latches.sub, TimerBOf(s.cpu.mem, s.latches), TimerWOf(s.cpu.mem, s.latches))
  }

  lemma {:induction false} TicksCompose(t: Timers.State, m: nat, n: nat)
    ensures Timers.Ticks(Timers.Ticks(t, m), n) == Timers.Ticks(t, m + n)
  {
    if n > 0 {
      TicksCompose(t, m, n - 1);
    }
  }

  lemma TicksOnce(t: Timers.State)
    ensures Timers.Ticks(t, 0) == t && Timers.Ticks(t, 1) == Timers.Tick(t)
  {
    assert Timers.Ticks(t, 1) == Timers.Tick(Timers.Ticks(t, 0));
  }

  lemma SsuPhaseKeepsTimers(s: State)
    requires Ok(s) && SsuPhase(s).Ran?
    ensures TimersOf(SsuPhase(s).value) == TimersOf(s)
  {
  }

  lemma SubClockPhaseTicks(s: State) returns (n: nat)
    requires Ok(s)
    ensures TimersOf(SubClockPhase(s)) == Timers.Ticks(TimersOf(s), n)
  {
    n := 0;
    if s.cycles % SUB_CLOCK_PERIOD == 0 {
      n := 1;
      SubClockTickIsTick(s);
      TicksOnce(TimersOf(s));
    }
  }

  lemma CycleTicks(s: State) returns (n: nat)
    requires Ok(s) && Cycle(s).Ran?
    ensures TimersOf(Cycle(s).value) == Timers.Ticks(TimersOf(s), n)
  {
    hide SsuPhase, SubClockPhase, TimerBOf, TimerWOf;
    var t := CountCycle(s);
    SsuPhaseKeepsTimers(t);
    n := SubClockPhaseTicks(SsuPhase(t).value);
    assert TimersOf(t) == TimersOf(s);
  }

  lemma FinishTicks(s: State) returns (n: nat)
    requires Ok(s) && Finish(s).Ran?
    ensures TimersOf(Finish(s).value) == Timers.Ticks(TimersOf(s), n)
  {
    hide Cycle, TimersOf, Timers.Ticks;
    var t := Dispatch(s);
    DispatchKeepsTimers(s);
    var first := CycleTicks(t);
    var second := CycleTicks(Cycle(t).value);
    TicksCompose(TimersOf(t), first, second);
    n := first + second;
  }

  lemma DispatchKeepsTimers(s: State)
    requires Ok(s)
    ensures TimersOf(Dispatch(s)) == TimersOf(s)
  {
  }

  lemma BetweenKeepsTimers(s: State, a: Runs.Action, t: State)
    requires Ok(s) && Ok(t) && Runs.Next(s, a, t) && (a.Call? ==> Skipped(s.cpu.core))
    ensures TimersOf(t) == TimersOf(s)
  {
  }

  /** The machine as the clock of an action finds it: behind the instruction, if there is one. */
  function Behind(s: State, a: Runs.Action): (r: State)
    requires Ok(s)
    ensures Ok(r)
  {
    if Runs.Executes(s, a) && Admissible(a.e, s.cpu.core.flags) && Instruct(s, a.e).Ran?
    then Instruct(s, a.e).value else s
  }

  lemma InstructKeepsCounts(s: State, e: Effect)
    requires Ok(s) && Admissible(e, s.cpu.core.flags) && Instruct(s, e).Ran?
    ensures var l, l' := s.latches, Instruct(s, e).value.latches; l'.serial == l.serial && l'.sub == l.sub
  {
    hide Perform, Decode;
  }

  lemma ActionTicks(s: State, a: Runs.Action, t: State) returns (n: nat)
    requires Ok(s) && Ok(t) && Runs.Next(s, a, t)
    ensures TimersOf(t) == Timers.Ticks(TimersOf(Behind(s, a)), n) && TimersOf(Behind(s, a)).sub == s.latches.sub
  {
    hide Timers.Ticks, Finish, Instruct, TimerBOf, TimerWOf;
    TicksOnce(TimersOf(s));
    n := 0;
    if a.Call? && !Skipped(s.cpu.core) {
      if s.cpu.core.sleep {
        AsleepStays(s, a.e);
      }
      InstructKeepsCounts(s, a.e);
      n := FinishTicks(Instruct(s, a.e).value);
    } else {
      BetweenKeepsTimers(s, a, t);
    }
  }

  /**
   What a timer's counter depends on. With `free` set, a program may change the rest: the request flag, which a handler
   clears, and whether a match interrupts.
   */
  function PartW(w: Timers.TimerW, free: bool): Timers.TimerW {
    if free then w.(flag := false, interrupts := false) else w
  }

  function PartB(b: Timers.TimerB, free: bool): Timers.TimerB { if free then b.(flag := false) else b }

  /** Timer W in `t` is where the sub clock's ticks since `s` bring it, as far as that part of it goes. */
  predicate TickedW(s: Timers.State, t: Timers.State, free: bool) {
    s.sub <= t.sub && PartW(t.w, free) == PartW(Timers.TicksW(s.w, t.sub - s.sub), free)
  }

  predicate TickedB(s: Timers.State, t: Timers.State, free: bool) {
    s.sub <= t.sub && PartB(t.b, free) == PartB(Timers.TicksB(s.b, s.sub, t.sub - s.sub), free)
  }

  lemma PartWTick(w: Timers.TimerW, w': Timers.TimerW, free: bool)
    requires PartW(w, free) == PartW(w', free)
    ensures PartW(Timers.TickW(w), free) == PartW(Timers.TickW(w'), free)
  {
    if free {
      assert w' == w.(flag := w'.flag, interrupts := w'.interrupts);
    }
  }

  lemma PartBTick(b: Timers.TimerB, b': Timers.TimerB, sub: nat, free: bool)
    requires PartB(b, free) == PartB(b', free)
    ensures PartB(Timers.TickB(b, sub), free) == PartB(Timers.TickB(b', sub), free)
  {
    if free {
      assert b' == b.(flag := b'.flag);
    }
  }

  /** Ticking a part is the part of ticking. */
  lemma {:induction false} PartWTicks(w: Timers.TimerW, w': Timers.TimerW, n: nat, free: bool)
    requires PartW(w, free) == PartW(w', free)
    ensures PartW(Timers.TicksW(w, n), free) == PartW(Timers.TicksW(w', n), free)
  {
    hide Timers.TickW, PartW;
    if n > 0 {
      PartWTicks(w, w', n - 1, free);
      PartWTick(Timers.TicksW(w, n - 1), Timers.TicksW(w', n - 1), free);
    }
  }

  lemma {:induction false} PartBTicks(b: Timers.TimerB, b': Timers.TimerB, sub: nat, n: nat, free: bool)
    requires PartB(b, free) == PartB(b', free)
    ensures PartB(Timers.TicksB(b, sub, n), free) == PartB(Timers.TicksB(b', sub, n), free)
  {
    hide Timers.TickB, PartB;
    if n > 0 {
      PartBTicks(b, b', sub, n - 1, free);
      PartBTick(Timers.TicksB(b, sub, n - 1), Timers.TicksB(b', sub, n - 1), sub + n, free);
    }
  }

  lemma TicksOfBoth(t: Timers.State, n: nat)
    ensures Timers.Ticks(t, n).sub == t.sub + n
    ensures Timers.Ticks(t, n).w == Timers.TicksW(t.w, n) && Timers.Ticks(t, n).b == Timers.TicksB(t.b, t.sub, n)
  {
    Timers.TimersAreIndependent(t, n);
  }

  lemma TickedWOn(s: Timers.State, t: Timers.State, u: Timers.State, v: Timers.State, n: nat, free: bool)
    requires TickedW(s, t, free) && PartW(u.w, free) == PartW(t.w, free) && u.sub == t.sub && v == Timers.Ticks(u, n)
    ensures TickedW(s, v, free)
  {
    hide PartW, Timers.TicksW, Timers.Ticks;
    var m := t.sub - s.sub;
    TicksOfBoth(u, n);
    PartWTicks(u.w, Timers.TicksW(s.w, m), n, free);
    TicksOfBoth(s, m);
    TicksOfBoth(Timers.Ticks(s, m), n);
    TicksOfBoth(s, m + n);
    TicksCompose(s, m, n);
  }

  lemma TickedBOn(s: Timers.State, t: Timers.State, u: Timers.State, v: Timers.State, n: nat, free: bool)
    requires TickedB(s, t, free) && PartB(u.b, free) == PartB(t.b, free) && u.sub == t.sub && v == Timers.Ticks(u, n)
    ensures TickedB(s, v, free)
  {
    hide PartB, Timers.TicksB, Timers.Ticks;
    var m := t.sub - s.sub;
    TicksOfBoth(u, n);
    PartBTicks(u.b, Timers.TicksB(s.b, s.sub, m), u.sub, n, free);
    TicksOfBoth(s, m);
    TicksOfBoth(Timers.Ticks(s, m), n);
    TicksOfBoth(s, m + n);
    TicksCompose(s, m, n);
  }

  /** In a stretch of a run no instruction changes that part of Timer W. */
  ghost predicate LeftAloneW(states: seq<State>, actions: seq<Runs.Action>, from: nat, n: nat, free: bool)
    requires Runs.IsRun(states, actions) && from <= n <= |actions|
  {
    forall i: nat :: from <= i < n ==> LeavesW(states, actions, i, free)
  }

  ghost predicate LeavesW(states: seq<State>, actions: seq<Runs.Action>, i: nat, free: bool)
    requires Runs.IsRun(states, actions) && i < |actions|
  {
    && Runs.NextAt(states, actions, i)
    && PartW(TimersOf(Behind(states[i], actions[i])).w, free) == PartW(TimersOf(states[i]).w, free)
  }

  ghost predicate LeftAloneB(states: seq<State>, actions: seq<Runs.Action>, from: nat, n: nat, free: bool)
    requires Runs.IsRun(states, actions) && from <= n <= |actions|
  {
    forall i: nat :: from <= i < n ==> LeavesB(states, actions, i, free)
  }

  ghost predicate LeavesB(states: seq<State>, actions: seq<Runs.Action>, i: nat, free: bool)
    requires Runs.IsRun(states, actions) && i < |actions|
  {
    && Runs.NextAt(states, actions, i)
    && PartB(TimersOf(Behind(states[i], actions[i])).b, free) == PartB(TimersOf(states[i]).b, free)
  }

  lemma NothingTicked(t: Timers.State, free: bool)
    ensures TickedW(t, t, free) && TickedB(t, t, free)
  {
    assert Timers.TicksW(t.w, 0) == t.w && Timers.TicksB(t.b, t.sub, 0) == t.b;
  }

  lemma OkAt(states: seq<State>, actions: seq<Runs.Action>, i: nat)
    requires Runs.IsRun(states, actions) && i <= |actions|
    ensures Ok(states[i])
  {
    if i > 0 {
      assert Runs.NextAt(states, actions, i - 1);
    }
  }

  lemma NextOf(states: seq<State>, actions: seq<Runs.Action>, i: nat)
    requires Runs.IsRun(states, actions) && i < |actions|
    ensures Ok(states[i]) && Ok(states[i + 1]) && Runs.Next(states[i], actions[i], states[i + 1])
  {
    assert Runs.NextAt(states, actions, i);
  }

  lemma {:induction false} RunTicksW(states: seq<State>, actions: seq<Runs.Action>, from: nat, n: nat, free: bool)
    requires Runs.IsRun(states, actions) && from <= n <= |actions| && LeftAloneW(states, actions, from, n, free)
    ensures Ok(states[from]) && Ok(states[n]) && TickedW(TimersOf(states[from]), TimersOf(states[n]), free)
  {
    hide TimerBOf, TimerWOf, Timers.Ticks, Runs.Next, Runs.NextAt, Behind, TickedW, PartW, Ok;
    OkAt(states, actions, from);
    if n == from {
      NothingTicked(TimersOf(states[from]), free);
    } else {
      RunTicksW(states, actions, from, n - 1, free);
      NextOf(states, actions, n - 1);
      assert LeavesW(states, actions, n - 1, free);
      var more := ActionTicks(states[n - 1], actions[n - 1], states[n]);
      TickedWOn(TimersOf(states[from]), TimersOf(states[n - 1]), TimersOf(Behind(states[n - 1], actions[n - 1])),
                TimersOf(states[n]), more, free);
    }
  }

  lemma {:induction false} RunTicksB(states: seq<State>, actions: seq<Runs.Action>, from: nat, n: nat, free: bool)
    requires Runs.IsRun(states, actions) && from <= n <= |actions| && LeftAloneB(states, actions, from, n, free)
    ensures Ok(states[from]) && Ok(states[n]) && TickedB(TimersOf(states[from]), TimersOf(states[n]), free)
  {
    hide TimerBOf, TimerWOf, Timers.Ticks, Runs.Next, Runs.NextAt, Behind, TickedB, PartB, Ok;
    OkAt(states, actions, from);
    if n == from {
      NothingTicked(TimersOf(states[from]), free);
    } else {
      RunTicksB(states, actions, from, n - 1, free);
      NextOf(states, actions, n - 1);
      assert LeavesB(states, actions, n - 1, free);
      var more := ActionTicks(states[n - 1], actions[n - 1], states[n]);
      TickedBOn(TimersOf(states[from]), TimersOf(states[n - 1]), TimersOf(Behind(states[n - 1], actions[n - 1])),
                TimersOf(states[n]), more, free);
    }
  }

  /** How Timer W stands in `t`, counted from `s` in closed form. */
  predicate TimerWStands(s: State, t: State, free: bool)
    requires Ok(s) && Ok(t)
  {
    && s.latches.sub <= t.latches.sub
    && var w, ticks := TimersOf(s).w, t.latches.sub - s.latches.sub;
       && Get16(t.cpu.mem, TCNT) == Low16(Timers.CounterAfter(w, ticks))
       && (!free ==> (Has(t.cpu.mem[TSRW], 0x01) <==> w.flag || ticks >= Timers.FirstMatch(w)))
  }

  /** How Timer B stands: it counts every 256th tick and reloads every 256 - TLB counts. */
  predicate TimerBStands(s: State, t: State, free: bool)
    requires Ok(s) && Ok(t)
  {
    && s.latches.sub <= t.latches.sub
    && var b, counts := TimersOf(s).b, t.latches.sub / 256 - s.latches.sub / 256;
       var first, period := 256 - b.tcb as int, 256 - b.tlb as int;
       && counts >= 0
       && t.cpu.mem[TCB1] as int == (if counts < first then b.tcb as int + counts
                                     else b.tlb as int + Timers.Phase(first, period, counts))
       && (!free ==> (Has(t.cpu.mem[IRR2], 0x04) <==> b.flag || counts >= first))
  }

  lemma TimerWTicked(s: State, t: State, free: bool)
    requires Ok(s) && Ok(t) && TickedW(TimersOf(s), TimersOf(t), free) && Timers.RunningW(TimersOf(s).w)
    ensures TimerWStands(s, t, free)
  {
    hide TimerBOf, Timers.FirstMatch, Timers.CounterAfter, Get16, Has, Timers.TicksW;
    Timers.TimerWClosedForm(TimersOf(s).w, t.latches.sub - s.latches.sub);
  }

  lemma TimerBTicked(s: State, t: State, free: bool)
    requires Ok(s) && Ok(t) && TickedB(TimersOf(s), TimersOf(t), free) && Timers.RunningB(TimersOf(s).b)
    ensures TimerBStands(s, t, free)
  {
    hide TimerWOf, Timers.Phase, Has, Timers.TicksB;
    Timers.TimerBClosedForm(TimersOf(s).b, s.latches.sub, t.latches.sub - s.latches.sub);
  }

  /**
   Timer W over a run. As long as no instruction changes the registers that its counter depends on, the counter after
   any number of sub clock ticks is that of the closed form, whatever is executed, interrupted, pressed and displayed
   meanwhile, and whatever happens to Timer B and to the request flag; and if the flag is left alone too, it is up once
   the first match has passed.
   */
  lemma TimerWRuns(states: seq<State>, actions: seq<Runs.Action>, from: nat, n: nat, free: bool)
    requires Runs.IsRun(states, actions) && from <= n <= |actions| && LeftAloneW(states, actions, from, n, free)
    requires Ok(states[from]) && Timers.RunningW(TimersOf(states[from]).w)
    ensures Ok(states[n]) && TimerWStands(states[from], states[n], free)
  {
    hide TimersOf, TickedW, TimerWStands, Runs.NextAt, LeftAloneW, Timers.RunningW, Ok;
    RunTicksW(states, actions, from, n, free);
    TimerWTicked(states[from], states[n], free);
  }

  /** Timer B over a run, in the same way: its counter, whatever happens to Timer W and to its own request flag. */
  lemma TimerBRuns(states: seq<State>, actions: seq<Runs.Action>, from: nat, n: nat, free: bool)
    requires Runs.IsRun(states, actions) && from <= n <= |actions| && LeftAloneB(states, actions, from, n, free)
    requires Ok(states[from]) && Timers.RunningB(TimersOf(states[from]).b)
    ensures Ok(states[n]) && TimerBStands(states[from], states[n], free)
  {
    hide TimersOf, TickedB, TimerBStands, Runs.NextAt, LeftAloneB, Timers.RunningB, Ok;
    RunTicksB(states, actions, from, n, free);
    TimerBTicked(states[from], states[n], free);
  }

  // ---------------------------------------------------------------- the serial unit

  /** The same bus but for the receive flag, which the program clears when it reads what it received. */
  predicate SameBus(b: Ssu.Bus, c: Ssu.Bus) { b.(rdrf := false) == c.(rdrf := false) }

  /** What the instruction of an action does to the serial unit: nothing, or it stores a byte, or it moves the pins. */
  predicate Performs(s: State, a: Runs.Action, did: Option<Feed>)
    requires Ok(s)
  {
    if Runs.Executes(s, a) then
      && did != Some(Beat)
      && (Admissible(a.e, s.cpu.core.flags) && Instruct(s, a.e).Ran? ==>
            SameBus(BusOf(Instruct(s, a.e).value.cpu.mem),
                    if did.Some? then FedBus(BusOf(s.cpu.mem), did.value) else BusOf(s.cpu.mem)))
    else did == None
  }

  function Feeding(did: Option<Feed>): seq<Feed> { if did.Some? then [did.value] else [] }

  /** The cleanup behind an instruction. */
  lemma InstructCleansUp(s: State, e: Effect)
    requires Ok(s) && Admissible(e, s.cpu.core.flags) && !s.cpu.core.sleep && Instruct(s, e).Ran?
    ensures var t := Instruct(s, e).value;
            Devices(t) == Ssu.Cleanup(Devices(s).(bus := BusOf(t.cpu.mem)))
  {
    hide Perform, Decode;
  }

  lemma InstructionDrives(s: State, a: Runs.Action, did: Option<Feed>)
    requires Ok(s) && Runs.Executes(s, a) && Admissible(a.e, s.cpu.core.flags) && Instruct(s, a.e).Ran?
    requires Performs(s, a, did) && Clean(Devices(s))
    ensures var t := Devices(Instruct(s, a.e).value);
            Clean(t) && Brings(Devices(s), Feeding(did), t)
  {
    var d, b := Devices(s), BusOf(Instruct(s, a.e).value.cpu.mem);
    InstructCleansUp(s, a.e);
    CleanupIsClean(d.(bus := b));
    CleanupRespects(d, if did.Some? then FedBus(d.bus, did.value) else d.bus, b);
    if did.Some? {
      DriveOne(d, did.value);
    } else {
      DriveNothing(d);
    }
  }

  lemma CleanupRespects(d: Ssu.Devices, b: Ssu.Bus, c: Ssu.Bus)
    requires SameBus(b, c)
    ensures Same(Ssu.Cleanup(d.(bus := b)), Ssu.Cleanup(d.(bus := c)))
  {
    assert c == b.(rdrf := c.rdrf);
  }

  lemma SubClockKeepsDevices(s: State)
    requires Ok(s)
    ensures Devices(SubClockTick(s)) == Devices(s)
  {
  }

  /** The serial unit's ticks in a cycle. */
  lemma CycleBeats(s: State) returns (n: nat)
    requires Ok(s) && Cycle(s).Ran?
    ensures Brings(Devices(s), Beats(n), Devices(Cycle(s).value))
    ensures n == if (s.cycles + 1) % SSU_PERIOD == 0 then 1 else 0
    ensures Cycle(s).value.latches.serial == s.latches.serial + n && Cycle(s).value.cycles == s.cycles + 1
    ensures Clean(Devices(s)) ==> Clean(Devices(Cycle(s).value))
  {
    hide Ssu.Tick, SubClockTick, Timers.TickB, Timers.TickW;
    var t := CountCycle(s);
    n := if t.cycles % SSU_PERIOD == 0 then 1 else 0;
    Runs.PhasesCount(t);
    DriveBeats(Devices(s), n);
    BeatOnce(Devices(s));
    if n == 1 {
      SsuTickIsTick(t);
    }
    SubClockKeepsDevices(SsuPhase(t).value);
    assert Drive(Devices(s), Beats(n)) == Ssu.Ran(Devices(Cycle(s).value));
    if Clean(Devices(s)) {
      DrivenIsClean(Devices(s), Beats(n));
    }
  }

  lemma BeatOnce(d: Ssu.Devices)
    requires Ssu.Ok(d)
    ensures Ssu.Ticks(d, 0) == Ssu.Ran(d) && Ssu.Ticks(d, 1) == Ssu.Tick(d)
  {
    assert Ssu.Ticks(d, 0) == Ssu.Ran(d);
    Ssu.OneMoreTick(d, 0);
  }

  lemma DispatchKeepsDevices(s: State)
    requires Ok(s)
    ensures Devices(Dispatch(s)) == Devices(s) && Dispatch(s).latches == s.latches && Dispatch(s).cycles == s.cycles
  {
  }

  /** The unit ticks at most once in a call. */
  lemma FinishBeats(s: State) returns (n: nat)
    requires Ok(s) && Finish(s).Ran?
    ensures n <= 1 && Brings(Devices(s), Beats(n), Devices(Finish(s).value))
    ensures Finish(s).value.latches.serial == s.latches.serial + n
    ensures Clean(Devices(s)) ==> Clean(Devices(Finish(s).value))
  {
    hide Cycle, Dispatch, Devices, Brings, Clean;
    var t := Dispatch(s);
    DispatchKeepsDevices(s);
    var first := CycleBeats(t);
    var u := Cycle(t).value;
    var second := CycleBeats(u);
    n := first + second;
    BringsOn(Devices(t), Beats(first), Devices(u), Beats(second), Devices(Cycle(u).value));
    assert Beats(first) + Beats(second) == Beats(n);
  }

  /** Between the steps of the program, and while it sleeps, nothing reaches the serial unit but the display. */
  lemma BetweenKeepsDevices(s: State, a: Runs.Action, t: State)
    requires Ok(s) && Ok(t) && Runs.Next(s, a, t) && (a.Call? ==> Skipped(s.cpu.core))
    ensures Same(Devices(s), Devices(t)) && t.latches.serial == s.latches.serial
    ensures Clean(Devices(s)) ==> Clean(Devices(t))
  {
    hide Clean, Has;
    BetweenKeepsBus(s, a, t);
    CleanMeans(Devices(s));
    CleanMeans(Devices(t));
  }

  /** The registers of the serial unit and the ports. */
  predicate SameRegisters(mem: seq<u8>, mem': seq<u8>)
    requires |mem| == |mem'| == MEM_SIZE
  {
    && mem'[SSER] == mem[SSER] && mem'[SSSR] == mem[SSSR] && mem'[SSRDR] == mem[SSRDR] && mem'[SSTDR] == mem[SSTDR]
    && mem'[PORT1] == mem[PORT1] && mem'[PORT9] == mem[PORT9]
  }

  lemma SameRegistersSameBus(mem: seq<u8>, mem': seq<u8>)
    requires |mem| == |mem'| == MEM_SIZE && SameRegisters(mem, mem')
    ensures BusOf(mem') == BusOf(mem)
  {
    hide Has;
  }

  lemma RegistersKept(mem: seq<u8>, a: nat, byte: u8)
    requires |mem| == MEM_SIZE && a in {IRR1, RTCFLG}
    ensures SameRegisters(mem, mem[a := byte]) && SameRegisters(mem, mem)
  {
  }

  lemma BetweenKeepsBus(s: State, a: Runs.Action, t: State)
    requires Ok(s) && Ok(t) && Runs.Next(s, a, t) && (a.Call? ==> Skipped(s.cpu.core))
    ensures BusOf(t.cpu.mem) == BusOf(s.cpu.mem) && t.latches == s.latches
  {
    hide Has, SameRegisters, BusOf, RaiseIf, Raise;
    RegistersKept(s.cpu.mem, IRR1, t.cpu.mem[IRR1]);
    RegistersKept(s.cpu.mem, RTCFLG, t.cpu.mem[RTCFLG]);
    SameRegistersSameBus(s.cpu.mem, t.cpu.mem);
  }

  /** What reaches the serial unit in an action: what the program does to it, and its ticks. */
  function ActionFeeds(s: State, did: Option<Feed>, t: State): seq<Feed> {
    Feeding(did) + Beats(if t.latches.serial >= s.latches.serial then t.latches.serial - s.latches.serial else 0)
  }

  lemma CallDrives(s: State, a: Runs.Action, t: State, did: Option<Feed>)
    requires Ok(s) && Ok(t) && a.Call? && !Skipped(s.cpu.core) && Runs.Next(s, a, t)
    requires Performs(s, a, did) && Clean(Devices(s))
    ensures Clean(Devices(t)) && Brings(Devices(s), ActionFeeds(s, did, t), Devices(t))
  {
    hide Finish, Instruct, Devices, Brings, Clean;
    var u := Instruct(s, a.e).value;
    if s.cpu.core.sleep {
      AsleepStays(s, a.e);
      BringsNowhere(Devices(s), Devices(s));
    } else {
      InstructionDrives(s, a, did);
    }
    InstructKeepsCounts(s, a.e);
    var n := FinishBeats(u);
    BringsOn(Devices(s), Feeding(did), Devices(u), Beats(n), Devices(t));
  }

  lemma AsleepStays(s: State, e: Effect)
    requires Ok(s) && Admissible(e, s.cpu.core.flags) && s.cpu.core.sleep
    ensures Instruct(s, e) == Ssu.Ran(s)
  {
  }

  lemma ActionDrives(s: State, a: Runs.Action, t: State, did: Option<Feed>)
    requires Ok(s) && Ok(t) && Runs.Next(s, a, t) && Performs(s, a, did) && Clean(Devices(s))
    ensures Clean(Devices(t)) && Brings(Devices(s), ActionFeeds(s, did, t), Devices(t))
  {
    hide Turn, Devices, Brings, Clean, Same;
    if a.Call? && !Skipped(s.cpu.core) {
      CallDrives(s, a, t, did);
    } else {
      BetweenKeepsDevices(s, a, t);
      BringsNowhere(Devices(s), Devices(t));
      assert ActionFeeds(s, did, t) == [];
    }
  }

  /** What the program did to the serial unit in each action of a stretch of a run. */
  ghost predicate Performed(states: seq<State>, actions: seq<Runs.Action>, dids: seq<Option<Feed>>, from: nat, n: nat)
    requires Runs.IsRun(states, actions) && from <= n <= |actions|
  {
    && |dids| == |actions|
    && forall i: nat :: from <= i < n ==> PerformedAt(states, actions, dids, i)
  }

  ghost predicate PerformedAt(states: seq<State>, actions: seq<Runs.Action>, dids: seq<Option<Feed>>, i: nat)
    requires Runs.IsRun(states, actions) && |dids| == |actions| && i < |actions|
  {
    Ok(states[i]) && Performs(states[i], actions[i], dids[i])
  }

  /** What reached the serial unit in a stretch of a run. */
  function Feeds(states: seq<State>, dids: seq<Option<Feed>>, from: nat, n: nat): seq<Feed>
    requires |states| == |dids| + 1 && from <= n <= |dids|
  {
    if n == from then [] else Feeds(states, dids, from, n - 1) + ActionFeeds(states[n - 1], dids[n - 1], states[n])
  }

  lemma StepOf(states: seq<State>, actions: seq<Runs.Action>, dids: seq<Option<Feed>>, from: nat, i: nat)
    requires Runs.IsRun(states, actions) && from <= i < |actions| && Performed(states, actions, dids, from, i + 1)
    ensures Ok(states[i]) && Ok(states[i + 1]) && Runs.Next(states[i], actions[i], states[i + 1])
    ensures Performed(states, actions, dids, from, i) && Performs(states[i], actions[i], dids[i])
  {
    assert Runs.NextAt(states, actions, i) && PerformedAt(states, actions, dids, i);
  }

  /**
   Whatever is executed, interrupted, pressed and displayed: the devices behind the serial unit are where the stores
   and pin changes of the program and the ticks of the unit, in their order, bring them.
   */
  lemma {:induction false} RunDrives(states: seq<State>, actions: seq<Runs.Action>, dids: seq<Option<Feed>>,
                                     from: nat, n: nat)
    requires Runs.IsRun(states, actions) && from <= n <= |actions| && Performed(states, actions, dids, from, n)
    requires Ok(states[from]) && Clean(Devices(states[from]))
    ensures |states| == |dids| + 1 && Ok(states[n]) && Clean(Devices(states[n]))
    ensures Brings(Devices(states[from]), Feeds(states, dids, from, n), Devices(states[n]))
  {
    hide Devices, Brings, Clean, Runs.Next, Runs.NextAt, Performs, PerformedAt, ActionFeeds;
    if n == from {
      BringsNowhere(Devices(states[from]), Devices(states[from]));
    } else {
      StepOf(states, actions, dids, from, n - 1);
      RunDrives(states, actions, dids, from, n - 1);
      ActionDrives(states[n - 1], actions[n - 1], states[n], dids[n - 1]);
      BringsOn(Devices(states[from]), Feeds(states, dids, from, n - 1), Devices(states[n - 1]),
               ActionFeeds(states[n - 1], dids[n - 1], states[n]), Devices(states[n]));
    }
  }

  // ---------------------------------------------------------------- stretches in which the program does anything

  lemma BehindIsClean(s: State, a: Runs.Action)
    requires Ok(s) && Clean(Devices(s))
    ensures Clean(Devices(Behind(s, a)))
  {
    hide Clean, Instruct, Ssu.Cleanup;
    if Runs.Executes(s, a) && Admissible(a.e, s.cpu.core.flags) && Instruct(s, a.e).Ran? {
      InstructCleansUp(s, a.e);
      CleanupIsClean(Devices(s).(bus := BusOf(Instruct(s, a.e).value.cpu.mem)));
    }
  }

  lemma CallBehind(s: State, a: Runs.Action)
    requires Ok(s) && a.Call? && !Skipped(s.cpu.core) && Admissible(a.e, s.cpu.core.flags) && Instruct(s, a.e).Ran?
    ensures Behind(s, a) == Instruct(s, a.e).value
  {
    if s.cpu.core.sleep {
      AsleepStays(s, a.e);
    }
  }

  /** Behind its instruction an action is nothing or one tick of the serial unit. */
  predicate TickedOnce(d: Ssu.Devices, ticked: bool, t: Ssu.Devices)
    requires Ssu.Ok(d)
  {
    if ticked then Ssu.Tick(d).Ran? && Same(Ssu.Tick(d).value, t) else Same(d, t)
  }

  lemma BroughtByOne(d: Ssu.Devices, n: nat, t: Ssu.Devices)
    requires Ssu.Ok(d) && n <= 1 && Brings(d, Beats(n), t)
    ensures TickedOnce(d, n == 1, t)
  {
    hide Ssu.Tick;
    DriveBeats(d, n);
    BeatOnce(d);
  }

  lemma ActionTicksOnce(s: State, a: Runs.Action, t: State)
    requires Ok(s) && Ok(t) && Runs.Next(s, a, t)
    ensures TickedOnce(Devices(Behind(s, a)), t.latches.serial != s.latches.serial, Devices(t))
    ensures Clean(Devices(s)) ==> Clean(Devices(t))
  {
    hide Finish, Instruct, Devices, Brings, Clean, Behind, TickedOnce;
    if a.Call? && !Skipped(s.cpu.core) {
      CallBehind(s, a);
      InstructKeepsCounts(s, a.e);
      var n := FinishBeats(Instruct(s, a.e).value);
      BroughtByOne(Devices(Behind(s, a)), n, Devices(t));
      if Clean(Devices(s)) {
        BehindIsClean(s, a);
      }
    } else {
      BetweenIsNoTick(s, a, t);
    }
  }

  lemma BetweenIsNoTick(s: State, a: Runs.Action, t: State)
    requires Ok(s) && Ok(t) && Runs.Next(s, a, t) && (a.Call? ==> Skipped(s.cpu.core))
    ensures TickedOnce(Devices(Behind(s, a)), t.latches.serial != s.latches.serial, Devices(t))
    ensures Clean(Devices(s)) ==> Clean(Devices(t))
  {
    hide Clean, Same, Devices, Runs.Next;
    BetweenKeepsDevices(s, a, t);
  }

  lemma {:induction false} RunStaysClean(states: seq<State>, actions: seq<Runs.Action>, from: nat, n: nat)
    requires Runs.IsRun(states, actions) && from <= n <= |actions| && Ok(states[from]) && Clean(Devices(states[from]))
    ensures Ok(states[n]) && Clean(Devices(states[n]))
  {
    hide Clean, Devices, Runs.Next, Runs.NextAt, TickedOnce, Behind;
    if n > from {
      RunStaysClean(states, actions, from, n - 1);
      NextOf(states, actions, n - 1);
      ActionTicksOnce(states[n - 1], actions[n - 1], states[n]);
    }
  }

  lemma BehindKeepsMemories(s: State, a: Runs.Action)
    requires Ok(s)
    ensures Behind(s, a).peripherals.eeprom.memory == s.peripherals.eeprom.memory
    ensures Behind(s, a).peripherals.lcd == s.peripherals.lcd
  {
    hide Instruct;
    if Runs.Executes(s, a) && Admissible(a.e, s.cpu.core.flags) && Instruct(s, a.e).Ran? {
      InstructCleansUp(s, a.e);
    }
  }

  /** What one action stores in the two memories: what the tick in it stores, if there is one. */
  lemma ActionStores(s: State, a: Runs.Action, t: State)
    requires Ok(s) && Ok(t) && Runs.Next(s, a, t)
    ensures var d, p, q := Devices(Behind(s, a)), s.peripherals, t.peripherals;
            && d.eeprom.memory == p.eeprom.memory && d.lcd.memory == p.lcd.memory
            && if t.latches.serial != s.latches.serial then StoresOnly(d, Devices(t))
               else q.eeprom.memory == p.eeprom.memory && q.lcd.memory == p.lcd.memory
  {
    hide Ssu.Tick, Behind, Runs.Next, ProgramsByte, PaintsByte;
    ActionTicksOnce(s, a, t);
    BehindKeepsMemories(s, a);
    if t.latches.serial != s.latches.serial {
      TickStores(Devices(Behind(s, a)));
    }
  }

  // ---------------------------------------------------------------- the EEPROM

  /** In the action no data byte of a WRITE ends in the EEPROM's addresses from `low` to `high`. */
  predicate SparesEeprom(s: State, a: Runs.Action, t: State, low: nat, high: nat)
    requires Ok(s)
  {
    var d := Devices(Behind(s, a));
    t.latches.serial != s.latches.serial && ProgramsByte(d) ==> !(low <= Ssu.EepromIndex(d.eeprom) < high)
  }

  lemma ActionSparesEeprom(s: State, a: Runs.Action, t: State, low: nat, high: nat)
    requires Ok(s) && Ok(t) && Runs.Next(s, a, t) && SparesEeprom(s, a, t, low, high) && low <= high <= Ssu.EEPROM_SIZE
    ensures t.peripherals.eeprom.memory[low..high] == s.peripherals.eeprom.memory[low..high]
  {
    hide Behind, Runs.Next, ProgramsByte, PaintsByte;
    ActionStores(s, a, t);
  }

  ghost predicate EepromSpared(states: seq<State>, actions: seq<Runs.Action>, from: nat, n: nat, low: nat, high: nat)
    requires Runs.IsRun(states, actions) && from <= n <= |actions|
  {
    forall i: nat :: from <= i < n ==> EepromSparedAt(states, actions, i, low, high)
  }

  ghost predicate EepromSparedAt(states: seq<State>, actions: seq<Runs.Action>, i: nat, low: nat, high: nat)
    requires Runs.IsRun(states, actions) && i < |actions|
  {
    Ok(states[i]) && SparesEeprom(states[i], actions[i], states[i + 1], low, high)
  }

  lemma {:induction false} RunSparesEeprom(states: seq<State>, actions: seq<Runs.Action>, from: nat, n: nat,
                                           low: nat, high: nat)
    requires Runs.IsRun(states, actions) && from <= n <= |actions| && low <= high <= Ssu.EEPROM_SIZE
    requires EepromSpared(states, actions, from, n, low, high) && Ok(states[from])
    ensures Ok(states[n])
    ensures states[n].peripherals.eeprom.memory[low..high] == states[from].peripherals.eeprom.memory[low..high]
  {
    hide Runs.Next, Runs.NextAt, SparesEeprom;
    if n > from {
      RunSparesEeprom(states, actions, from, n - 1, low, high);
      NextOf(states, actions, n - 1);
      assert EepromSparedAt(states, actions, n - 1, low, high);
      ActionSparesEeprom(states[n - 1], actions[n - 1], states[n], low, high);
    }
  }

  lemma TransactionDriven(d: Ssu.Devices, h: EepromProtocol.Header, data: seq<Ssu.Datum>, e: Ssu.Devices)
    requires Clean(d) && Brings(d, TransactionFeeds(h, data), e) && EepromProtocol.Begin(d, h).Ran?
    ensures Ssu.SendAll(EepromProtocol.Begin(d, h).value, data).Ran?
    ensures Same(Ssu.SendAll(EepromProtocol.Begin(d, h).value, data).value, e)
  {
    hide Ssu.SendAll, EepromProtocol.Begin, Drive, Same;
    DriveTransaction(d, h, data);
  }

  /** A WRITE that a run carries out: it must have fitted, and its bytes are in the page. */
  lemma WriteDriven(d: Ssu.Devices, h: EepromProtocol.Header, data: seq<Ssu.Datum>, e: Ssu.Devices)
    requires EepromProtocol.At(d, Ssu.Empty, 0) && EepromProtocol.Writing(d.bus) && h.command.byte == 2
    requires Clean(d) && Brings(d, TransactionFeeds(h, data), e)
    ensures EepromProtocol.Address(h) + Min(|data|, 128) <= Ssu.EEPROM_SIZE
    ensures e.eeprom.memory == EepromProtocol.Programmed(d.eeprom.memory, EepromProtocol.Address(h), data)
  {
    hide Brings, Clean, EepromProtocol.Programmed, Ssu.SendAll, EepromProtocol.Begin;
    EepromProtocol.BeginReachesData(d, h);
    TransactionDriven(d, h, data, e);
    EepromProtocol.WriteProgramsPage(d, h, data);
  }

  /** A READ that a run carries out: it must have fitted, and its last byte is in the receive register. */
  lemma ReadDriven(d: Ssu.Devices, h: EepromProtocol.Header, pauses: seq<Ssu.Datum>, e: Ssu.Devices)
    requires EepromProtocol.At(d, Ssu.Empty, 0) && EepromProtocol.Reading(d.bus) && h.command.byte == 3
    requires Clean(d) && Brings(d, TransactionFeeds(h, pauses), e) && pauses != []
    ensures var k := (|pauses| - 1) % EepromProtocol.READ_WRAP;
            && EepromProtocol.Address(h) + k < |d.eeprom.memory|
            && e.bus.ssrdr == d.eeprom.memory[EepromProtocol.Address(h) + k]
    ensures e.eeprom.memory == d.eeprom.memory
  {
    hide Brings, Clean, Ssu.SendAll, EepromProtocol.Begin, EepromProtocol.Receive;
    EepromProtocol.BeginReachesData(d, h);
    TransactionDriven(d, h, pauses, e);
    ReceivingIsSending(EepromProtocol.Begin(d, h).value, pauses);
    EepromProtocol.ReadReturnsMemory(d, h, pauses);
    var got := EepromProtocol.ReadTransaction(d, h, pauses).value.1;
    assert got[|got| - 1] == EepromProtocol.ReadByte(d.eeprom.memory, EepromProtocol.Address(h), |got| - 1);
  }

  /** A WRITE of up to a page that a run carries out: its bytes lie in the device, in order. */
  lemma ShortWriteDriven(d: Ssu.Devices, h: EepromProtocol.Header, data: seq<Ssu.Datum>, e: Ssu.Devices)
    requires EepromProtocol.At(d, Ssu.Empty, 0) && EepromProtocol.Writing(d.bus) && h.command.byte == 2
    requires Clean(d) && Brings(d, TransactionFeeds(h, data), e) && |data| <= 128
    ensures var base := EepromProtocol.Address(h);
            base + |data| <= Ssu.EEPROM_SIZE == |e.eeprom.memory|
            && e.eeprom.memory[base..base + |data|] == EepromProtocol.TheBytes(data)
  {
    hide Clean, Brings, TransactionFeeds, EepromProtocol.Programmed;
    WriteDriven(d, h, data, e);
    EepromProtocol.ShortPageProgrammed(d.eeprom.memory, e.eeprom.memory, EepromProtocol.Address(h), data);
  }

  lemma ReadFinds(d: Ssu.Devices, h: EepromProtocol.Header, pauses: seq<Ssu.Datum>, e: Ssu.Devices, bytes: seq<u8>)
    requires EepromProtocol.At(d, Ssu.Empty, 0) && EepromProtocol.Reading(d.bus) && h.command.byte == 3
    requires Clean(d) && Brings(d, TransactionFeeds(h, pauses), e) && 0 < |pauses| <= |bytes| <= 128
    requires EepromProtocol.Address(h) + |bytes| <= |d.eeprom.memory|
    requires d.eeprom.memory[EepromProtocol.Address(h)..EepromProtocol.Address(h) + |bytes|] == bytes
    ensures e.bus.ssrdr == bytes[|pauses| - 1]
  {
    hide Clean, Brings, TransactionFeeds;
    ReadDriven(d, h, pauses, e);
    var base := EepromProtocol.Address(h);
    assert d.eeprom.memory[base..base + |bytes|][|pauses| - 1] == bytes[|pauses| - 1];
  }

  /**
   The EEPROM over a run of the machine. The program writes up to a page (from `a` to `b`), goes about any business,
   with the EEPROM too, in which no data byte of a WRITE ends at the addresses that it wrote (to `c`), and reads from
   the same address (to `e`): it finds the byte that it wrote in SSRDR, at each byte of the READ, whatever is executed,
   interrupted, pressed and displayed meanwhile.
   */
  lemma ProgramReadsWhatItWrote(states: seq<State>, actions: seq<Runs.Action>, dids: seq<Option<Feed>>,
                                a: nat, b: nat, c: nat, e: nat,
                                w: EepromProtocol.Header, data: seq<Ssu.Datum>,
                                r: EepromProtocol.Header, pauses: seq<Ssu.Datum>)
    requires Runs.IsRun(states, actions) && a <= b <= c <= e <= |actions|
    requires Performed(states, actions, dids, a, b) && Performed(states, actions, dids, c, e)
    requires Ok(states[a]) && Clean(Devices(states[a])) && Ok(states[c])
    requires EepromProtocol.At(Devices(states[a]), Ssu.Empty, 0) && EepromProtocol.Writing(BusOf(states[a].cpu.mem))
    requires Feeds(states, dids, a, b) == TransactionFeeds(w, data) && w.command.byte == 2
    requires EepromSpared(states, actions, b, c, EepromProtocol.Address(w), EepromProtocol.Address(w) + |data|)
    requires EepromProtocol.At(Devices(states[c]), Ssu.Empty, 0) && EepromProtocol.Reading(BusOf(states[c].cpu.mem))
    requires Feeds(states, dids, c, e) == TransactionFeeds(r, pauses) && r.command.byte == 3
    requires r.high.byte == w.high.byte && r.low.byte == w.low.byte && 0 < |pauses| <= |data| <= 128
    ensures Ok(states[e]) && states[e].cpu.mem[SSRDR] == data[|pauses| - 1].byte
  {
    hide Clean, Brings, Feeds, TransactionFeeds, EepromSpared, Performed, EepromProtocol.At, Runs.NextAt;
    RunDrives(states, actions, dids, a, b);
    ShortWriteDriven(Devices(states[a]), w, data, Devices(states[b]));
    RunSparesEeprom(states, actions, b, c, EepromProtocol.Address(w), EepromProtocol.Address(w) + |data|);
    RunStaysClean(states, actions, a, c);
    RunDrives(states, actions, dids, c, e);
    ReadFinds(Devices(states[c]), r, pauses, Devices(states[e]), EepromProtocol.TheBytes(data));
  }

  // ---------------------------------------------------------------- the LCD

  /** In the action no data byte for the LCD ends in its memory from `low` to `high`. */
  predicate SparesLcd(s: State, a: Runs.Action, t: State, low: nat, high: nat)
    requires Ok(s)
  {
    var d := Devices(Behind(s, a));
    t.latches.serial != s.latches.serial && PaintsByte(d) ==> !(low <= Ssu.LcdIndex(d.lcd) < high)
  }

  lemma ActionSparesLcd(s: State, a: Runs.Action, t: State, low: nat, high: nat)
    requires Ok(s) && Ok(t) && Runs.Next(s, a, t) && SparesLcd(s, a, t, low, high) && low <= high <= Ssu.LCD_SIZE
    ensures t.peripherals.lcd.memory[low..high] == s.peripherals.lcd.memory[low..high]
  {
    hide Behind, Runs.Next, ProgramsByte, PaintsByte;
    ActionStores(s, a, t);
  }

  ghost predicate LcdSpared(states: seq<State>, actions: seq<Runs.Action>, from: nat, n: nat, low: nat, high: nat)
    requires Runs.IsRun(states, actions) && from <= n <= |actions|
  {
    forall i: nat :: from <= i < n ==> LcdSparedAt(states, actions, i, low, high)
  }

  ghost predicate LcdSparedAt(states: seq<State>, actions: seq<Runs.Action>, i: nat, low: nat, high: nat)
    requires Runs.IsRun(states, actions) && i < |actions|
  {
    Ok(states[i]) && SparesLcd(states[i], actions[i], states[i + 1], low, high)
  }

  lemma {:induction false} RunSparesLcd(states: seq<State>, actions: seq<Runs.Action>, from: nat, n: nat,
                                        low: nat, high: nat)
    requires Runs.IsRun(states, actions) && from <= n <= |actions| && low <= high <= Ssu.LCD_SIZE
    requires LcdSpared(states, actions, from, n, low, high) && Ok(states[from])
    ensures Ok(states[n])
    ensures states[n].peripherals.lcd.memory[low..high] == states[from].peripherals.lcd.memory[low..high]
  {
    hide Runs.Next, Runs.NextAt, SparesLcd;
    if n > from {
      RunSparesLcd(states, actions, from, n - 1, low, high);
      NextOf(states, actions, n - 1);
      assert LcdSparedAt(states, actions, n - 1, low, high);
      ActionSparesLcd(states[n - 1], actions[n - 1], states[n], low, high);
    }
  }

  /** The first byte of a page. */
  function PageStart(page: nat): nat { page * Ssu.LCD_STRIPE }

  /** From `from` to `n` the program draws a page, with any pauses between its steps. */
  ghost predicate DrawsPage(states: seq<State>, actions: seq<Runs.Action>, dids: seq<Option<Feed>>, from: nat, n: nat,
                            page: u8, s: LcdProtocol.Stripe)
    requires Runs.IsRun(states, actions) && from <= n <= |actions| && page < 16
  {
    && Performed(states, actions, dids, from, n)
    && Ok(states[from]) && LcdProtocol.ReadyToDraw(Devices(states[from]))
    && Feeds(states, dids, from, n) == PageFeeds(page, s)
  }

  /**
   The program draws the eight stripes of a picture one after the other, the q-th from `begins[q]` to `ends[q]`. Up to
   the next one it does anything in which no data byte for the LCD ends in the stripes that are drawn.
   */
  ghost predicate DrawsPicture(states: seq<State>, actions: seq<Runs.Action>, dids: seq<Option<Feed>>,
                               begins: seq<nat>, ends: seq<nat>, first: u8, stripes: seq<LcdProtocol.Stripe>)
    requires Runs.IsRun(states, actions) && |begins| == |ends| == |stripes| == 8 && first <= 8
  {
    forall q: nat :: q < 8 ==> DrawsStripe(states, actions, dids, begins, ends, first, stripes, q)
  }

  ghost predicate DrawsStripe(states: seq<State>, actions: seq<Runs.Action>, dids: seq<Option<Feed>>,
                              begins: seq<nat>, ends: seq<nat>, first: u8, stripes: seq<LcdProtocol.Stripe>, q: nat)
    requires Runs.IsRun(states, actions) && |begins| == |ends| == |stripes| == 8 && first <= 8 && q < 8
  {
    && begins[q] <= ends[q] <= |actions| && |stripes[q].data| == Ssu.LCD_STRIPE
    && DrawsPage(states, actions, dids, begins[q], ends[q], first + q as int, stripes[q])
    && (q > 0 ==>
          && ends[q - 1] <= begins[q]
          && LcdSpared(states, actions, ends[q - 1], begins[q], PageStart(first as int), PageStart(first as int + q)))
  }

  /** A page that a run draws. */
  lemma PageDriven(d: Ssu.Devices, page: u8, s: LcdProtocol.Stripe, e: Ssu.Devices)
    requires Clean(d) && LcdProtocol.ReadyToDraw(d) && page < 16 && |s.data| == Ssu.LCD_STRIPE
    requires Brings(d, PageFeeds(page, s), e)
    ensures e.lcd.memory == LcdProtocol.Striped(d.lcd.memory, page, s.data)
  {
    hide LcdProtocol.DrawPage, Drive, PageFeeds, LcdProtocol.Striped, Clean, LcdProtocol.ReadyToDraw;
    DrivePage(d, page, s);
    LcdProtocol.DrawPageStripes(d, page, s);
  }

  /** Stripes that are drawn stay as long as their part of the memory does. */
  lemma HoldsOn(memory: seq<u8>, memory': seq<u8>, first: u8, stripes: seq<LcdProtocol.Stripe>)
    requires |memory| == |memory'| == Ssu.LCD_SIZE && first + |stripes| as int <= 16
    requires forall q: nat :: q < |stripes| ==> |stripes[q].data| == Ssu.LCD_STRIPE
    requires var low, high := PageStart(first as int), PageStart(first as int + |stripes|);
             memory'[low..high] == memory[low..high]
    requires LcdProtocol.Holds(memory, first, stripes)
    ensures LcdProtocol.Holds(memory', first, stripes)
  {
    var low, high := PageStart(first as int), PageStart(first as int + |stripes|);
    forall q: nat, i: nat | q < |stripes| && i < Ssu.LCD_STRIPE
      ensures LcdProtocol.HoldsByte(memory', first, stripes, q, i)
    {
      assert LcdProtocol.HoldsByte(memory, first, stripes, q, i);
      var a := LcdProtocol.PageByte(first, q, i);
      assert low <= a < high;
      assert memory'[a] == memory'[low..high][a - low] && memory[a] == memory[low..high][a - low];
    }
  }

  /** One stripe more, on top of those that are drawn. */
  lemma StripeDrawn(d: Ssu.Devices, first: u8, stripes: seq<LcdProtocol.Stripe>, q: nat, e: Ssu.Devices)
    requires Clean(d) && LcdProtocol.ReadyToDraw(d) && |stripes| == q + 1 && first + |stripes| as int <= 16
    requires forall r: nat :: r <= q ==> |stripes[r].data| == Ssu.LCD_STRIPE
    requires LcdProtocol.Holds(d.lcd.memory, first, stripes[..q])
    requires Brings(d, PageFeeds(first + q as int, stripes[q]), e)
    ensures |e.lcd.memory| == Ssu.LCD_SIZE && LcdProtocol.Holds(e.lcd.memory, first, stripes)
  {
    hide Clean, Brings, PageFeeds, LcdProtocol.Striped, LcdProtocol.Holds;
    PageDriven(d, first + q as int, stripes[q], e);
    LcdProtocol.StripeAdded(d.lcd.memory, first, stripes, q);
  }

  lemma NoStripes(memory: seq<u8>, first: u8)
    requires |memory| == Ssu.LCD_SIZE && first <= 16
    ensures LcdProtocol.Holds(memory, first, [])
  {
  }

  lemma {:induction false} StripesDrawn(states: seq<State>, actions: seq<Runs.Action>, dids: seq<Option<Feed>>,
                                        begins: seq<nat>, ends: seq<nat>, first: u8, stripes: seq<LcdProtocol.Stripe>,
                                        q: nat)
    requires Runs.IsRun(states, actions) && |begins| == |ends| == |stripes| == 8 && first <= 8 && q < 8
    requires DrawsPicture(states, actions, dids, begins, ends, first, stripes)
    requires begins[0] <= |actions| && Ok(states[begins[0]]) && Clean(Devices(states[begins[0]]))
    ensures begins[0] <= ends[q] <= |actions| && Ok(states[ends[q]]) && Clean(Devices(states[ends[q]]))
    ensures forall r: nat :: r <= q ==> |stripes[r].data| == Ssu.LCD_STRIPE
    ensures LcdProtocol.Holds(states[ends[q]].peripherals.lcd.memory, first, stripes[..q + 1])
  {
    hide Clean, Brings, Feeds, PageFeeds, Performed, Runs.NextAt, LcdProtocol.ReadyToDraw, LcdProtocol.Holds, LcdSpared;
    assert DrawsStripe(states, actions, dids, begins, ends, first, stripes, q);
    var from, n := begins[q], ends[q];
    if q == 0 {
      NoStripes(states[from].peripherals.lcd.memory, first);
    } else {
      StripesDrawn(states, actions, dids, begins, ends, first, stripes, q - 1);
      var before := ends[q - 1];
      RunStaysClean(states, actions, before, from);
      RunSparesLcd(states, actions, before, from, PageStart(first as int), PageStart(first as int + q));
      HoldsOn(states[before].peripherals.lcd.memory, states[from].peripherals.lcd.memory, first, stripes[..q]);
    }
    RunDrives(states, actions, dids, from, n);
    assert stripes[..q + 1][..q] == stripes[..q];
    StripeDrawn(Devices(states[from]), first, stripes[..q + 1], q, Devices(states[n]));
  }

  /**
   The LCD over a run of the machine. Once the program has drawn the eight stripes of a picture, every frame of that
   buffer (at `c`) is that picture, until a data byte for the LCD ends in it: whatever ticks pass between the steps of
   drawing, whatever the program does between the stripes and behind them, and whatever is executed, interrupted,
   pressed and displayed meanwhile.
   */
  lemma ProgramShowsPicture(states: seq<State>, actions: seq<Runs.Action>, dids: seq<Option<Feed>>,
                            begins: seq<nat>, ends: seq<nat>, c: nat,
                            first: u8, stripes: seq<LcdProtocol.Stripe>, p: seq<nat>)
    requires Runs.IsRun(states, actions) && |begins| == |ends| == |stripes| == 8 && first <= 8
    requires DrawsPicture(states, actions, dids, begins, ends, first, stripes)
    requires begins[0] <= |actions| && Ok(states[begins[0]]) && Clean(Devices(states[begins[0]]))
    requires LcdProtocol.IsPicture(p)
    requires forall q: nat :: q < 8 ==> LcdProtocol.Draws(stripes[q].data, p, q)
    requires ends[7] <= c <= |actions|
    requires LcdSpared(states, actions, ends[7], c, PageStart(first as int), PageStart(first as int + 8))
    requires first == (if states[c].peripherals.lcd.secondBuffer then 8 else 0)
    ensures Ok(states[c])
    ensures LcdProtocol.Frame(states[c].peripherals.lcd)
         == seq(|p|, i requires 0 <= i < |p| => LcdProtocol.Grey(p[i]))
  {
    hide Clean, Runs.NextAt, LcdProtocol.Holds, LcdProtocol.Draws, LcdProtocol.Frame, LcdSpared, DrawsPicture;
    StripesDrawn(states, actions, dids, begins, ends, first, stripes, 7);
    assert stripes[..8] == stripes;
    RunSparesLcd(states, actions, ends[7], c, PageStart(first as int), PageStart(first as int + 8));
    HoldsOn(states[ends[7]].peripherals.lcd.memory, states[c].peripherals.lcd.memory, first, stripes);
    LcdProtocol.FrameShowsPicture(states[c].peripherals.lcd, first, stripes, p);
  }
}
