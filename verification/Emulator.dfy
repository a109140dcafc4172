/**
 The adapter around the emulated device: its cycle budget, and the infrared bytes that the device transmits
 and the host publishes in whole bursts.
 */
module Emulator {
  import opened Words

  const IR_LIMIT: nat := 65536
  const CLOCK: nat := 3686400
  const IDLE: nat := CLOCK / 4000 // 921 cycles without a byte end a burst
  const PUMP_CHUNK: nat := 4096

  type Elapsed = x: int | 1 <= x <= 255 witness 1

  /** What one step of the device does: it transmits some bytes, and takes time or throws. */
  datatype CoreStep = CoreStep(bytes: seq<u8>, elapsed: Elapsed, throws: bool)

  /** `heard` is every byte that the core took from the infrared receiver; the adapter keeps no such record. */
  datatype Device = Device(cycles: nat, target: nat, lastIr: nat, ir: seq<u8>, broken: bool, heard: seq<u8>)

  const NEW: Device := Device(0, 0, 0, [], false, [])

  /** The transmit callback for a run of bytes; the flag tells whether the queue held them all. */
  function Transmit(d: Device, bytes: seq<u8>): (Device, bool)
    decreases |bytes|
  {
    if bytes == [] then (d, true)
    else if |d.ir| == IR_LIMIT then (d, false)
    else Transmit(d.(ir := d.ir + [bytes[0]], lastIr := d.cycles), bytes[1..])
  }

  /** Hands bytes to the core, which takes `accepts` of them before it throws at the next one. */
  function Hear(d: Device, bytes: seq<u8>, accepts: nat): Device {
    d.(heard := d.heard + bytes[..Min(|bytes|, accepts)], broken := d.broken || accepts < |bytes|)
  }

  function StepDevice(d: Device, s: CoreStep): Device {
    var (d', ok) := Transmit(d, s.bytes);
    if ok && !s.throws then d'.(cycles := d'.cycles + s.elapsed) else d'.(broken := true)
  }

  lemma {:induction false} TransmitKeepsTime(d: Device, bytes: seq<u8>)
    ensures var d' := Transmit(d, bytes).0;
            d'.cycles == d.cycles && d'.target == d.target && d'.broken == d.broken
    decreases |bytes|
  {
    if bytes != [] && |d.ir| != IR_LIMIT {
      TransmitKeepsTime(d.(ir := d.ir + [bytes[0]], lastIr := d.cycles), bytes[1..]);
    }
  }

  /** The loop of a run, from step number `k` of the device on. */
  function RunLoop(d: Device, core: nat -> CoreStep, k: nat): Device
    decreases d.target - d.cycles
  {
    TransmitKeepsTime(d, core(k).bytes);
    if d.broken || d.cycles >= d.target then d
    else
      var d' := StepDevice(d, core(k));
      if d'.broken then d' else RunLoop(d', core, k + 1)
  }

  function Raised(d: Device, request: nat): Device { d.(target := d.target + request) }

  /** Runs for `request` more cycles; a broken device stays broken. */
  function RunFor(d: Device, request: nat, core: nat -> CoreStep): Device {
    if d.broken then d else RunLoop(Raised(d, request), core, 0)
  }

  lemma {:induction false} TransmitHearsNothing(d: Device, bytes: seq<u8>)
    ensures var e := Transmit(d, bytes).0;
            && e == d.(ir := e.ir, lastIr := e.lastIr) && (e.lastIr == d.lastIr || e.lastIr == d.cycles)
    decreases |bytes|
  {
    if bytes != [] && |d.ir| != IR_LIMIT {
      TransmitHearsNothing(d.(ir := d.ir + [bytes[0]], lastIr := d.cycles), bytes[1..]);
    }
  }

  lemma {:induction false} RunLoopHearsNothing(d: Device, core: nat -> CoreStep, k: nat)
    requires d.lastIr <= d.cycles
    ensures var e := RunLoop(d, core, k);
            && e.lastIr <= e.cycles && e.heard == d.heard && (d.broken ==> e.broken)
    decreases d.target - d.cycles
  {
    TransmitHearsNothing(d, core(k).bytes);
    if !d.broken && d.cycles < d.target {
      var d' := StepDevice(d, core(k));
      if !d'.broken {
        RunLoopHearsNothing(d', core, k + 1);
      }
    }
  }

  /** While it runs the device hears nothing, and its last stamp is never ahead of its clock. */
  lemma RunForHearsNothing(d: Device, request: nat, core: nat -> CoreStep)
    requires d.lastIr <= d.cycles
    ensures var e := RunFor(d, request, core);
            && e.lastIr <= e.cycles && e.heard == d.heard && (d.broken ==> e.broken)
  {
    if !d.broken {
      RunLoopHearsNothing(Raised(d, request), core, 0);
    }
  }

  lemma RunLoopOnce(d: Device, core: nat -> CoreStep, k: nat)
    requires !d.broken
    ensures StepDevice(d, core(k)).target == d.target
    ensures !StepDevice(d, core(k)).broken ==> StepDevice(d, core(k)).cycles > d.cycles
    ensures RunLoop(d, core, k)
         == if d.cycles >= d.target then d
            else if StepDevice(d, core(k)).broken then StepDevice(d, core(k))
            else RunLoop(StepDevice(d, core(k)), core, k + 1)
  {
    TransmitKeepsTime(d, core(k).bytes);
  }

  // ---------------------------------------------------------------- cycle accounting

  /** The device has executed what was asked for and at most 254 cycles more. */
  predicate OnBudget(d: Device) { d.target <= d.cycles <= d.target + 254 }

  lemma {:induction false} RunLoopOnBudget(d: Device, core: nat -> CoreStep, k: nat)
    requires !d.broken && d.cycles <= d.target + 254
    ensures var e := RunLoop(d, core, k);
            e.target == d.target && (!e.broken ==> OnBudget(e))
    decreases d.target - d.cycles
  {
    TransmitKeepsTime(d, core(k).bytes);
    if d.cycles < d.target {
      var d' := StepDevice(d, core(k));
      if !d'.broken {
        RunLoopOnBudget(d', core, k + 1);
      }
    }
  }

  /** Successive runs, each with its own device behaviour. */
  function RunAll(d: Device, requests: seq<nat>, cores: seq<nat -> CoreStep>): Device
    requires |requests| == |cores|
  {
    if requests == [] then d
    else
      var last := |requests| - 1;
      RunFor(RunAll(d, requests[..last], cores[..last]), requests[last], cores[last])
  }

  function Sum(xs: seq<nat>): nat {
    if xs == [] then 0 else Sum(xs[..|xs| - 1]) + xs[|xs| - 1]
  }

  lemma {:induction false} RunAllOnBudget(requests: seq<nat>, cores: seq<nat -> CoreStep>)
    requires |requests| == |cores| && !RunAll(NEW, requests, cores).broken
    ensures RunAll(NEW, requests, cores).target == Sum(requests) && OnBudget(RunAll(NEW, requests, cores))
  {
    if requests != [] {
      var last := |requests| - 1;
      RunAllOnBudget(requests[..last], cores[..last]);
      var d := RunAll(NEW, requests[..last], cores[..last]);
      RunLoopOnBudget(Raised(d, requests[last]), cores[last], 0);
    }
  }

  /**
   Cycle accounting never drifts: after any number of successful runs that asked for T cycles in all, at least
   T and at most T + 254 cycles were executed.
   */
  lemma CyclesNeverDrift(requests: seq<nat>, cores: seq<nat -> CoreStep>)
    requires |requests| == |cores| && !RunAll(NEW, requests, cores).broken
    ensures Sum(requests) <= RunAll(NEW, requests, cores).cycles <= Sum(requests) + 254
  {
    RunAllOnBudget(requests, cores);
  }

  // ---------------------------------------------------------------- publishing bursts

  /** The device has been idle long enough for a burst to be complete. */
  predicate Idle(d: Device)
    requires d.lastIr <= d.cycles
  {
    d.cycles - d.lastIr >= IDLE
  }

  /** Takes up to `capacity` transmitted bytes, but none before the burst is complete. */
  function TakeIr(d: Device, capacity: nat): (Device, seq<u8>)
    requires d.lastIr <= d.cycles
  {
    var n := if Idle(d) then Min(|d.ir|, capacity) else 0;
    (d.(ir := d.ir[n..]), d.ir[..n])
  }

  /** The host takes chunks until there are none: all of the queue, or nothing. */
  function Pump(d: Device): (Device, seq<u8>)
    requires d.lastIr <= d.cycles
  {
    if Idle(d) then (d.(ir := []), d.ir) else (d, [])
  }

  // ---------------------------------------------------------------- what happens to every byte

  datatype Fate = Waiting | Published(pump: nat) | Cleared

  /** A transmitted byte, the cycle at which it was transmitted, and what became of it. */
  datatype Entry = Entry(byte: u8, at: nat, fate: Fate)

  /** The device with the record of every byte it ever transmitted and of the pumps so far. */
  datatype Tracked = Tracked(d: Device, log: seq<Entry>, pumps: nat)

  datatype Action = Ask(cycles: nat) | Core(s: CoreStep) | PumpAll | Clear | Receive(bytes: seq<u8>, accepts: nat)

  /** How many of the bytes get into the queue. */
  function Room(d: Device, bytes: seq<u8>): nat { if |d.ir| > IR_LIMIT then 0 else Min(|bytes|, IR_LIMIT - |d.ir|) }

  function Stamp(bytes: seq<u8>, at: nat): (r: seq<Entry>)
    ensures |r| == |bytes| && forall i :: 0 <= i < |r| ==> r[i] == Entry(bytes[i], at, Waiting)
  {
    seq(|bytes|, i requires 0 <= i < |bytes| => Entry(bytes[i], at, Waiting))
  }

  /** Every waiting byte gets the given fate. */
  function Settle(log: seq<Entry>, fate: Fate): (r: seq<Entry>)
    ensures |r| == |log|
    ensures forall i :: 0 <= i < |r| ==> r[i] == if log[i].fate.Waiting? then log[i].(fate := fate) else log[i]
  {
    seq(|log|, i requires 0 <= i < |log| => if log[i].fate.Waiting? then log[i].(fate := fate) else log[i])
  }

  function Next(t: Tracked, a: Action): Tracked
    requires t.d.lastIr <= t.d.cycles
  {
    match a
    case Ask(cycles) => if t.d.broken then t else t.(d := t.d.(target := t.d.target + cycles))
    case Core(s) =>
      if t.d.broken then t
      else Tracked(StepDevice(t.d, s), t.log + Stamp(s.bytes[..Room(t.d, s.bytes)], t.d.cycles), t.pumps)
    case PumpAll =>
      if Idle(t.d) then Tracked(Pump(t.d).0, Settle(t.log, Published(t.pumps)), t.pumps + 1) else t
    case Clear => Tracked(t.d.(ir := []), Settle(t.log, Cleared), t.pumps)
    case Receive(bytes, accepts) => t.(d := Hear(t.d, bytes, accepts))
  }

  /** The queue is the waiting tail of the record. */
  predicate IsWaiting(ir: seq<u8>, log: seq<Entry>) {
    && |ir| <= |log|
    && (forall i :: 0 <= i < |log| ==> (log[i].fate.Waiting? <==> i >= |log| - |ir|))
    && (forall i :: |log| - |ir| <= i < |log| ==> log[i].byte == ir[i - (|log| - |ir|)])
  }

  /** The queue is kept on record, and the last time stamp is the last on record. */
  predicate Consistent(t: Tracked) {
    var d, log := t.d, t.log;
    && d.lastIr <= d.cycles
    && |d.ir| <= IR_LIMIT && IsWaiting(d.ir, log)
    && (log != [] ==> log[|log| - 1].at == d.lastIr)
  }

  /** Two bytes in a row that came close together share the pump that publishes them. */
  predicate Together(a: Entry, b: Entry) {
    b.at < a.at + IDLE && a.fate.Published? ==> b.fate == a.fate
  }

  predicate Unsplit(t: Tracked) {
    && (forall i :: 0 <= i < |t.log| - 1 ==> Together(t.log[i], t.log[i + 1]))
    && (t.log != [] && t.log[|t.log| - 1].fate.Published? ==> t.d.cycles >= t.d.lastIr + IDLE)
  }

  predicate Inv(t: Tracked) { Consistent(t) && Unsplit(t) }

  lemma OneMoreQueued(ir: seq<u8>, bytes: seq<u8>, n: nat)
    requires 0 < n <= |bytes|
    ensures ir + [bytes[0]] + bytes[1..][..n - 1] == ir + bytes[..n]
  {
    assert bytes[..n] == [bytes[0]] + bytes[1..][..n - 1];
  }

  /** The callback queues exactly the bytes that fit, and stamps the last of them. */
  lemma {:induction false} TransmitQueues(d: Device, bytes: seq<u8>)
    requires |d.ir| <= IR_LIMIT
    ensures var (d', ok) := Transmit(d, bytes);
            var n := Room(d, bytes);
            && d'.ir == d.ir + bytes[..n] && d'.lastIr == (if n > 0 then d.cycles else d.lastIr)
            && ok == (n == |bytes|)
    decreases |bytes|
  {
    if bytes != [] && |d.ir| != IR_LIMIT {
      var n := Room(d, bytes);
      TransmitQueues(d.(ir := d.ir + [bytes[0]], lastIr := d.cycles), bytes[1..]);
      OneMoreQueued(d.ir, bytes, n);
    } else {
      assert d.ir + bytes[..0] == d.ir;
    }
  }

  /** A device step in terms of the bytes that get into the queue. */
  lemma CoreSends(t: Tracked, s: CoreStep)
    requires Inv(t) && !t.d.broken
    ensures var t', sent := Next(t, Core(s)), s.bytes[..Room(t.d, s.bytes)];
            && t'.d.ir == t.d.ir + sent && t'.log == t.log + Stamp(sent, t.d.cycles)
            && t'.d.lastIr == (if sent == [] then t.d.lastIr else t.d.cycles)
            && t'.d.cycles >= t.d.cycles
  {
    TransmitQueues(t.d, s.bytes);
    TransmitKeepsTime(t.d, s.bytes);
  }

  lemma SentWaits(ir: seq<u8>, log: seq<Entry>, sent: seq<u8>, at: nat)
    requires IsWaiting(ir, log)
    ensures IsWaiting(ir + sent, log + Stamp(sent, at))
  {
    var log', from := log + Stamp(sent, at), |log| - |ir|;
    assert |log'| - |ir + sent| == from;
    forall i | from <= i < |log'|
      ensures log'[i].byte == (ir + sent)[i - from]
    {
      assert i < |log| ==> log'[i] == log[i];
    }
  }

  lemma CoreKeepsConsistent(t: Tracked, s: CoreStep)
    requires Inv(t) && !t.d.broken
    ensures Consistent(Next(t, Core(s)))
  {
    CoreSends(t, s);
    SentWaits(t.d.ir, t.log, s.bytes[..Room(t.d, s.bytes)], t.d.cycles);
  }

  lemma CoreKeepsUnsplit(t: Tracked, s: CoreStep)
    requires Inv(t) && !t.d.broken
    ensures Unsplit(Next(t, Core(s)))
  {
    CoreSends(t, s);
    var t' := Next(t, Core(s));
    forall i | 0 <= i < |t'.log| - 1
      ensures Together(t'.log[i], t'.log[i + 1])
    {
      if i < |t.log| - 1 {
        assert Together(t.log[i], t.log[i + 1]);
      }
    }
  }

  lemma CoreKeepsInv(t: Tracked, s: CoreStep)
    requires Inv(t)
    ensures Inv(Next(t, Core(s)))
  {
    if !t.d.broken {
      CoreKeepsConsistent(t, s);
      CoreKeepsUnsplit(t, s);
    }
  }

  lemma AskKeepsInv(t: Tracked, cycles: nat)
    requires Inv(t)
    ensures Inv(Next(t, Ask(cycles)))
  {
  }

  lemma PumpKeepsInv(t: Tracked)
    requires Inv(t)
    ensures Inv(Next(t, PumpAll))
  {
    if Idle(t.d) {
      var t' := Next(t, PumpAll);
      forall i | 0 <= i < |t'.log| - 1
        ensures Together(t'.log[i], t'.log[i + 1])
      {
        assert Together(t.log[i], t.log[i + 1]);
      }
    }
  }

  lemma ClearKeepsInv(t: Tracked)
    requires Inv(t)
    ensures Inv(Next(t, Clear))
  {
    var t' := Next(t, Clear);
    forall i | 0 <= i < |t'.log| - 1
      ensures Together(t'.log[i], t'.log[i + 1])
    {
      assert Together(t.log[i], t.log[i + 1]);
    }
  }

  lemma ActionKeepsInv(t: Tracked, a: Action)
    requires Inv(t)
    ensures Inv(Next(t, a))
  {
    match a
    case Ask(cycles) => AskKeepsInv(t, cycles);
    case Core(s) => CoreKeepsInv(t, s);
    case PumpAll => PumpKeepsInv(t);
    case Clear => ClearKeepsInv(t);
    case Receive(_, _) =>
  }

  /** The state after a run from power-on. */
  function After(actions: seq<Action>): (t: Tracked)
    ensures Inv(t)
  {
    if actions == [] then Tracked(NEW, [], 0)
    else
      var before := After(actions[..|actions| - 1]);
      var a := actions[|actions| - 1];
      ActionKeepsInv(before, a);
      Next(before, a)
  }

  lemma AfterOneMore(actions: seq<Action>, a: Action)
    ensures After(actions + [a]) == Next(After(actions), a)
  {
    assert (actions + [a])[..|actions|] == actions;
  }

  /**
   No burst is split: in every run, two bytes transmitted in a row less than 921 cycles apart, neither of them
   cleared, are published by the same pump or both still wait.
   */
  lemma BurstsStayWhole(actions: seq<Action>, i: nat)
    requires i + 1 < |After(actions).log|
    requires var log := After(actions).log;
             log[i + 1].at < log[i].at + 921 && !log[i].fate.Cleared? && !log[i + 1].fate.Cleared?
    ensures After(actions).log[i].fate == After(actions).log[i + 1].fate
  {
    var t := After(actions);
    assert Together(t.log[i], t.log[i + 1]);
  }

  /** When the last byte was transmitted; a device that never transmitted counts from power-on. */
  function LastStamp(log: seq<Entry>): nat { if log == [] then 0 else log[|log| - 1].at }

  lemma PumpSettles(t: Tracked, capacity: nat)
    requires Inv(t) && (t.log == [] ==> t.d.lastIr == 0)
    ensures var finished, n := t.d.cycles - LastStamp(t.log) >= 921, Min(|t.d.ir|, capacity);
            && TakeIr(t.d, capacity) == (if finished then (t.d.(ir := t.d.ir[n..]), t.d.ir[..n]) else (t.d, []))
            && Pump(t.d) == (if finished then (t.d.(ir := []), t.d.ir) else (t.d, []))
            && Next(t, PumpAll)
               == if finished then Tracked(Pump(t.d).0, Settle(t.log, Published(t.pumps)), t.pumps + 1) else t
  {
    assert t.d.ir[0..] == t.d.ir;
  }

  lemma {:induction false} StampedFromStart(actions: seq<Action>)
    ensures After(actions).log == [] ==> After(actions).d.lastIr == 0
  {
    if actions != [] {
      var before, a := After(actions[..|actions| - 1]), actions[|actions| - 1];
      StampedFromStart(actions[..|actions| - 1]);
      if a.Core? && !before.d.broken {
        CoreSends(before, a.s);
      }
    }
  }

  /**
   In every run, the device hands over the oldest bytes, as many as are asked for, if and only if its clock is at least
   921 cycles past the last byte it transmitted, and no byte otherwise. So a pump leaves no byte waiting then, and
   otherwise every byte that waited still waits.
   */
  lemma OnlyFinishedBurstsLeave(actions: seq<Action>, capacity: nat)
    ensures var t, u := After(actions), After(actions + [PumpAll]);
            var finished, n := t.d.cycles - LastStamp(t.log) >= 921, Min(|t.d.ir|, capacity);
            && TakeIr(t.d, capacity) == (if finished then (t.d.(ir := t.d.ir[n..]), t.d.ir[..n]) else (t.d, []))
            && Pump(t.d) == (if finished then (t.d.(ir := []), t.d.ir) else (t.d, []))
            && u.d == Pump(t.d).0 && |u.log| == |t.log|
            && (forall i :: 0 <= i < |t.log| ==>
                  u.log[i] == if finished && t.log[i].fate.Waiting? then t.log[i].(fate := Published(t.pumps))
                              else t.log[i])
  {
    hide After, TakeIr, Pump, Inv, Next;
    AfterOneMore(actions, PumpAll);
    StampedFromStart(actions);
    PumpSettles(After(actions), capacity);
  }

  function BytesOf(log: seq<Entry>): (r: seq<u8>)
    ensures |r| == |log|
  {
    seq(|log|, i requires 0 <= i < |log| => log[i].byte)
  }

  /**
   The idle test never subtracts a later time from an earlier one, and a pump publishes exactly the bytes that still
   wait, in the order of their transmission, once 921 cycles have passed since the last of all, and else nothing.
   */
  lemma PumpPublishesWaiting(actions: seq<Action>, t: Tracked)
    requires t == After(actions)
    ensures t.d.lastIr <= t.d.cycles && |t.d.ir| <= |t.log|
    ensures Pump(t.d).1 == if t.d.cycles - LastStamp(t.log) >= 921 then BytesOf(t.log[|t.log| - |t.d.ir|..]) else []
  {
    WaitingIsTail(t);
    OnlyFinishedBurstsLeave(actions, 0);
  }

  lemma WaitingIsTail(t: Tracked)
    requires Consistent(t)
    ensures t.d.ir == BytesOf(t.log[|t.log| - |t.d.ir|..])
  {
  }

  // ---------------------------------------------------------------- where a run stops

  /** The time that the first `k` steps of the device take. */
  function Spent(core: nat -> CoreStep, k: nat): nat {
    if k == 0 then 0 else Spent(core, k - 1) + core(k - 1).elapsed
  }

  /** The bytes that they transmit. */
  function Sent(core: nat -> CoreStep, k: nat): seq<u8> {
    if k == 0 then [] else Sent(core, k - 1) + core(k - 1).bytes
  }

  /** Step `k` throws, by itself or because its bytes do not fit behind the queue and those of the steps before. */
  predicate Throws(queued: nat, core: nat -> CoreStep, k: nat) {
    core(k).throws || queued + |Sent(core, k + 1)| > 65536
  }

  /** The run takes `k` steps and then stops, because its time is up or because the next one throws. */
  ghost predicate StopsAt(d: Device, request: nat, core: nat -> CoreStep, k: nat) {
    && (forall i: nat :: i < k ==> d.cycles + Spent(core, i) < d.target + request && !Throws(|d.ir|, core, i))
    && (d.cycles + Spent(core, k) >= d.target + request || Throws(|d.ir|, core, k))
  }

  /** The device after `k` steps of a run that none of them ends. */
  predicate HasRun(d: Device, e: Device, core: nat -> CoreStep, k: nat) {
    e == d.(cycles := d.cycles + Spent(core, k), ir := d.ir + Sent(core, k), lastIr := e.lastIr)
  }

  /** One step from its own bytes: as many as fit are queued, and its time counts unless it throws. */
  lemma StepSends(e: Device, s: CoreStep)
    requires !e.broken && |e.ir| <= 65536
    ensures var all, f := e.ir + s.bytes, StepDevice(e, s);
            && f.broken == (s.throws || |all| > 65536)
            && f == e.(ir := all[..Min(65536, |all|)], lastIr := f.lastIr, broken := f.broken,
                       cycles := e.cycles + if f.broken then 0 else s.elapsed)
  {
    TransmitQueues(e, s.bytes);
    TransmitHearsNothing(e, s.bytes);
    assert e.ir + s.bytes[..Room(e, s.bytes)] == (e.ir + s.bytes)[..|e.ir| + Room(e, s.bytes)];
  }

  /** One step of a run. */
  lemma StepGoesOn(d: Device, e: Device, core: nat -> CoreStep, k: nat)
    requires HasRun(d, e, core, k) && !d.broken && |e.ir| <= 65536
    ensures var f, all := StepDevice(e, core(k)), d.ir + Sent(core, k + 1);
            && f.broken == Throws(|d.ir|, core, k)
            && (!f.broken ==> HasRun(d, f, core, k + 1) && |f.ir| <= 65536)
            && (f.broken ==> f == e.(ir := all[..Min(65536, |all|)], lastIr := f.lastIr, broken := true))
  {
    hide StepDevice, Sent, Spent;
    StepSends(e, core(k));
    OneMoreSent(d.ir, core, k);
  }

  lemma OneMoreSent(queued: seq<u8>, core: nat -> CoreStep, k: nat)
    ensures var all := queued + Sent(core, k) + core(k).bytes;
            queued + Sent(core, k + 1) == all == all[..|all|]
    ensures Spent(core, k + 1) == Spent(core, k) + core(k).elapsed
  {
  }

  lemma {:induction false} LoopGetsTo(d: Device, request: nat, core: nat -> CoreStep, k: nat, i: nat)
    returns (e: Device)
    requires !d.broken && |d.ir| <= 65536 && StopsAt(d, request, core, k) && i <= k
    ensures HasRun(Raised(d, request), e, core, i) && |e.ir| <= 65536
    ensures RunLoop(Raised(d, request), core, 0) == RunLoop(e, core, i)
  {
    if i == 0 {
      e := Raised(d, request);
      assert d.ir + [] == d.ir;
    } else {
      hide StepDevice, RunLoop, Spent, Sent, Throws;
      var f := LoopGetsTo(d, request, core, k, i - 1);
      StepGoesOn(Raised(d, request), f, core, i - 1);
      RunLoopOnce(f, core, i - 1);
      e := StepDevice(f, core(i - 1));
    }
  }

  /**
   A run executes the steps of the device one after the other until their time reaches what was asked for, all in all;
   it then has used up exactly that time and queued exactly their bytes. It stops short if and only if a step throws,
   whose time does not count and whose bytes are queued as far as they fit.
   */
  lemma RunStopsAtTarget(d: Device, request: nat, core: nat -> CoreStep, k: nat)
    requires !d.broken && |d.ir| <= 65536 && StopsAt(d, request, core, k)
    ensures var e := RunFor(d, request, core);
            && e.broken == (d.cycles + Spent(core, k) < d.target + request)
            && e.target == d.target + request && e.cycles == d.cycles + Spent(core, k) && e.heard == d.heard
            && (!e.broken ==> e.ir == d.ir + Sent(core, k))
            && (e.broken ==> var all := d.ir + Sent(core, k + 1); e.ir == all[..Min(65536, |all|)])
  {
    var e := LoopGetsTo(d, request, core, k, k);
    RunLoopOnce(e, core, k);
    if e.cycles < e.target {
      StepGoesOn(Raised(d, request), e, core, k);
    }
  }

  /** Every run stops: each step takes at least one cycle. */
  lemma {:induction false} RunStops(d: Device, request: nat, core: nat -> CoreStep, from: nat) returns (k: nat)
    requires forall i: nat :: i < from ==>
               d.cycles + Spent(core, i) < d.target + request && !Throws(|d.ir|, core, i)
    ensures StopsAt(d, request, core, k)
    decreases d.target + request - d.cycles - Spent(core, from)
  {
    k := from;
    if d.cycles + Spent(core, from) < d.target + request && !Throws(|d.ir|, core, from) {
      k := RunStops(d, request, core, from + 1);
    }
  }

  // ---------------------------------------------------------------- the object

  /** `history` is what was done to the object since it was made. */
  class PWEmulator {
    var cycles: nat
    var target: nat
    var lastIr: nat
    var ir: seq<u8>
    var broken: bool
    ghost var heard: seq<u8>
    ghost var history: seq<Action>

    ghost function Value(): Device
      reads this
    {
      Device(cycles, target, lastIr, ir, broken, heard)
    }

    ghost predicate Valid()
      reads this
    {
      Value() == After(history).d
    }

    constructor ()
      ensures Valid() && Value() == NEW == Device(0, 0, 0, [], false, [])
    {
      cycles, target, lastIr, ir, broken, heard, history := 0, 0, 0, [], false, [], [];
    }

    ghost method Record(a: Action)
      modifies this`history
      ensures history == old(history) + [a] && After(history) == Next(After(old(history)), a)
    {
      AfterOneMore(history, a);
      history := history + [a];
    }

    /** The transmit callback for the bytes of one device step. */
    method OnTransmit(bytes: seq<u8>) returns (ok: bool)
      modifies this`ir, this`lastIr
      ensures (Value(), ok) == Transmit(old(Value()), bytes)
    {
      var i := 0;
      assert bytes[0..] == bytes;
      while i < |bytes|
        invariant i <= |bytes|
        invariant Transmit(old(Value()), bytes) == Transmit(Value(), bytes[i..])
      {
        if |ir| == IR_LIMIT {
          return false;
        }
        assert bytes[i..][1..] == bytes[i + 1..];
        ir := ir + [bytes[i]];
        lastIr := cycles;
        i := i + 1;
      }
      return true;
    }

    /** One step of the device, accounted for. */
    method StepOnce(s: CoreStep)
      requires Valid() && !broken
      modifies this
      ensures Valid() && Value() == StepDevice(old(Value()), s)
      ensures old(history) <= history
    {
      TransmitKeepsTime(Value(), s.bytes);
      Record(Core(s));
      var fits := OnTransmit(s.bytes);
      if !fits || s.throws {
        broken := true;
      } else {
        cycles := cycles + s.elapsed;
      }
    }

    method RaiseTarget(request: nat)
      requires Valid() && !broken
      modifies this
      ensures Valid() && Value() == Raised(old(Value()), request)
      ensures old(history) <= history
    {
      Record(Ask(request));
      assert After(history).d == Raised(Value(), request);
      target := target + request;
    }

    /** The loop of a run. */
    method RunToTarget(core: nat -> CoreStep)
      requires Valid() && !broken
      modifies this
      ensures Valid() && Value() == RunLoop(old(Value()), core, 0)
      ensures old(history) <= history
    {
      var k := 0;
      while cycles < target
        invariant Valid() && !broken && old(history) <= history
        invariant RunLoop(old(Value()), core, 0) == RunLoop(Value(), core, k)
        decreases target - cycles
      {
        RunLoopOnce(Value(), core, k);
        StepOnce(core(k));
        if broken {
          return;
        }
        k := k + 1;
      }
      RunLoopOnce(Value(), core, k);
    }

    /** Runs the device until the cycle budget is used up or it throws. */
    method Run(request: nat, core: nat -> CoreStep) returns (ok: bool)
      requires Valid()
      modifies this
      ensures Valid() && Value() == RunFor(old(Value()), request, core)
      ensures ok == !broken && old(history) <= history
      ensures old(broken) ==> Value() == old(Value())
    {
      if broken {
        return false;
      }
      RaiseTarget(request);
      RunToTarget(core);
      return !broken;
    }

    /** Takes up to `capacity` bytes of a finished burst. */
    method TransmitIr(capacity: nat) returns (out: seq<u8>)
      requires lastIr <= cycles
      modifies this`ir
      ensures (Value(), out) == TakeIr(old(Value()), capacity)
      ensures old(ir) == out + ir
      ensures |out| == if cycles - lastIr >= 921 then Min(|old(ir)|, capacity) else 0
    {
      out := [];
      if cycles - lastIr < IDLE {
        return;
      }
      var count := Min(|ir|, capacity);
      for i := 0 to count
        invariant out == old(ir)[..i] && ir == old(ir)[i..]
      {
        out := out + [ir[0]];
        ir := ir[1..];
      }
    }

    /** Hands bytes to the core one by one, until it throws. */
    method HearAll(bytes: seq<u8>, accepts: nat) returns (ok: bool)
      modifies this`heard, this`broken
      ensures heard == old(heard) + bytes[..Min(|bytes|, accepts)]
      ensures broken == (old(broken) || !ok) && ok == (|bytes| <= accepts)
    {
      var i := 0;
      while i < |bytes|
        invariant i <= |bytes| && i <= accepts
        invariant heard == old(heard) + bytes[..i] && broken == old(broken)
      {
        if i == accepts {
          broken := true;
          return false;
        }
        heard := heard + [bytes[i]];
        i := i + 1;
      }
      return true;
    }

    method ReceiveIr(bytes: seq<u8>, accepts: nat) returns (ok: bool)
      requires Valid()
      modifies this
      ensures Valid() && Value() == Hear(old(Value()), bytes, accepts)
      ensures heard == old(heard) + bytes[..Min(|bytes|, accepts)] && broken == (old(broken) || !ok)
      ensures ok == (|bytes| <= accepts)
    {
      Record(Receive(bytes, accepts));
      ok := HearAll(bytes, accepts);
    }

    method ClearIr()
      requires Valid()
      modifies this
      ensures Valid() && Value() == old(Value()).(ir := []) && old(history) <= history
    {
      assert Consistent(After(history));
      Record(Clear);
      ir := [];
    }
  }
}
