/**
 The sample ring that the main thread fills and the audio callback empties.

 `Machine` is the shared memory and the two threads' local variables; every atomic access, every sample
 stored and every sample played is one step, so all interleavings of the two threads are runs. The counters
 `read` and `write` are 32-bit words that wrap. `History` never influences a step: it keeps the unwrapped
 counters and what happened to every sample, so that the properties can be stated.
 */
module AudioRing {
  import opened Words

  const RING: int := 8192
  const CALLBACK: int := 512

  type Sample = x: int | -0x8000 <= x < 0x8000

  /** Where the main thread stands inside `pw_audio_submit`. */
  datatype Producer =
    | Resting
    | SawActive(samples: seq<Sample>)
    | SawRead(samples: seq<Sample>, read: u32)
    | Filling(samples: seq<Sample>, read: u32, write: u32, i: nat)

  /** Where the audio callback stands inside `render`. */
  datatype Consumer =
    | Waiting
    | TookRead(read: u32)
    | TookWrite(read: u32, write: u32)
    | Playing(read: u32, write: u32, out: seq<Sample>)

  datatype Machine = Machine(
    ring: seq<Sample>,
    read: u32,
    write: u32,
    active: bool,
    producer: Producer,
    consumer: Consumer)

  /** A sample that left the ring, either played or skipped because the output was inactive. */
  datatype Fate = Fate(sample: Sample, played: bool)

  datatype History = History(
    accepted: seq<Sample>,   // every sample stored, in order
    published: nat,          // unwrapped `write`
    released: nat,           // unwrapped `read`
    seenRead: nat,           // unwrapped value of the producer's latest load of `read`
    seenWrite: nat,          // unwrapped value of the consumer's latest load of `write`
    fates: seq<Fate>,        // every sample that left the ring, in order
    callbackStart: nat)      // |fates| when the current callback started to play

  datatype System = System(m: Machine, h: History)

  /** One atomic step. A load of the other thread's counter carries the unwrapped value it returns. */
  datatype Action =
    | CheckActive(samples: seq<Sample>)
    | LoadRead(value: nat)
    | LoadOwnWrite
    | Store
    | Publish
    | LoadOwnRead
    | LoadWrite(value: nat)
    | LoadActive
    | Play
    | Release
    | Switch(on: bool)

  function Wrapped(counter: nat): u32 { Low32(counter) }

  /** `write - read` on the wrapped counters. */
  function Distance(write: u32, read: u32): u32 { Low32(write - read) }

  function Slot(counter: int): nat { counter % RING }

  predicate HasRoom(p: Producer)
    requires p.Filling?
  {
    p.i < |p.samples| && Distance(p.write, p.read) < RING
  }

  /**
   An acquire load may return any value stored since the one this thread saw last
   (ISO C11 section 5.1.2.4, read-read coherence), so a stale value is allowed but never an older one.
   */
  predicate Enabled(s: System, a: Action) {
    match a
    case CheckActive(_) => s.m.producer.Resting?
    case LoadRead(v) => s.m.producer.SawActive? && s.h.seenRead <= v <= s.h.released
    case LoadOwnWrite => s.m.producer.SawRead?
    case Store => s.m.producer.Filling? && HasRoom(s.m.producer)
    case Publish => s.m.producer.Filling? && !HasRoom(s.m.producer)
    case LoadOwnRead => s.m.consumer.Waiting?
    case LoadWrite(v) => s.m.consumer.TookRead? && s.h.seenWrite <= v <= s.h.published
    case LoadActive => s.m.consumer.TookWrite?
    case Play => s.m.consumer.Playing? && |s.m.consumer.out| < CALLBACK
    case Release => s.m.consumer.Playing? && |s.m.consumer.out| == CALLBACK
    case Switch(_) => true
  }

  /** The step on shared memory and locals; a step that is not enabled changes nothing. */
  function MachineStep(m: Machine, a: Action): Machine
    requires |m.ring| == RING
  {
    var p, c := m.producer, m.consumer;
    match a
    case CheckActive(samples) => if m.active then m.(producer := SawActive(samples)) else m
    case LoadRead(v) => if p.SawActive? then m.(producer := SawRead(p.samples, Wrapped(v))) else m
    case LoadOwnWrite => if p.SawRead? then m.(producer := Filling(p.samples, p.read, m.write, 0)) else m
    case Store =>
      if p.Filling? && p.i < |p.samples|
      then m.(ring := m.ring[Slot(p.write) := p.samples[p.i]],
              producer := Filling(p.samples, p.read, Low32(p.write + 1), p.i + 1))
      else m
    case Publish => if p.Filling? then m.(write := p.write, producer := Resting) else m
    case LoadOwnRead => m.(consumer := TookRead(m.read))
    case LoadWrite(v) => if c.TookRead? then m.(consumer := TookWrite(c.read, Wrapped(v))) else m
    case LoadActive =>
      if c.TookWrite?
      then m.(consumer := Playing(if m.active then c.read else c.write, c.write, []))
      else m
    case Play =>
      if !c.Playing? then m
      else if c.read != c.write
      then m.(consumer := Playing(Low32(c.read + 1), c.write, c.out + [m.ring[Slot(c.read)]]))
      else m.(consumer := Playing(c.read, c.write, c.out + [0]))
    case Release => if c.Playing? then m.(read := c.read, consumer := Waiting) else m
    case Switch(v) => m.(active := v)
  }

  /** What a muted callback skips: the samples the ring holds at positions `from` up to `to`. */
  function Skipped(ring: seq<Sample>, from: nat, to: nat): (r: seq<Fate>)
    requires |ring| == RING && from <= to
    ensures |r| == to - from
  {
    seq(to - from, i requires 0 <= i => Fate(ring[Slot(from + i)], false))
  }

  function HistoryStep(s: System, a: Action): History
    requires |s.m.ring| == RING
  {
    var p, c, h := s.m.producer, s.m.consumer, s.h;
    match a
    case LoadRead(v) => h.(seenRead := v)
    case Store =>
      if p.Filling? && p.i < |p.samples| then h.(accepted := h.accepted + [p.samples[p.i]]) else h
    case Publish => h.(published := |h.accepted|)
    case LoadWrite(v) => h.(seenWrite := v)
    case LoadActive =>
      var fates := if s.m.active || h.seenWrite < |h.fates| then h.fates
                   else h.fates + Skipped(s.m.ring, |h.fates|, h.seenWrite);
      h.(fates := fates, callbackStart := |fates|)
    case Play =>
      if c.Playing? && c.read != c.write
      then h.(fates := h.fates + [Fate(s.m.ring[Slot(c.read)], true)])
      else h
    case Release => h.(released := |h.fates|)
    case _ => h
  }

  function Next(s: System, a: Action): System
    requires |s.m.ring| == RING
  {
    System(MachineStep(s.m, a), HistoryStep(s, a))
  }

  function Start(): System {
    System(Machine(seq(RING, _ => 0), 0, 0, false, Resting, Waiting), History([], 0, 0, 0, 0, [], 0))
  }

  ghost predicate Step(s: System, t: System) {
    |s.m.ring| == RING && exists a: Action :: Enabled(s, a) && t == Next(s, a)
  }

  /** The successive states of some interleaving of the two threads. */
  ghost predicate IsRun(run: seq<System>) {
    |run| > 0 && forall i :: 0 <= i < |run| - 1 ==> Step(run[i], run[i + 1])
  }

  ghost predicate Reaches(s: System, t: System) {
    exists run: seq<System> :: IsRun(run) && run[0] == s && run[|run| - 1] == t
  }

  // ---------------------------------------------------------------- the invariant

  /** The producer's local counters are the unwrapped ones, and it never runs more than a ring ahead. */
  predicate ProducerSound(m: Machine, h: History) {
    && |h.accepted| <= h.seenRead + RING
    && h.published <= |h.accepted|
    && match m.producer
       case Filling(samples, read, write, i) =>
         && read == Wrapped(h.seenRead)
         && write == Wrapped(|h.accepted|)
         && i <= |samples|
         && |h.accepted| == h.published + i
         && h.accepted[h.published..] == samples[..i]
       case SawRead(_, read) => read == Wrapped(h.seenRead) && |h.accepted| == h.published
       case _ => |h.accepted| == h.published
  }

  predicate AllPlayed(fates: seq<Fate>) {
    forall k :: 0 <= k < |fates| ==> fates[k].played
  }

  function Samples(fates: seq<Fate>): (r: seq<Sample>)
    ensures |r| == |fates|
  {
    seq(|fates|, i requires 0 <= i < |fates| => fates[i].sample)
  }

  function Silence(n: nat): (r: seq<Sample>)
    ensures |r| == n
  {
    seq(n, _ => 0)
  }

  /** The consumer's local counters are the unwrapped ones, and its buffer is what it played, then silence. */
  predicate ConsumerSound(m: Machine, h: History) {
    && h.released <= |h.fates| <= h.seenWrite <= h.published
    && match m.consumer
       case Waiting => |h.fates| == h.released
       case TookRead(read) => |h.fates| == h.released && read == Wrapped(h.released)
       case TookWrite(read, write) =>
         |h.fates| == h.released && read == Wrapped(h.released) && write == Wrapped(h.seenWrite)
       case Playing(read, write, out) =>
         && read == Wrapped(|h.fates|)
         && write == Wrapped(h.seenWrite)
         && h.released <= h.callbackStart <= |h.fates|
         && |h.fates| - h.callbackStart <= |out| <= CALLBACK
         && AllPlayed(h.fates[h.callbackStart..])
         && out == Samples(h.fates[h.callbackStart..]) + Silence(|out| - (|h.fates| - h.callbackStart))
         && (|h.fates| - h.callbackStart < |out| ==> |h.fates| == h.seenWrite)
  }

  /** First in, first out: what left is a prefix of what was accepted, and the ring holds the rest. */
  predicate Fifo(m: Machine, h: History)
    requires |m.ring| == RING
  {
    && |h.fates| <= |h.accepted|
    && Samples(h.fates) == h.accepted[..|h.fates|]
    && forall k :: |h.fates| <= k < |h.accepted| ==> m.ring[Slot(k)] == h.accepted[k]
  }

  predicate Inv(s: System) {
    && |s.m.ring| == RING
    && s.m.read == Wrapped(s.h.released)
    && s.m.write == Wrapped(s.h.published)
    && s.h.seenRead <= s.h.released
    && ProducerSound(s.m, s.h)
    && ConsumerSound(s.m, s.h)
    && Fifo(s.m, s.h)
  }

  // ---------------------------------------------------------------- arithmetic of the counters

  /** The wrapped difference of two counters is their true difference as long as that is at most a ring. */
  lemma DistanceIsExact(write: nat, read: nat)
    requires read <= write <= read + 8192
    ensures Distance(Wrapped(write), Wrapped(read)) == write - read
    ensures Wrapped(write) == Wrapped(read) <==> write == read
  {
  }

  /** Wrapping a counter keeps its slot, because 8192 divides 2^32. */
  lemma SlotOfWrapped(counter: nat)
    ensures Slot(Wrapped(counter)) == Slot(counter)
  {
    AddRings(Wrapped(counter), 0x8_0000 * (counter / 0x1_0000_0000));
  }

  lemma AddRings(counter: nat, rings: nat)
    ensures Slot(counter + RING * rings) == Slot(counter)
  {
  }

  lemma SuccessorOfWrapped(counter: nat)
    ensures Low32(Wrapped(counter) + 1) == Wrapped(counter + 1)
  {
  }

  /** Two counters less than a ring apart use different slots. */
  lemma SlotsDiffer(a: nat, b: nat)
    requires a < b < a + RING
    ensures Slot(a) != Slot(b)
  {
  }

  // ---------------------------------------------------------------- every step keeps the invariant

  lemma ProducerStepKeepsInv(s: System, a: Action)
    requires Inv(s) && Enabled(s, a)
    requires a.CheckActive? || a.LoadRead? || a.LoadOwnWrite? || a.Publish?
    ensures Inv(Next(s, a))
  {
  }

  /** Storing at position `w` disturbs none of the positions less than a ring below it. */
  lemma StoreDisturbsNothing(ring: seq<Sample>, accepted: seq<Sample>, from: nat, x: Sample)
    requires |ring| == RING && from <= |accepted| < from + RING
    requires forall k :: from <= k < |accepted| ==> ring[Slot(k)] == accepted[k]
    ensures forall k :: from <= k < |accepted| + 1 ==>
              ring[Slot(|accepted|) := x][Slot(k)] == (accepted + [x])[k]
  {
    forall k | from <= k < |accepted|
      ensures Slot(k) != Slot(|accepted|)
    {
      SlotsDiffer(k, |accepted|);
    }
  }

  lemma StoreKeepsFifo(s: System)
    requires Inv(s) && Enabled(s, Store)
    ensures |s.h.accepted| < s.h.seenRead + RING
    ensures Fifo(Next(s, Store).m, Next(s, Store).h)
  {
    var p, w := s.m.producer, |s.h.accepted|;
    DistanceIsExact(w, s.h.seenRead);
    SlotOfWrapped(w);
    StoreDisturbsNothing(s.m.ring, s.h.accepted, |s.h.fates|, p.samples[p.i]);
    assert (s.h.accepted + [p.samples[p.i]])[..|s.h.fates|] == s.h.accepted[..|s.h.fates|];
  }

  lemma StoreKeepsProducer(s: System)
    requires Inv(s) && Enabled(s, Store)
    ensures ProducerSound(Next(s, Store).m, Next(s, Store).h)
  {
    var p, h := s.m.producer, s.h;
    DistanceIsExact(|h.accepted|, h.seenRead);
    SuccessorOfWrapped(|h.accepted|);
    assert (h.accepted + [p.samples[p.i]])[h.published..] == h.accepted[h.published..] + [p.samples[p.i]];
    assert p.samples[..p.i + 1] == p.samples[..p.i] + [p.samples[p.i]];
  }

  lemma StoreKeepsInv(s: System)
    requires Inv(s) && Enabled(s, Store)
    ensures Inv(Next(s, Store))
  {
    StoreKeepsFifo(s);
    StoreKeepsProducer(s);
  }

  lemma SoundingPlayKeepsInv(s: System)
    requires Inv(s) && Enabled(s, Play) && s.m.consumer.read != s.m.consumer.write
    ensures Inv(Next(s, Play))
  {
    hide ConsumerSound, Fifo;
    SoundingPlayKeepsFifo(s);
    SoundingPlayKeepsConsumer(s);
  }

  lemma SoundingPlayKeepsFifo(s: System)
    requires Inv(s) && Enabled(s, Play) && s.m.consumer.read != s.m.consumer.write
    ensures Fifo(Next(s, Play).m, Next(s, Play).h)
  {
    hide AllPlayed, Silence;
    var h, r := s.h, |s.h.fates|;
    DistanceIsExact(h.seenWrite, r);
    SlotOfWrapped(r);
    assert h.accepted[..r + 1] == h.accepted[..r] + [h.accepted[r]];
  }

  lemma SoundingPlayKeepsConsumer(s: System)
    requires Inv(s) && Enabled(s, Play) && s.m.consumer.read != s.m.consumer.write
    ensures ConsumerSound(Next(s, Play).m, Next(s, Play).h)
  {
    hide Fifo;
    var h := s.h;
    var r := |h.fates|;
    DistanceIsExact(h.seenWrite, r);
    SlotOfWrapped(r);
    SuccessorOfWrapped(r);
    var t := Next(s, Play);
    assert t.h.fates[h.callbackStart..] == h.fates[h.callbackStart..] + [t.h.fates[r]];
  }

  lemma SilentPlayKeepsInv(s: System)
    requires Inv(s) && Enabled(s, Play) && s.m.consumer.read == s.m.consumer.write
    ensures Inv(Next(s, Play))
  {
    DistanceIsExact(s.h.seenWrite, |s.h.fates|);
    var quiet := |s.m.consumer.out| - (|s.h.fates| - s.h.callbackStart);
    assert Silence(quiet + 1) == Silence(quiet) + [0];
  }

  lemma PlayKeepsInv(s: System)
    requires Inv(s) && Enabled(s, Play)
    ensures Inv(Next(s, Play))
  {
    if s.m.consumer.read != s.m.consumer.write {
      SoundingPlayKeepsInv(s);
    } else {
      SilentPlayKeepsInv(s);
    }
  }

  /** Skipping up to `to` removes exactly the accepted samples at those positions. */
  lemma SkippedAreAccepted(ring: seq<Sample>, fates: seq<Fate>, accepted: seq<Sample>, to: nat)
    requires |ring| == RING && |fates| <= to <= |accepted|
    requires Samples(fates) == accepted[..|fates|]
    requires forall k :: |fates| <= k < |accepted| ==> ring[Slot(k)] == accepted[k]
    ensures Samples(fates + Skipped(ring, |fates|, to)) == accepted[..to]
  {
    var left := fates + Skipped(ring, |fates|, to);
    forall k | 0 <= k < to
      ensures Samples(left)[k] == accepted[k]
    {
      if k < |fates| {
        assert Samples(fates)[k] == accepted[k];
      } else {
        assert left[k].sample == ring[Slot(k)];
      }
    }
  }

  lemma LoadActiveKeepsInv(s: System)
    requires Inv(s) && Enabled(s, LoadActive)
    ensures Inv(Next(s, LoadActive))
  {
    if !s.m.active {
      SkippedAreAccepted(s.m.ring, s.h.fates, s.h.accepted, s.h.seenWrite);
    }
    var t := Next(s, LoadActive);
    assert t.h.fates[t.h.callbackStart..] == [];
  }

  lemma ConsumerStepKeepsInv(s: System, a: Action)
    requires Inv(s) && Enabled(s, a)
    requires a.LoadOwnRead? || a.LoadWrite? || a.Release? || a.Switch?
    ensures Inv(Next(s, a))
  {
  }

  lemma StepKeepsInv(s: System, a: Action)
    requires Inv(s) && Enabled(s, a)
    ensures Inv(Next(s, a))
  {
    match a
    case Store => StoreKeepsInv(s);
    case Play => PlayKeepsInv(s);
    case LoadActive => LoadActiveKeepsInv(s);
    case CheckActive(_) => ProducerStepKeepsInv(s, a);
    case LoadRead(_) => ProducerStepKeepsInv(s, a);
    case LoadOwnWrite => ProducerStepKeepsInv(s, a);
    case Publish => ProducerStepKeepsInv(s, a);
    case _ => ConsumerStepKeepsInv(s, a);
  }

  lemma {:induction false} RunKeepsInv(run: seq<System>)
    requires IsRun(run) && Inv(run[0])
    ensures Inv(run[|run| - 1])
    decreases |run|
  {
    if |run| > 1 {
      var before := run[..|run| - 1];
      RunKeepsInv(before);
      var s, t := run[|run| - 2], run[|run| - 1];
      assert Step(s, t);
      var a: Action :| Enabled(s, a) && t == Next(s, a);
      StepKeepsInv(s, a);
    }
  }

  lemma ReachableIsSound(s: System)
    requires Reaches(Start(), s)
    ensures Inv(s)
  {
    var run: seq<System> :| IsRun(run) && run[0] == Start() && run[|run| - 1] == s;
    StartIsSound();
    RunKeepsInv(run);
  }

  lemma StartIsSound()
    ensures Inv(Start())
  {
  }

  // ---------------------------------------------------------------- main results

  /**
   Under every interleaving the published samples are exactly those played or skipped, in order, followed
   by those still in the ring, and there are never more than 8192 of the latter; both wrapped tests are exact.
   */
  lemma RingRefinesFifo(s: System)
    requires Reaches(Start(), s)
    ensures |s.m.ring| == RING
    ensures |s.h.fates| <= s.h.published <= |s.h.accepted| <= |s.h.fates| + 8192
    ensures s.h.accepted[..s.h.published] == Samples(s.h.fates) + Held(s.m.ring, |s.h.fates|, s.h.published)
    ensures Distance(s.m.write, s.m.read) == s.h.published - s.h.released <= 8192
    ensures s.m.write == s.m.read <==> s.h.published == s.h.released
  {
    hide Reaches, Wrapped;
    ReachableIsSound(s);
    DistanceIsExact(s.h.published, s.h.released);
    PublishedIsHeld(s.m, s.h);
  }

  lemma PublishedIsHeld(m: Machine, h: History)
    requires |m.ring| == RING && Fifo(m, h) && |h.fates| <= h.published <= |h.accepted|
    ensures h.accepted[..h.published] == Samples(h.fates) + Held(m.ring, |h.fates|, h.published)
  {
  }

  /** The samples the ring holds at unwrapped positions `from` up to `to`. */
  function Held(ring: seq<Sample>, from: nat, to: nat): (r: seq<Sample>)
    requires |ring| == RING && from <= to
    ensures |r| == to - from
  {
    seq(to - from, i requires 0 <= i => ring[Slot(from + i)])
  }

  /**
   No data race: a slot about to be stored holds no sample the consumer may still read, and its previous
   sample left the ring before a release of `read` that the producer has acquired; a slot about to be played
   was stored before a release of `write` that the consumer has acquired.
   */
  lemma NoSlotIsShared(s: System)
    requires Reaches(Start(), s)
    ensures Enabled(s, Store) ==>
              && Slot(s.m.producer.write) == Slot(|s.h.accepted|)
              && |s.h.accepted| - RING < s.h.seenRead <= s.h.released
              && forall k :: s.h.released <= k < |s.h.accepted| ==> Slot(k) != Slot(s.m.producer.write)
    ensures Enabled(s, Play) && s.m.consumer.read != s.m.consumer.write ==>
              && Slot(s.m.consumer.read) == Slot(|s.h.fates|)
              && |s.h.fates| < s.h.seenWrite <= s.h.published
  {
    ReachableIsSound(s);
    if Enabled(s, Store) {
      StoreKeepsFifo(s);
      SlotOfWrapped(|s.h.accepted|);
      forall k | s.h.released <= k < |s.h.accepted|
        ensures Slot(k) != Slot(s.m.producer.write)
      {
        SlotsDiffer(k, |s.h.accepted|);
      }
    }
    if Enabled(s, Play) {
      SlotOfWrapped(|s.h.fates|);
      DistanceIsExact(s.h.seenWrite, |s.h.fates|);
    }
  }

  /** A submission publishes the longest prefix of its samples that fits the read index it loaded. */
  lemma SubmitTakesLongestPrefix(s: System)
    requires Reaches(Start(), s) && Enabled(s, Publish)
    ensures |s.m.ring| == RING && s.h.published <= |s.h.accepted|
    ensures var samples := s.m.producer.samples;
            var fits := Min(|samples|, s.h.seenRead + 8192 - s.h.published);
            0 <= fits && s.h.accepted == s.h.accepted[..s.h.published] + samples[..fits]
    ensures Next(s, Publish).h.published == |s.h.accepted|
  {
    hide Reaches, Samples, AllPlayed, Silence;
    ReachableIsSound(s);
    var p, h := s.m.producer, s.h;
    DistanceIsExact(|h.accepted|, h.seenRead);
    assert p.i == Min(|p.samples|, h.seenRead + RING - h.published);
    assert h.accepted == h.accepted[..h.published] + h.accepted[h.published..];
  }

  /** A finished callback buffer is the next accepted samples, then silence if all published ones have left. */
  lemma CallbackPlaysInOrder(s: System)
    requires Reaches(Start(), s) && Enabled(s, Release)
    ensures var begun, now := s.h.callbackStart, |s.h.fates|;
            && begun <= now <= begun + 512 && now <= |s.h.accepted|
            && AllPlayed(s.h.fates[begun..])
            && s.m.consumer.out == s.h.accepted[begun..now] + Silence(512 - (now - begun))
            && (now < begun + 512 ==> now == s.h.seenWrite)
  {
    hide Reaches, Wrapped, ProducerSound, Silence;
    ReachableIsSound(s);
    SamplesOfRest(s.h.fates, s.h.callbackStart, s.h.accepted);
  }

  lemma SamplesOfRest(fates: seq<Fate>, begun: nat, accepted: seq<Sample>)
    requires begun <= |fates| <= |accepted| && Samples(fates) == accepted[..|fates|]
    ensures Samples(fates[begun..]) == accepted[begun..|fates|]
  {
    assert Samples(fates[begun..]) == Samples(fates)[begun..];
  }

  // ---------------------------------------------------------------- the two functions, uninterrupted

  lemma ReachesItself(s: System)
    ensures Reaches(s, s)
  {
    assert IsRun([s]);
  }

  lemma ReachesNext(s: System, t: System, a: Action)
    requires Reaches(s, t) && |t.m.ring| == RING && Enabled(t, a)
    ensures Reaches(s, Next(t, a))
  {
    var run: seq<System> :| IsRun(run) && run[0] == s && run[|run| - 1] == t;
    assert Step(t, Next(t, a));
    assert IsRun(run + [Next(t, a)]);
  }

  lemma DropFirst(accepted: seq<Sample>, more: seq<Sample>, n: nat)
    requires n <= |accepted|
    ensures (accepted + more)[n..] == accepted[n..] + more
  {
  }

  /** How the unwrapped counters stand while neither thread is inside a call. */
  lemma AtRest(s: System)
    requires Reaches(Start(), s) && s.m.producer.Resting? && s.m.consumer.Waiting?
    ensures |s.m.ring| == RING
    ensures s.h.published == |s.h.accepted| <= |s.h.fates| + RING
    ensures s.h.seenRead <= s.h.released == |s.h.fates| <= s.h.seenWrite <= s.h.published
    ensures s.m.read == Wrapped(s.h.released) && s.m.write == Wrapped(s.h.published)
  {
    ReachableIsSound(s);
  }

  /** The object behind `PWAudio`; `sys` is the machine state that the fields represent between two calls. */
  class PWAudio {
    const ring: array<Sample>
    var read: u32
    var write: u32
    var active: bool
    ghost var sys: System

    ghost predicate Valid()
      reads this, ring
    {
      && ring.Length == RING
      && Reaches(Start(), sys)
      && sys.m == Machine(ring[..], read, write, active, Resting, Waiting)
    }

    /** The samples waiting to be played. */
    ghost function Backlog(): (b: seq<Sample>)
      requires Valid()
      reads this, ring
      ensures |b| <= RING
    {
      AtRest(sys);
      sys.h.accepted[|sys.h.fates|..]
    }

    constructor ()
      ensures Valid() && fresh(ring) && Backlog() == [] && !active
    {
      ring := new Sample[RING](_ => 0);
      read, write, active := 0, 0, false;
      sys := Start();
      new;
      assert ring[..] == seq(RING, _ => 0);
      ReachesItself(Start());
    }

    ghost method Advance(a: Action)
      requires |sys.m.ring| == RING && Enabled(sys, a)
      modifies this`sys
      ensures sys == Next(old(sys), a)
      ensures forall s :: Reaches(s, old(sys)) ==> Reaches(s, sys)
    {
      forall s | Reaches(s, sys)
        ensures Reaches(s, Next(sys, a))
      {
        ReachesNext(s, sys, a);
      }
      sys := Next(sys, a);
    }

    method SetActive(value: bool)
      requires Valid()
      modifies this`active, this`sys
      ensures Valid() && active == value && Backlog() == old(Backlog())
    {
      hide Reaches;
      Advance(Switch(value));
      active := value;
    }

    /** The loop of `pw_audio_submit`. */
    method Fill(samples: seq<Sample>, r: u32, start: u32) returns (w: u32, i: nat)
      requires ring.Length == RING
      requires sys.m == Machine(ring[..], read, write, active, Filling(samples, r, start, 0), Waiting)
      modifies this`sys, ring
      ensures sys.m == Machine(ring[..], read, write, active, Filling(samples, r, w, i), Waiting)
      ensures i <= |samples| && Enabled(sys, Publish)
      ensures sys.h == old(sys.h).(accepted := old(sys.h.accepted) + samples[..i])
      ensures forall s :: Reaches(s, old(sys)) ==> Reaches(s, sys)
    {
      hide Reaches;
      w, i := start, 0;
      while i < |samples| && Low32(w - r) < RING
        invariant i <= |samples|
        invariant sys.m == Machine(ring[..], read, write, active, Filling(samples, r, w, i), Waiting)
        invariant sys.h == old(sys.h).(accepted := old(sys.h.accepted) + samples[..i])
        invariant forall s :: Reaches(s, old(sys)) ==> Reaches(s, sys)
      {
        Advance(Store);
        ring[w % RING] := samples[i];
        w := Low32(w + 1);
        assert samples[..i + 1] == samples[..i] + [samples[i]];
        i := i + 1;
      }
    }

    /** Appends as many samples as the ring has room for; the call is a run of the machine. */
    method Submit(samples: seq<Sample>)
      requires Valid()
      modifies this`write, this`sys, ring
      ensures Valid() && Reaches(old(sys), sys)
      ensures !active ==> Backlog() == old(Backlog())
      ensures active ==>
                Backlog() == old(Backlog()) + samples[..Min(|samples|, 8192 - |old(Backlog())|)]
    {
      hide Reaches;
      AtRest(sys);
      ReachesItself(sys);
      Advance(CheckActive(samples));
      if !active {
        return;
      }
      Advance(LoadRead(sys.h.released));
      var r: u32 := read;
      Advance(LoadOwnWrite);
      var w, i := Fill(samples, r, write);
      SubmitTakesLongestPrefix(sys);
      assert i == Min(|samples|, RING - |old(Backlog())|);
      DropFirst(old(sys.h.accepted), samples[..i], |sys.h.fates|);
      Advance(Publish);
      write := w;
    }

    /** The loads at the start of `render`; an inactive output skips to what is published. */
    method Acquire() returns (r: u32, w: u32)
      requires Valid()
      modifies this`sys
      ensures sys.m == Machine(ring[..], read, write, active, Resting, Playing(r, w, []))
      ensures sys.h == old(sys.h).(seenWrite := old(sys.h.published), fates := sys.h.fates,
                                   callbackStart := |sys.h.fates|)
      ensures if active then sys.h.fates == old(sys.h.fates) else |sys.h.fates| == old(sys.h.published)
      ensures forall s :: Reaches(s, old(sys)) ==> Reaches(s, sys)
    {
      hide Reaches;
      AtRest(sys);
      r := read;
      Advance(LoadOwnRead);
      w := write;
      Advance(LoadWrite(sys.h.published));
      Advance(LoadActive);
      if !active {
        r := w;
      }
    }

    /** The loop of `render`. */
    method Drain(out: array<Sample>, start: u32, w: u32) returns (r: u32)
      requires out.Length == CALLBACK && out != ring && ring.Length == RING
      requires sys.m == Machine(ring[..], read, write, active, Resting, Playing(start, w, []))
      modifies this`sys, out
      ensures sys.m == Machine(ring[..], read, write, active, Resting, Playing(r, w, out[..]))
      ensures sys.h == old(sys.h).(fates := sys.h.fates)
      ensures forall s :: Reaches(s, old(sys)) ==> Reaches(s, sys)
    {
      hide Reaches;
      r := start;
      for i := 0 to CALLBACK
        invariant sys.m == Machine(ring[..], read, write, active, Resting, Playing(r, w, out[..i]))
        invariant sys.h == old(sys.h).(fates := sys.h.fates)
        invariant forall s :: Reaches(s, old(sys)) ==> Reaches(s, sys)
      {
        Advance(Play);
        ghost var before := out[..i];
        if r != w {
          out[i] := ring[r % RING];
          r := Low32(r + 1);
        } else {
          out[i] := 0;
        }
        assert out[..i + 1] == before + [out[i]];
      }
      assert out[..] == out[..CALLBACK];
    }

    /** Plays the oldest samples, then silence; an inactive output drops the backlog instead. */
    method Render(out: array<Sample>)
      requires Valid() && out.Length == CALLBACK && out != ring
      modifies this`read, this`sys, out
      ensures Valid() && Reaches(old(sys), sys)
      ensures !active ==> out[..] == Silence(512) && Backlog() == []
      ensures active ==>
                var n := Min(512, |old(Backlog())|);
                && out[..] == old(Backlog())[..n] + Silence(512 - n)
                && Backlog() == old(Backlog())[n..]
    {
      hide Reaches, Inv, AllPlayed;
      AtRest(sys);
      ReachesItself(sys);
      var r, w := Acquire();
      r := Drain(out, r, w);
      CallbackPlaysInOrder(sys);
      Advance(Release);
      read := r;
    }
  }
}
