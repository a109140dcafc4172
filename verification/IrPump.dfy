/** The host's infrared loop: it polls the link, hands it whole bursts, and takes what has arrived. */
module IrPump {
  import opened Words
  import opened IrLink
  import Emulator

  /** Sends chunk after chunk, whatever the link answers. */
  function SendChunks(l: Link, chunks: seq<seq<u8>>): Link {
    if chunks == [] then l
    else Send(SendChunks(l, chunks[..|chunks| - 1]), chunks[|chunks| - 1]).0
  }

  function Joined(chunks: seq<seq<u8>>): seq<u8> {
    if chunks == [] then [] else Joined(chunks[..|chunks| - 1]) + chunks[|chunks| - 1]
  }

  /** A link that is offered a whole burst: all of it is queued, or the link fails. */
  function Offered(l: Link, burst: seq<u8>): Link {
    if l.state != CONNECTED then l
    else if |l.tx| + |burst| > QUEUE_LIMIT then Failed(TooMuchToSend)
    else l.(tx := l.tx + burst)
  }

  lemma OfferedInTwo(l: Link, first: seq<u8>, second: seq<u8>)
    requires Sound(l)
    ensures Sound(Offered(l, first))
    ensures Send(Offered(l, first), second).0 == Offered(l, first + second)
  {
    assert l.tx + (first + second) == l.tx + first + second;
  }

  /** However a burst is cut into chunks, the link queues all of it behind what was queued, or fails. */
  lemma {:induction false} ChunksAreQueuedWhole(l: Link, chunks: seq<seq<u8>>)
    requires Sound(l)
    ensures SendChunks(l, chunks) == Offered(l, Joined(chunks))
  {
    if chunks == [] {
      assert l.tx + [] == l.tx;
    } else {
      ChunksAreQueuedWhole(l, chunks[..|chunks| - 1]);
      OfferedInTwo(l, Joined(chunks[..|chunks| - 1]), chunks[|chunks| - 1]);
    }
  }

  /** The device after a change of the link's state, which drops what it had transmitted. */
  function Cleared(d: Emulator.Device, changed: bool): Emulator.Device {
    d.(ir := if changed then [] else d.ir)
  }

  /** Hands bytes to the device in chunks; `core(k)` is how many of the k-th chunk its core takes before it throws. */
  function HandOver(d: Emulator.Device, bytes: seq<u8>, core: nat -> nat, k: nat): Emulator.Device
    decreases |bytes|
  {
    if bytes == [] then d
    else
      var n := Min(|bytes|, Emulator.PUMP_CHUNK);
      HandOver(Emulator.Hear(d, bytes[..n], core(k)), bytes[n..], core, k + 1)
  }

  /** The chunks do not show: a core that does not throw hears exactly the bytes that arrived, in order. */
  lemma {:induction false} AllIsHeard(d: Emulator.Device, bytes: seq<u8>, core: nat -> nat, k: nat)
    requires forall j: nat :: j >= k ==> core(j) >= Emulator.PUMP_CHUNK
    ensures HandOver(d, bytes, core, k) == d.(heard := d.heard + bytes)
    decreases |bytes|
  {
    if bytes == [] {
      assert d.heard + [] == d.heard;
    } else {
      var n := Min(|bytes|, Emulator.PUMP_CHUNK);
      assert core(k) >= n;
      var d' := Emulator.Hear(d, bytes[..n], core(k));
      assert d'.heard == d.heard + bytes[..n];
      AllIsHeard(d', bytes[n..], core, k + 1);
      assert d.heard + bytes == d.heard + bytes[..n] + bytes[n..];
    }
  }

  /** A core that has not thrown by the end heard everything, and never threw before. */
  lemma {:induction false} UnbrokenHeardAll(d: Emulator.Device, bytes: seq<u8>, core: nat -> nat, k: nat)
    requires !HandOver(d, bytes, core, k).broken
    ensures !d.broken && HandOver(d, bytes, core, k) == d.(heard := d.heard + bytes)
    decreases |bytes|
  {
    if bytes == [] {
      assert d.heard + [] == d.heard;
    } else {
      var n := Min(|bytes|, Emulator.PUMP_CHUNK);
      UnbrokenHeardAll(Emulator.Hear(d, bytes[..n], core(k)), bytes[n..], core, k + 1);
      assert bytes[..n][..n] == bytes[..n];
      assert d.heard + bytes == d.heard + bytes[..n] + bytes[n..];
    }
  }

  /** Hearing takes no time and sends nothing. */
  lemma {:induction false} HearingIsQuiet(d: Emulator.Device, bytes: seq<u8>, core: nat -> nat, k: nat)
    ensures var e := HandOver(d, bytes, core, k); e == d.(heard := e.heard, broken := e.broken)
    decreases |bytes|
  {
    if bytes != [] {
      var n := Min(|bytes|, Emulator.PUMP_CHUNK);
      HearingIsQuiet(Emulator.Hear(d, bytes[..n], core(k)), bytes[n..], core, k + 1);
    }
  }

  /** One tick of the host: what it leaves, the burst it published, and the bytes that arrived. */
  datatype Ticked = Ticked(device: Emulator.Device, link: Link, lastLinkState: int, burst: seq<u8>, arrived: seq<u8>)

  function Tick(d: Emulator.Device, l: Link, lastLinkState: int, answers: Answers, core: nat -> nat): Ticked
    requires d.lastIr <= d.cycles
  {
    var polled := Poll(l, answers).link;
    var device := Cleared(d, polled.state != lastLinkState);
    var (rest, burst) := Emulator.Pump(device);
    var offered := Offered(polled, burst);
    Ticked(HandOver(rest, offered.rx, core, 0), offered.(rx := []), polled.state, burst, offered.rx)
  }

  /**
   A tick from what the poll leaves. A change of the link's state drops all that was transmitted. Otherwise, once the
   device has not transmitted for 921 cycles, all of it leaves the device, for the link if it is connected; and what
   does not fit in 65536 bytes there fails the link, with all that it held. What the link has received is then heard by
   the device, and nothing else, and nothing stays in the link.
   */
  lemma TickIsExact(d: Emulator.Device, l: Link, lastLinkState: int, answers: Answers, core: nat -> nat)
    requires Sound(l) && d.lastIr <= d.cycles
    ensures var t, polled := Tick(d, l, lastLinkState, answers, core), Poll(l, answers).link;
            var changed, finished := polled.state != lastLinkState, d.cycles - d.lastIr >= 921;
            var fits := |polled.tx| + |t.burst| <= 65536;
            && t.lastLinkState == polled.state
            && t.burst == (if !changed && finished then d.ir else [])
            && t.device == d.(ir := if changed || finished then [] else d.ir,
                              heard := t.device.heard, broken := t.device.broken)
            && (polled.state == 2 && !fits ==> t.link == Link(false, false, -1, 0, [], [], Some(TooMuchToSend)))
            && (polled.state == 2 && fits ==> t.link == polled.(tx := polled.tx + t.burst, rx := []))
            && (polled.state != 2 ==> t.link == polled)
            && t.arrived == (if fits then polled.rx else [])
            && (!t.device.broken ==> t.device.heard == d.heard + t.arrived)
            && (d.broken ==> t.device.broken)
            && ((forall k: nat :: core(k) >= 4096) ==> t.device.broken == d.broken)
  {
    var t, polled := Tick(d, l, lastLinkState, answers, core), Poll(l, answers).link;
    PollIsSound(l, answers);
    var rest := Emulator.Pump(Cleared(d, polled.state != lastLinkState)).0;
    HearingIsQuiet(rest, t.arrived, core, 0);
    if !t.device.broken {
      UnbrokenHeardAll(rest, t.arrived, core, 0);
    }
    if forall k: nat :: core(k) >= 4096 {
      AllIsHeard(rest, t.arrived, core, 0);
    }
  }

  /** Taking one more chunk off what is left of a queue. */
  lemma NextChunk(taken: seq<u8>, chunk: seq<u8>, left: seq<u8>, next: seq<u8>, left': seq<u8>, all: seq<u8>)
    requires taken + chunk + left == all && left == next + left'
    ensures taken + chunk + next + left' == all
  {
    assert taken + chunk + (next + left') == taken + chunk + next + left';
  }

  lemma NoChunk(taken: seq<u8>, left: seq<u8>, all: seq<u8>)
    requires taken + [] + left == all
    ensures left == [] ==> taken == all
    ensures taken == [] ==> left == all
  {
  }

  lemma HandOverNext(d: Emulator.Device, bytes: seq<u8>, rest: seq<u8>, core: nat -> nat, k: nat)
    requires bytes != [] && bytes == (bytes + rest)[..Min(|bytes + rest|, Emulator.PUMP_CHUNK)]
    ensures HandOver(d, bytes + rest, core, k) == HandOver(Emulator.Hear(d, bytes, core(k)), rest, core, k + 1)
  {
    assert (bytes + rest)[|bytes|..] == rest;
  }

  lemma Rejoined(all: seq<u8>)
    ensures var n := Min(|all|, Emulator.PUMP_CHUNK); all[..n] + all[n..] == all
  {
  }

  class Host {
    const emulator: Emulator.PWEmulator
    const link: PWLink
    var lastLinkState: int

    ghost predicate Valid()
      reads this, emulator, link
    {
      emulator.Valid() && Sound(link.Value())
    }

    constructor ()
      ensures Valid() && emulator.Value() == Emulator.NEW && link.Value() == CLOSED && lastLinkState == OFF
      ensures fresh(emulator) && fresh(link)
    {
      emulator := new Emulator.PWEmulator();
      link := new PWLink();
      lastLinkState := OFF;
    }

    /** The next chunk of a finished burst. */
    method NextPiece() returns (chunk: seq<u8>)
      requires emulator.lastIr <= emulator.cycles
      modifies emulator`ir
      ensures old(emulator.ir) == chunk + emulator.ir
      ensures Emulator.Idle(emulator.Value()) ==> (chunk == [] ==> emulator.ir == [])
      ensures !Emulator.Idle(emulator.Value()) ==> chunk == []
    {
      chunk := emulator.TransmitIr(Emulator.PUMP_CHUNK);
    }

    /** Takes the finished burst chunk by chunk and offers each chunk to the link if it was connected. */
    method Forward(connected: bool) returns (burst: seq<u8>)
      requires emulator.lastIr <= emulator.cycles && Sound(link.Value())
      modifies emulator`ir, link
      ensures (emulator.Value(), burst) == Emulator.Pump(old(emulator.Value()))
      ensures link.Value() == if connected then Offered(old(link.Value()), burst) else old(link.Value())
    {
      ghost var l, idle := link.Value(), Emulator.Idle(emulator.Value());
      burst := [];
      assert l.tx + [] == l.tx;
      var chunk := NextPiece();
      while chunk != []
        invariant burst + chunk + emulator.ir == old(emulator.ir)
        invariant if idle then chunk == [] ==> emulator.ir == [] else chunk == [] && burst == []
        invariant link.Value() == if connected then Offered(l, burst) else l
        decreases |emulator.ir| + |chunk|
      {
        OfferedInTwo(l, burst, chunk);
        if connected {
          var _ := link.SendBytes(chunk);
        }
        ghost var taken, last, before := burst, chunk, emulator.ir;
        burst := burst + chunk;
        chunk := NextPiece();
        NextChunk(taken, last, before, chunk, emulator.ir, old(emulator.ir));
      }
      NoChunk(burst, emulator.ir, old(emulator.ir));
    }

    method NextArrival() returns (bytes: seq<u8>)
      modifies link
      ensures bytes == old(link.rx)[..Min(|old(link.rx)|, Emulator.PUMP_CHUNK)]
      ensures link.rx == old(link.rx)[|bytes|..] && link.Value() == old(link.Value()).(rx := link.rx)
    {
      bytes := link.ReadBytes(Emulator.PUMP_CHUNK);
    }

    /** Takes all that has arrived, chunk by chunk, and hands it to the device. */
    method Collect(core: nat -> nat) returns (arrived: seq<u8>)
      requires emulator.Valid()
      modifies link, emulator
      ensures emulator.Valid()
      ensures arrived == old(link.rx) && link.Value() == old(link.Value()).(rx := [])
      ensures emulator.Value() == HandOver(old(emulator.Value()), arrived, core, 0)
    {
      ghost var d, all := emulator.Value(), link.rx;
      arrived := [];
      var k := 0;
      var bytes := NextArrival();
      while bytes != []
        invariant emulator.Valid() && arrived + bytes + link.rx == all
        invariant bytes == (bytes + link.rx)[..Min(|bytes + link.rx|, Emulator.PUMP_CHUNK)]
        invariant HandOver(d, all, core, 0) == HandOver(emulator.Value(), bytes + link.rx, core, k)
        invariant link.Value() == old(link.Value()).(rx := link.rx)
        decreases |link.rx| + |bytes|
      {
        HandOverNext(emulator.Value(), bytes, link.rx, core, k);
        var _ := emulator.ReceiveIr(bytes, core(k));
        ghost var taken, last, before := arrived, bytes, link.rx;
        arrived := arrived + bytes;
        k := k + 1;
        bytes := NextArrival();
        Rejoined(before);
        NextChunk(taken, last, before, bytes, link.rx, all);
      }
      NoChunk(arrived, link.rx, all);
    }

    method PollOnce(answers: Answers)
      requires Sound(link.Value())
      modifies link
      ensures Sound(link.Value()) && link.Value() == Poll(old(link.Value()), answers).link
    {
      PollIsSound(link.Value(), answers);
      var _, _ := link.PollNetwork(answers);
    }

    /** Polls the link; a change of its state drops what was transmitted for the old connection. */
    method PollLink(answers: Answers)
      requires Valid()
      modifies this`lastLinkState, emulator, link
      ensures Valid() && lastLinkState == link.state
      ensures link.Value() == Poll(old(link.Value()), answers).link
      ensures emulator.Value() == Cleared(old(emulator.Value()), link.state != old(lastLinkState))
    {
      PollOnce(answers);
      if link.state != lastLinkState {
        emulator.ClearIr();
        lastLinkState := link.state;
      }
    }

    /** A finished burst is offered whole to a link that is connected; all that has arrived is handed to the device. */
    method MoveBytes(core: nat -> nat) returns (burst: seq<u8>, arrived: seq<u8>)
      requires Valid()
      modifies emulator, link
      ensures Valid() && old(emulator.lastIr) <= old(emulator.cycles)
      ensures burst == Emulator.Pump(old(emulator.Value())).1
      ensures emulator.Value() == HandOver(Emulator.Pump(old(emulator.Value())).0, arrived, core, 0)
      ensures var offered := Offered(old(link.Value()), burst);
              arrived == offered.rx && link.Value() == offered.(rx := [])
    {
      assert Emulator.Consistent(Emulator.After(emulator.history));
      emulator.Record(Emulator.PumpAll);
      burst := Forward(link.state == CONNECTED);
      arrived := Collect(core);
    }

    /** One tick of the host. */
    method PumpIr(answers: Answers, core: nat -> nat) returns (burst: seq<u8>, arrived: seq<u8>)
      requires Valid()
      modifies this`lastLinkState, emulator, link
      ensures Valid()
      ensures old(emulator.lastIr) <= old(emulator.cycles)
      ensures Ticked(emulator.Value(), link.Value(), lastLinkState, burst, arrived)
           == Tick(old(emulator.Value()), old(link.Value()), old(lastLinkState), answers, core)
    {
      PollLink(answers);
      burst, arrived := MoveBytes(core);
    }
  }
}
