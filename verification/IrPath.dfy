/**
 Infrared from one device to the other: two hosts, each pumping between its device and its end of the wire. What a
 device hears over a connection is what the other host published.
 */
module IrPath {
  import opened Words
  import opened IrLink
  import IrPump
  import IrWire
  import Emulator

  /**
   One host: its device, the link state it saw last, the bursts it published while connected, and what its device had
   heard before this connection.
   */
  datatype Station = Station(device: Emulator.Device, lastLinkState: int, published: seq<u8>, before: seq<u8>)

  datatype Path = Path(wire: IrWire.Wire, left: Station, right: Station)

  /** The same path seen from the other end. */
  function Swap(p: Path): Path { Path(IrWire.Swap(p.wire), p.right, p.left) }

  /** What happens at the left end; the right end's moves are these on the swapped path. */
  datatype Move =
    | Pump(answers: Answers, core: nat -> nat)                    // one tick of the host
    | Run(request: nat, device: nat -> Emulator.CoreStep)         // the device runs for some cycles
    | Hang                                                        // the host closes the link
    | Lose(n: nat)                                                // the network drops what a broken connection left

  predicate Timely(d: Emulator.Device) { d.lastIr <= d.cycles }

  predicate Enabled(p: Path, m: Move) {
    Timely(p.left.device) &&
    match m
    case Pump(answers, _) => IrWire.Enabled(p.wire, IrWire.Service(answers))
    case Lose(n) => IrWire.Enabled(p.wire, IrWire.Lose(n))
    case _ => true
  }

  function TickOf(p: Path, answers: Answers, core: nat -> nat): IrPump.Ticked
    requires Timely(p.left.device)
  {
    IrPump.Tick(p.left.device, p.wire.left, p.left.lastLinkState, answers, core)
  }

  /** A tick of the host as actions of the wire: it polls, queues the finished burst, and takes all that has arrived. */
  function Pumped(w: IrWire.Wire, answers: Answers, burst: seq<u8>): IrWire.Wire
    requires IrWire.Enabled(w, IrWire.Service(answers))
  {
    var polled := IrWire.Next(w, IrWire.Service(answers));
    var queued := IrWire.Next(polled, IrWire.Queue(burst));
    IrWire.Next(queued, IrWire.Take(|queued.left.rx|))
  }

  function Next(p: Path, m: Move): Path
    requires Enabled(p, m)
  {
    match m
    case Pump(answers, core) =>
      var t := TickOf(p, answers, core);
      Path(Pumped(p.wire, answers, t.burst),
           p.left.(device := t.device, lastLinkState := t.lastLinkState,
                   published := p.left.published + if t.lastLinkState == CONNECTED then t.burst else []),
           p.right)
    case Run(request, device) => p.(left := p.left.(device := Emulator.RunFor(p.left.device, request, device)))
    case Hang => p.(wire := IrWire.Next(p.wire, IrWire.Hang))
    case Lose(n) => p.(wire := IrWire.Next(p.wire, IrWire.Lose(n)))
  }

  /** The wire's end after those actions is the link after the tick, and what was taken is what arrived. */
  lemma TickIsWireActions(p: Path, answers: Answers, core: nat -> nat)
    requires Enabled(p, Pump(answers, core))
    ensures var t, w := TickOf(p, answers, core), Pumped(p.wire, answers, TickOf(p, answers, core).burst);
            && w.left == t.link && w.right == p.wire.right
            && w.toLeft.delivered == p.wire.toLeft.delivered + t.arrived
            && w.toLeft.accepted == p.wire.toLeft.accepted
            && w.toRight.delivered == p.wire.toRight.delivered
            && w.toRight.accepted
               == p.wire.toRight.accepted
                  + if t.lastLinkState == CONNECTED && IrWire.Up(w.left) then t.burst else []
  {
    var t := TickOf(p, answers, core);
    var polled := IrWire.Next(p.wire, IrWire.Service(answers));
    var queued := IrWire.Next(polled, IrWire.Queue(t.burst));
    assert queued.left == IrPump.Offered(polled.left, t.burst);
    assert queued.left.rx[..|queued.left.rx|] == queued.left.rx && queued.left.rx[|queued.left.rx|..] == [];
  }

  ghost predicate Step(p: Path, p': Path) {
    exists m: Move ::
      (Enabled(p, m) && p' == Next(p, m)) || (Enabled(Swap(p), m) && Swap(p') == Next(Swap(p), m))
  }

  /** A connection has just been made, and neither host has published anything over it. */
  predicate Fresh(p: Path) {
    && IrWire.Fresh(p.wire) && Timely(p.left.device) && Timely(p.right.device)
    && p.left.published == p.right.published == []
    && p.left.before == p.left.device.heard && p.right.before == p.right.device.heard
  }

  ghost predicate IsRun(run: seq<Path>) {
    && |run| > 0 && Fresh(run[0])
    && forall i :: 0 <= i < |run| - 1 ==> Step(run[i], run[i + 1])
  }

  // ---------------------------------------------------------------- the invariant

  /** What the link accepted is what the host published, as long as the link is up. */
  predicate Offered(s: Station, l: Link, accepted: seq<u8>) {
    accepted <= s.published && (IrWire.Up(l) ==> accepted == s.published)
  }

  /** What the link delivered is what the device heard, as long as its core has not thrown. */
  predicate Heard(s: Station, delivered: seq<u8>) { !s.device.broken ==> s.device.heard == s.before + delivered }

  predicate Inv(p: Path) {
    && IrWire.Inv(p.wire) && Timely(p.left.device) && Timely(p.right.device)
    && Offered(p.left, p.wire.left, p.wire.toRight.accepted)
    && Offered(p.right, p.wire.right, p.wire.toLeft.accepted)
    && Heard(p.left, p.wire.toLeft.delivered)
    && Heard(p.right, p.wire.toRight.delivered)
  }

  lemma OfferedGrows(s: Station, l: Link, accepted: seq<u8>, burst: seq<u8>, l': Link, connected: bool)
    requires Offered(s, l, accepted) && (IrWire.Up(l') ==> IrWire.Up(l)) && (connected ==> IrWire.Up(l))
    ensures Offered(s.(published := s.published + if connected then burst else []), l',
                    accepted + if connected && IrWire.Up(l') then burst else [])
  {
    assert s.published <= s.published + burst;
    assert accepted + [] == accepted && s.published + [] == s.published;
  }

  lemma PolledUp(l: Link, answers: Answers, burst: seq<u8>)
    ensures var polled := Poll(l, answers).link;
            && (IrWire.Up(polled) ==> IrWire.Up(l))
            && (IrWire.Up(IrPump.Offered(polled, burst)) ==> IrWire.Up(polled))
  {
  }

  lemma WireKept(w: IrWire.Wire, answers: Answers, burst: seq<u8>)
    requires IrWire.Inv(w) && IrWire.Enabled(w, IrWire.Service(answers))
    ensures IrWire.Inv(Pumped(w, answers, burst))
  {
    var polled := IrWire.Next(w, IrWire.Service(answers));
    IrWire.ActionKeepsInv(w, IrWire.Service(answers));
    IrWire.ActionKeepsInv(polled, IrWire.Queue(burst));
    var queued := IrWire.Next(polled, IrWire.Queue(burst));
    IrWire.ActionKeepsInv(queued, IrWire.Take(|queued.left.rx|));
  }

  lemma HearingGoesOn(s: Station, delivered: seq<u8>, d: Emulator.Device, arrived: seq<u8>, core: nat -> nat)
    requires Heard(s, delivered) && d.heard == s.device.heard && d.broken == s.device.broken
    ensures Heard(s.(device := IrPump.HandOver(d, arrived, core, 0)), delivered + arrived)
  {
    var e := IrPump.HandOver(d, arrived, core, 0);
    if !e.broken {
      IrPump.UnbrokenHeardAll(d, arrived, core, 0);
      assert s.before + (delivered + arrived) == s.before + delivered + arrived;
    }
  }

  lemma PumpKeepsInv(p: Path, answers: Answers, core: nat -> nat)
    requires Inv(p) && Enabled(p, Pump(answers, core))
    ensures Inv(Next(p, Pump(answers, core)))
  {
    var t := TickOf(p, answers, core);
    TickIsWireActions(p, answers, core);
    WireKept(p.wire, answers, t.burst);
    PolledUp(p.wire.left, answers, t.burst);
    OfferedGrows(p.left, p.wire.left, p.wire.toRight.accepted, t.burst, t.link, t.lastLinkState == CONNECTED);
    var cleared := IrPump.Cleared(p.left.device, t.lastLinkState != p.left.lastLinkState);
    var rest := Emulator.Pump(cleared).0;
    HearingGoesOn(p.left, p.wire.toLeft.delivered, rest, t.arrived, core);
    IrPump.HearingIsQuiet(rest, t.arrived, core, 0);
  }

  lemma RunKeepsInv(p: Path, request: nat, device: nat -> Emulator.CoreStep)
    requires Inv(p)
    ensures Inv(Next(p, Run(request, device)))
  {
    Emulator.RunForHearsNothing(p.left.device, request, device);
  }

  lemma MoveKeepsInv(p: Path, m: Move)
    requires Inv(p) && Enabled(p, m)
    ensures Inv(Next(p, m))
  {
    match m
    case Pump(answers, core) => PumpKeepsInv(p, answers, core);
    case Run(request, device) => RunKeepsInv(p, request, device);
    case Hang => IrWire.ActionKeepsInv(p.wire, IrWire.Hang);
    case Lose(n) => IrWire.ActionKeepsInv(p.wire, IrWire.Lose(n));
  }

  lemma StepKeepsInv(p: Path, p': Path)
    requires Inv(p) && Step(p, p')
    ensures Inv(p')
  {
    var m: Move :| (Enabled(p, m) && p' == Next(p, m)) || (Enabled(Swap(p), m) && Swap(p') == Next(Swap(p), m));
    if Enabled(p, m) && p' == Next(p, m) {
      MoveKeepsInv(p, m);
    } else {
      MoveKeepsInv(Swap(p), m);
      assert Swap(Swap(p')) == p';
    }
  }

  lemma {:induction false} EveryPathKeepsInv(run: seq<Path>, i: nat)
    requires IsRun(run) && i < |run|
    ensures Inv(run[i])
  {
    if i > 0 {
      EveryPathKeepsInv(run, i - 1);
      StepKeepsInv(run[i - 1], run[i]);
    } else {
      assert run[0].left.before + [] == run[0].left.before && run[0].right.before + [] == run[0].right.before;
    }
  }

  /**
   Over one connection, whatever the network and the two devices do, what the right device has heard is a prefix of
   the bursts that the left host published while connected, as long as its core has not thrown; and while both links
   are up, what is still missing is under way or queued. (The other direction is this one on the swapped run.)
   */
  lemma HeardIsPublished(run: seq<Path>, i: nat)
    requires IsRun(run) && i < |run| && !run[i].right.device.broken
    ensures var p := run[i];
            && p.right.before <= p.right.device.heard
            && var heard := p.right.device.heard[|p.right.before|..];
               && heard <= p.left.published
               && (IrWire.Up(p.wire.left) && IrWire.Up(p.wire.right) ==>
                     heard + p.wire.right.rx + p.wire.toRight.underway + p.wire.left.tx == p.left.published)
  {
    EveryPathKeepsInv(run, i);
  }
}
