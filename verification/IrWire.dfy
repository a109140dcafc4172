/**
 Two link ends joined by one TCP connection, which is a reliable byte stream in each direction
 (RFC 9293 section 2.2). Nothing is lost, repeated or reordered while both ends are up, and what was
 delivered is always a prefix of what was accepted.
 */
module IrWire {
  import opened Words
  import opened IrLink

  /**
   One direction: bytes the sender accepted, bytes under way in the network, and bytes the receiver handed
   to its caller.
   */
  datatype Stream = Stream(accepted: seq<u8>, underway: seq<u8>, delivered: seq<u8>)

  datatype Wire = Wire(left: Link, right: Link, toRight: Stream, toLeft: Stream)

  /** The same wire seen from the other end. */
  function Swap(w: Wire): Wire { Wire(w.right, w.left, w.toLeft, w.toRight) }

  /** What the left end does; the right end's steps are these on the swapped wire. */
  datatype Action =
    | Queue(data: seq<u8>)
    | Take(capacity: nat)
    | Service(answers: Answers)
    | Hang         // the left end closes
    | Lose(n: nat) // after either end is down, the network may drop what is still under way

  predicate Up(l: Link) { l.state >= WAITING }

  /** The network hands over only bytes that are under way, in order. */
  predicate Enabled(w: Wire, a: Action) {
    match a
    case Service(answers) => Poll(w.left, answers).received <= w.toLeft.underway
    case Lose(n) => !(Up(w.left) && Up(w.right)) && n <= |w.toLeft.underway|
    case _ => true
  }

  function Next(w: Wire, a: Action): Wire
    requires Enabled(w, a)
  {
    match a
    case Queue(data) =>
      var (link, taken) := Send(w.left, data);
      w.(left := link, toRight := w.toRight.(accepted := w.toRight.accepted + if taken then data else []))
    case Take(capacity) =>
      var (link, bytes) := Read(w.left, capacity);
      w.(left := link, toLeft := w.toLeft.(delivered := w.toLeft.delivered + bytes))
    case Service(answers) =>
      var polled := Poll(w.left, answers);
      w.(left := polled.link,
         toRight := w.toRight.(underway := w.toRight.underway + polled.sent),
         toLeft := w.toLeft.(underway := w.toLeft.underway[|polled.received|..]))
    case Hang => w.(left := CLOSED)
    case Lose(n) => w.(toLeft := w.toLeft.(underway := w.toLeft.underway[..n]))
  }

  /** A fresh connection: one end accepts or has accepted, the other connects or has connected. */
  predicate Fresh(w: Wire) {
    && Sound(w.left) && Sound(w.right) && Up(w.left) && Up(w.right)
    && w.left.tx == [] && w.left.rx == [] && w.right.tx == [] && w.right.rx == []
    && w.toRight == Stream([], [], []) && w.toLeft == Stream([], [], [])
  }

  ghost predicate Step(w: Wire, w': Wire) {
    exists a: Action ::
      (Enabled(w, a) && w' == Next(w, a)) || (Enabled(Swap(w), a) && Swap(w') == Next(Swap(w), a))
  }

  ghost predicate IsRun(run: seq<Wire>) {
    && |run| > 0 && Fresh(run[0])
    && forall i :: 0 <= i < |run| - 1 ==> Step(run[i], run[i + 1])
  }

  // ---------------------------------------------------------------- the invariant

  /** One direction is conserved, as far as its two ends are up. */
  predicate Conserved(sender: Link, s: Stream, receiver: Link) {
    && s.delivered <= s.accepted
    && (Up(receiver) ==> s.delivered + receiver.rx + s.underway <= s.accepted)
    && (Up(sender) && Up(receiver) ==> s.delivered + receiver.rx + s.underway + sender.tx == s.accepted)
  }

  predicate Inv(w: Wire) {
    && Sound(w.left) && Sound(w.right)
    && Conserved(w.left, w.toRight, w.right)
    && Conserved(w.right, w.toLeft, w.left)
  }

  lemma QueueKeepsInv(w: Wire, data: seq<u8>)
    requires Inv(w)
    ensures Inv(Next(w, Queue(data)))
  {
    var s := w.toRight;
    var all := s.delivered + w.right.rx + s.underway;
    assert all + (w.left.tx + data) == all + w.left.tx + data;
    assert s.accepted <= s.accepted + data;
  }

  lemma TakeKeepsInv(w: Wire, capacity: nat)
    requires Inv(w)
    ensures Inv(Next(w, Take(capacity)))
  {
    TakingKeepsConserved(w.right, w.toLeft, w.left, Min(capacity, |w.left.rx|));
  }

  /** Handing the first bytes of the receive queue to the caller. */
  lemma TakingKeepsConserved(sender: Link, s: Stream, receiver: Link, n: nat)
    requires Conserved(sender, s, receiver) && Sound(receiver) && n <= |receiver.rx|
    ensures Conserved(sender, s.(delivered := s.delivered + receiver.rx[..n]), receiver.(rx := receiver.rx[n..]))
  {
    var rx := receiver.rx;
    TakingRegroups(s.delivered, rx, n, s.underway, sender.tx);
    if !Up(receiver) {
      assert rx == [] && s.delivered + rx[..n] == s.delivered;
    } else {
      Prefixes(s.delivered + rx[..n], rx[n..] + s.underway, s.accepted);
    }
  }

  lemma TakingRegroups(delivered: seq<u8>, rx: seq<u8>, n: nat, underway: seq<u8>, tx: seq<u8>)
    requires n <= |rx|
    ensures delivered + rx[..n] + rx[n..] + underway == delivered + rx + underway
    ensures delivered + rx[..n] + (rx[n..] + underway) == delivered + rx + underway
    ensures delivered + rx[..n] + rx[n..] + underway + tx == delivered + rx + underway + tx
  {
    assert rx == rx[..n] + rx[n..];
  }

  lemma Prefixes(a: seq<u8>, b: seq<u8>, c: seq<u8>)
    requires a + b <= c
    ensures a <= c
  {
    assert a == (a + b)[..|a|];
  }

  /** Handing `out`, a prefix of the queue, to the network. */
  lemma SendingKeepsConserved(sender: Link, sender': Link, s: Stream, receiver: Link, out: seq<u8>)
    requires Conserved(sender, s, receiver) && Up(sender) && out <= sender.tx
    requires Up(sender') ==> sender'.tx == sender.tx[|out|..]
    ensures Conserved(sender', s.(underway := s.underway + out), receiver)
  {
    var all := s.delivered + receiver.rx + s.underway;
    assert sender.tx == out + sender.tx[|out|..];
    assert s.delivered + receiver.rx + (s.underway + out) == all + out;
    assert all + out + sender.tx[|out|..] == all + sender.tx;
    if Up(receiver) {
      Prefixes(all + out, sender.tx[|out|..], s.accepted);
    }
  }

  /** Taking `got`, a prefix of what is under way, from the network. */
  lemma ReceivingKeepsConserved(sender: Link, s: Stream, receiver: Link, receiver': Link, got: seq<u8>)
    requires Conserved(sender, s, receiver) && Up(receiver) && got <= s.underway
    requires Up(receiver') ==> receiver'.rx == receiver.rx + got
    ensures Conserved(sender, s.(underway := s.underway[|got|..]), receiver')
  {
    assert s.underway == got + s.underway[|got|..];
    assert s.delivered + (receiver.rx + got) + s.underway[|got|..] == s.delivered + receiver.rx + s.underway;
  }

  /** What a poll of a link that is up does to its queues. */
  lemma PollMovesBytes(l: Link, a: Answers)
    requires Sound(l) && Up(l)
    ensures var p := Poll(l, a);
            && Sound(p.link)
            && p.sent <= l.tx
            && (Up(p.link) ==> p.link.tx == l.tx[|p.sent|..] && p.link.rx == l.rx + p.received)
  {
    ProgressSound(l, a);
    var ready := Progress(l, a);
    assert l.rx + [] == l.rx;
    if ready.state == CONNECTED {
      FlushSendsPrefix(ready, a.sends);
      var flushed := Flush(ready, a.sends).0;
      if flushed.state == CONNECTED {
        ReceiveAppends(flushed, a.receives, RECEIVES_PER_POLL);
      }
    }
  }

  lemma DownServesNothing(w: Wire, answers: Answers)
    requires Enabled(w, Service(answers)) && !Up(w.left)
    ensures Next(w, Service(answers)) == w
  {
    assert w.toRight.underway + [] == w.toRight.underway && w.toLeft.underway[0..] == w.toLeft.underway;
  }

  lemma ServiceKeepsInv(w: Wire, answers: Answers)
    requires Inv(w) && Enabled(w, Service(answers))
    ensures Inv(Next(w, Service(answers)))
  {
    hide Conserved, Poll, Sound;
    if Up(w.left) {
      var p := Poll(w.left, answers);
      PollMovesBytes(w.left, answers);
      SendingKeepsConserved(w.left, p.link, w.toRight, w.right, p.sent);
      ReceivingKeepsConserved(w.right, w.toLeft, w.left, p.link, p.received);
    } else {
      DownServesNothing(w, answers);
    }
  }

  lemma LoseKeepsInv(w: Wire, n: nat)
    requires Inv(w) && Enabled(w, Lose(n))
    ensures Inv(Next(w, Lose(n)))
  {
    var s := w.toLeft;
    if Up(w.left) {
      var all := s.delivered + w.left.rx;
      assert s.underway == s.underway[..n] + s.underway[n..];
      assert all + s.underway == (all + s.underway[..n]) + s.underway[n..];
      Prefixes(all + s.underway[..n], s.underway[n..], s.accepted);
    }
  }

  lemma ActionKeepsInv(w: Wire, a: Action)
    requires Inv(w) && Enabled(w, a)
    ensures Inv(Next(w, a))
  {
    match a
    case Queue(data) => QueueKeepsInv(w, data);
    case Take(capacity) => TakeKeepsInv(w, capacity);
    case Service(answers) => ServiceKeepsInv(w, answers);
    case Hang =>
    case Lose(n) => LoseKeepsInv(w, n);
  }

  lemma StepKeepsInv(w: Wire, w': Wire)
    requires Inv(w) && Step(w, w')
    ensures Inv(w')
  {
    var a: Action :|
      (Enabled(w, a) && w' == Next(w, a)) || (Enabled(Swap(w), a) && Swap(w') == Next(Swap(w), a));
    if Enabled(w, a) && w' == Next(w, a) {
      ActionKeepsInv(w, a);
    } else {
      ActionKeepsInv(Swap(w), a);
      assert Swap(Swap(w')) == w';
    }
  }

  lemma {:induction false} RunKeepsInv(run: seq<Wire>, i: nat)
    requires IsRun(run) && i < |run|
    ensures Inv(run[i])
  {
    if i > 0 {
      RunKeepsInv(run, i - 1);
      StepKeepsInv(run[i - 1], run[i]);
    }
  }

  /**
   While both ends are up, the bytes one end accepted are exactly those delivered at the other, then those in
   its receive queue, then those under way, then those in the sender's queue; and at all times, through any
   failure or close, what was delivered is a prefix of what was accepted. Neither queue ever passes its limit.
   */
  lemma BytesAreConserved(run: seq<Wire>, i: nat)
    requires IsRun(run) && i < |run|
    ensures var w := run[i];
            && w.toRight.delivered <= w.toRight.accepted
            && w.toLeft.delivered <= w.toLeft.accepted
            && (Up(w.left) && Up(w.right) ==>
                  && w.toRight.delivered + w.right.rx + w.toRight.underway + w.left.tx == w.toRight.accepted
                  && w.toLeft.delivered + w.left.rx + w.toLeft.underway + w.right.tx == w.toLeft.accepted)
            && Sound(w.left) && Sound(w.right)
  {
    RunKeepsInv(run, i);
  }
}
