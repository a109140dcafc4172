/**
 One end of the virtual infrared link: a non-blocking TCP socket with bounded queues in both directions.
 What the operating system answers is an input: every call takes the results of the socket calls it makes.
 */
module IrLink {
  import opened Words

  const QUEUE_LIMIT: nat := 65536
  const CHUNK: nat := 4096
  const RECEIVES_PER_POLL: nat := 16

  const OFF: int := 0
  const WAITING: int := 1
  const CONNECTED: int := 2
  const FAILED: int := -1

  datatype Fault = SocketError | InvalidAddress | PeerClosed | TooMuchReceived | TooMuchToSend

  /** `server` and `peer` say whether that descriptor is open. */
  datatype Link = Link(server: bool, peer: bool, state: int, port: u16, tx: seq<u8>, rx: seq<u8>, fault: Option<Fault>)

  const CLOSED: Link := Link(false, false, OFF, 0, [], [], None)

  function Failed(fault: Fault): Link { CLOSED.(state := FAILED, fault := Some(fault)) }

  /** What holds of a link in every reachable state. */
  predicate Sound(l: Link) {
    && OFF - 1 <= l.state <= CONNECTED
    && |l.tx| <= QUEUE_LIMIT && |l.rx| <= QUEUE_LIMIT
    && (l.tx != [] || l.rx != [] ==> l.state == CONNECTED)
    && (l.state == CONNECTED ==> l.peer)
    && (l.state == WAITING ==> l.server != l.peer)
    && (l.state == OFF || l.state == FAILED ==> !l.server && !l.peer)
  }

  // ---------------------------------------------------------------- what the system answers

  datatype AcceptResult = Accepted | NobodyYet | AcceptFailed

  datatype ConnectProgress = InProgress | Established | Refused

  /** Answers to `send`; one may take fewer bytes than it was offered. */
  datatype SendResult = Sent(count: nat) | SendInterrupted | SendWouldBlock | SendFailed

  /** What one `recv` into a chunk can deliver. */
  type Delivery = s: seq<u8> | 0 < |s| <= CHUNK witness [0]

  /** Answers to `recv`. */
  datatype RecvResult = Received(bytes: Delivery) | EndOfStream | RecvInterrupted | RecvWouldBlock | RecvFailed

  /** The answers to one poll; once the answers of a kind run out, that call would block. */
  datatype Answers = Answers(accept: AcceptResult, progress: ConnectProgress,
                             sends: seq<SendResult>, receives: seq<RecvResult>)

  // ---------------------------------------------------------------- one poll, step by step

  /** Finishing a connection: accepting a caller, or noticing that a connect completed. */
  function Progress(l: Link, a: Answers): Link {
    if l.server && !l.peer then
      if a.accept.Accepted? then l.(peer := true, state := CONNECTED)
      else if a.accept.NobodyYet? then l
      else Failed(SocketError)
    else if l.state == WAITING then
      if a.progress.Established? then l.(state := CONNECTED)
      else if a.progress.InProgress? then l
      else Failed(SocketError)
    else l
  }

  /** How many bytes a `send` that answers `count` takes from the queue. */
  function TakenBy(l: Link, count: nat): nat { Min(Min(|l.tx|, CHUNK), count) }

  /** The sending loop: the link afterwards and the bytes handed to the network. */
  function Flush(l: Link, sends: seq<SendResult>): (r: (Link, seq<u8>))
    decreases |sends|
  {
    if l.tx == [] || sends == [] then (l, [])
    else
      match sends[0]
      case Sent(count) =>
        var n := TakenBy(l, count);
        if n == 0 then (l, [])
        else
          var rest := Flush(l.(tx := l.tx[n..]), sends[1..]);
          (rest.0, l.tx[..n] + rest.1)
      case SendInterrupted => Flush(l, sends[1..])
      case SendWouldBlock => (l, [])
      case SendFailed => (Failed(SocketError), [])
  }

  /** The receiving loop: the link afterwards and the bytes taken from the network. */
  function Receive(l: Link, receives: seq<RecvResult>, tries: nat): (r: (Link, seq<u8>))
    decreases tries
  {
    if tries == 0 || receives == [] then (l, [])
    else
      match receives[0]
      case Received(bytes) =>
        if |l.rx| + |bytes| > QUEUE_LIMIT then (Failed(TooMuchReceived), bytes)
        else
          var rest := Receive(l.(rx := l.rx + bytes), receives[1..], tries - 1);
          (rest.0, bytes + rest.1)
      case RecvInterrupted => Receive(l, receives[1..], tries - 1)
      case EndOfStream => (Failed(PeerClosed), [])
      case RecvWouldBlock => (l, [])
      case RecvFailed => (Failed(SocketError), [])
  }

  /** One poll: the link afterwards, the bytes sent and the bytes received. */
  datatype Polled = Polled(link: Link, sent: seq<u8>, received: seq<u8>)

  function Poll(l: Link, a: Answers): Polled {
    if l.state < WAITING then Polled(l, [], [])
    else
      var ready := Progress(l, a);
      if ready.state != CONNECTED then Polled(ready, [], [])
      else
        var flushed := Flush(ready, a.sends);
        if flushed.0.state != CONNECTED then Polled(flushed.0, flushed.1, [])
        else
          var got := Receive(flushed.0, a.receives, RECEIVES_PER_POLL);
          Polled(got.0, flushed.1, got.1)
  }

  // ---------------------------------------------------------------- the other calls

  /** Queues all bytes or none; an overfull queue fails the link. */
  function Send(l: Link, data: seq<u8>): (Link, bool) {
    if l.state != CONNECTED then (l, false)
    else if |data| > QUEUE_LIMIT - |l.tx| then (Failed(TooMuchToSend), false)
    else (l.(tx := l.tx + data), true)
  }

  function Read(l: Link, capacity: nat): (Link, seq<u8>) {
    var n := Min(capacity, |l.rx|);
    (l.(rx := l.rx[n..]), l.rx[..n])
  }

  datatype ListenAnswer = Listening(port: u16) | CannotListen

  function Listen(answer: ListenAnswer): Link {
    match answer
    case Listening(port) => CLOSED.(server := true, port := port, state := WAITING)
    case CannotListen => Failed(SocketError)
  }

  /** `validAddress` says whether the host parses as an IPv4 address. */
  function Connect(port: u16, validAddress: bool, socketOpens: bool, progress: ConnectProgress): Link {
    if port == 0 || !validAddress then Failed(InvalidAddress)
    else if !socketOpens || progress.Refused? then Failed(SocketError)
    else CLOSED.(peer := true, port := port, state := if progress.Established? then CONNECTED else WAITING)
  }

  // ---------------------------------------------------------------- soundness of every call

  lemma ProgressSound(l: Link, a: Answers)
    requires Sound(l) && l.state >= WAITING
    ensures Sound(Progress(l, a))
  {
  }

  /** What the loop sent is a prefix of the queue, and the rest is still queued unless the link failed. */
  lemma {:induction false} FlushSendsPrefix(l: Link, sends: seq<SendResult>)
    requires Sound(l) && l.state == CONNECTED
    ensures var (m, out) := Flush(l, sends);
            && Sound(m)
            && out <= l.tx
            && (if m.state == CONNECTED then m == l.(tx := l.tx[|out|..]) else m == Failed(SocketError))
    decreases |sends|
  {
    if l.tx != [] && sends != [] {
      match sends[0] {
        case Sent(count) =>
          var n := TakenBy(l, count);
          if n > 0 {
            FlushSendsPrefix(l.(tx := l.tx[n..]), sends[1..]);
            assert l.tx == l.tx[..n] + l.tx[n..];
          }
        case SendInterrupted => FlushSendsPrefix(l, sends[1..]);
        case SendWouldBlock =>
        case SendFailed =>
      }
    }
  }

  /** What the loop received is appended to the receive queue unless the link failed. */
  lemma {:induction false} ReceiveAppends(l: Link, receives: seq<RecvResult>, tries: nat)
    requires Sound(l) && l.state == CONNECTED
    ensures var (m, got) := Receive(l, receives, tries);
            && Sound(m)
            && (if m.state == CONNECTED then m == l.(rx := l.rx + got) else m.state == FAILED && m.rx == [])
    decreases tries
  {
    if tries > 0 && receives != [] {
      match receives[0] {
        case Received(bytes) =>
          if |l.rx| + |bytes| <= QUEUE_LIMIT {
            ReceiveAppends(l.(rx := l.rx + bytes), receives[1..], tries - 1);
            var got := Receive(l.(rx := l.rx + bytes), receives[1..], tries - 1).1;
            assert l.rx + bytes + got == l.rx + (bytes + got);
          }
        case RecvInterrupted => ReceiveAppends(l, receives[1..], tries - 1);
        case _ =>
      }
    }
  }

  lemma PollIsSound(l: Link, a: Answers)
    requires Sound(l)
    ensures Sound(Poll(l, a).link)
  {
    if l.state >= WAITING {
      ProgressSound(l, a);
      var ready := Progress(l, a);
      if ready.state == CONNECTED {
        FlushSendsPrefix(ready, a.sends);
        var flushed := Flush(ready, a.sends).0;
        if flushed.state == CONNECTED {
          ReceiveAppends(flushed, a.receives, RECEIVES_PER_POLL);
        }
      }
    }
  }

  /** A call of the link, with what the system answers to it. */
  datatype LinkCall =
    | DoListen(listening: ListenAnswer)
    | DoConnect(port: u16, validAddress: bool, socketOpens: bool, progress: ConnectProgress)
    | DoPoll(answers: Answers)
    | DoSend(data: seq<u8>)
    | DoRead(capacity: nat)
    | DoClose

  function Called(l: Link, c: LinkCall): Link {
    match c
    case DoListen(listening) => Listen(listening)
    case DoConnect(port, validAddress, socketOpens, progress) => Connect(port, validAddress, socketOpens, progress)
    case DoPoll(answers) => Poll(l, answers).link
    case DoSend(data) => Send(l, data).0
    case DoRead(capacity) => Read(l, capacity).0
    case DoClose => CLOSED
  }

  /** Every call keeps the link sound, whatever the system answers. */
  lemma EveryCallSound(l: Link, c: LinkCall)
    requires Sound(l)
    ensures Sound(Called(l, c))
  {
    if c.DoPoll? {
      PollIsSound(l, c.answers);
    }
  }

  function CalledAll(l: Link, calls: seq<LinkCall>): Link {
    if calls == [] then l else Called(CalledAll(l, calls[..|calls| - 1]), calls[|calls| - 1])
  }

  /**
   From power-on, after any calls in any order, both queues are within their limit, empty unless the link is
   connected, and exactly those descriptors are open that the state says.
   */
  lemma {:induction false} EveryRunSound(calls: seq<LinkCall>)
    ensures Sound(CalledAll(CLOSED, calls))
  {
    if calls != [] {
      EveryRunSound(calls[..|calls| - 1]);
      EveryCallSound(CalledAll(CLOSED, calls[..|calls| - 1]), calls[|calls| - 1]);
    }
  }

  function Interruptions(sends: seq<SendResult>): nat {
    if sends == [] then 0 else (if sends[0].SendInterrupted? then 1 else 0) + Interruptions(sends[1..])
  }

  /** How many answers of `send` a flush uses, which is how often its loop goes round. */
  function FlushIterations(l: Link, sends: seq<SendResult>): nat
    decreases |sends|
  {
    if l.tx == [] || sends == [] then 0
    else
      match sends[0]
      case Sent(count) =>
        var n := TakenBy(l, count);
        if n == 0 then 1 else 1 + FlushIterations(l.(tx := l.tx[n..]), sends[1..])
      case SendInterrupted => 1 + FlushIterations(l, sends[1..])
      case _ => 1
  }

  /** The sending loop ends after at most one iteration for each queued byte and each interruption. */
  lemma {:induction false} FlushTerminates(l: Link, sends: seq<SendResult>)
    ensures FlushIterations(l, sends) <= |l.tx| + Interruptions(sends)
    decreases |sends|
  {
    if l.tx != [] && sends != [] {
      match sends[0] {
        case Sent(count) =>
          var n := TakenBy(l, count);
          if n > 0 {
            FlushTerminates(l.(tx := l.tx[n..]), sends[1..]);
          }
        case SendInterrupted => FlushTerminates(l, sends[1..]);
        case _ =>
      }
    }
  }

  // ---------------------------------------------------------------- the object

  /** Bytes moved earlier, in front of what a loop still moves. */
  function Prepend(bytes: seq<u8>, rest: (Link, seq<u8>)): (Link, seq<u8>) { (rest.0, bytes + rest.1) }

  lemma Prepended(bytes: seq<u8>, rest: (Link, seq<u8>))
    ensures bytes == [] ==> Prepend(bytes, rest) == rest
    ensures rest.1 == [] ==> Prepend(bytes, rest) == (rest.0, bytes)
  {
    if bytes == [] {
      assert bytes + rest.1 == rest.1;
    }
    if rest.1 == [] {
      assert bytes + rest.1 == bytes;
    }
  }

  lemma PrependTwice(first: seq<u8>, second: seq<u8>, rest: (Link, seq<u8>))
    ensures Prepend(first, Prepend(second, rest)) == Prepend(first + second, rest)
  {
    assert first + (second + rest.1) == first + second + rest.1;
  }

  class PWLink {
    var server: bool
    var peer: bool
    var state: int
    var port: u16
    var tx: seq<u8>
    var rx: seq<u8>
    var fault: Option<Fault>

    ghost function Value(): Link
      reads this
    {
      Link(server, peer, state, port, tx, rx, fault)
    }

    constructor ()
      ensures Value() == CLOSED
    {
      server, peer, state, port, tx, rx, fault := false, false, OFF, 0, [], [], None;
    }

    method Close()
      modifies this
      ensures Value() == CLOSED == Link(false, false, 0, 0, [], [], None)
    {
      server, peer := false, false;
      state, port := OFF, 0;
      tx, rx, fault := [], [], None;
    }

    method Fail(why: Fault)
      modifies this
      ensures Value() == Failed(why) == Link(false, false, -1, 0, [], [], Some(why))
    {
      Close();
      state := FAILED;
      fault := Some(why);
    }

    method ListenOn(answer: ListenAnswer) returns (ok: bool)
      modifies this
      ensures Value() == Listen(answer) && ok == answer.Listening? && Sound(Value())
      ensures ok ==> Value() == Link(true, false, 1, answer.port, [], [], None)
      ensures !ok ==> Value() == Link(false, false, -1, 0, [], [], Some(SocketError))
    {
      Close();
      if answer.CannotListen? {
        Fail(SocketError);
        return false;
      }
      server := true;
      port := answer.port;
      state := WAITING;
      return true;
    }

    method ConnectTo(p: u16, validAddress: bool, socketOpens: bool, progress: ConnectProgress) returns (ok: bool)
      modifies this
      ensures Value() == Connect(p, validAddress, socketOpens, progress) && ok == (state > OFF) && Sound(Value())
      ensures ok <==> p != 0 && validAddress && socketOpens && !progress.Refused?
      ensures ok ==> Value() == Link(false, true, if progress.Established? then 2 else 1, p, [], [], None)
      ensures !ok ==> state == -1 && fault == Some(if p == 0 || !validAddress then InvalidAddress else SocketError)
    {
      Close();
      if p == 0 || !validAddress {
        Fail(InvalidAddress);
        return false;
      }
      if !socketOpens {
        Fail(SocketError);
        return false;
      }
      peer := true;
      if progress.Refused? {
        Fail(SocketError);
        return false;
      }
      port := p;
      state := if progress.InProgress? then WAITING else CONNECTED;
      return true;
    }

    /** Accepts a caller or completes a connect; returns whether the link can move bytes. */
    method MakeProgress(a: Answers) returns (connected: bool)
      requires Sound(Value()) && state >= WAITING
      modifies this
      ensures Value() == Progress(old(Value()), a)
      ensures connected == (state == CONNECTED)
    {
      if server && !peer {
        if !a.accept.Accepted? {
          if a.accept.AcceptFailed? {
            Fail(SocketError);
          }
          return false;
        }
        peer := true;
        state := CONNECTED;
      }
      if state == WAITING {
        if a.progress.InProgress? {
          return false;
        }
        if a.progress.Refused? {
          Fail(SocketError);
          return false;
        }
        state := CONNECTED;
      }
      return true;
    }

    /** Returns the bytes handed to the network and the bytes taken from it. */
    method PollNetwork(a: Answers) returns (sent: seq<u8>, received: seq<u8>)
      requires Sound(Value())
      modifies this
      ensures Polled(Value(), sent, received) == Poll(old(Value()), a)
    {
      sent, received := [], [];
      if state < WAITING {
        return;
      }
      var connected := MakeProgress(a);
      if !connected {
        return;
      }
      ghost var iterations;
      sent, iterations := FlushQueue(a.sends);
      if state != CONNECTED {
        return;
      }
      received := ReceiveSome(a.receives);
    }

    /** The loop ends although interrupted sends do not count: each round takes a byte or uses up an interruption. */
    method FlushQueue(sends: seq<SendResult>) returns (sent: seq<u8>, ghost iterations: nat)
      modifies this
      ensures (Value(), sent) == Flush(old(Value()), sends)
      ensures iterations == FlushIterations(old(Value()), sends) <= |old(tx)| + Interruptions(sends)
    {
      sent, iterations := [], 0;
      var i := 0;
      assert sends[0..] == sends;
      Prepended([], Flush(Value(), sends));
      FlushTerminates(Value(), sends);
      while tx != [] && i < |sends|
        invariant i <= |sends|
        invariant Flush(old(Value()), sends) == Prepend(sent, Flush(Value(), sends[i..]))
        invariant FlushIterations(old(Value()), sends) == iterations + FlushIterations(Value(), sends[i..])
        decreases |tx| + Interruptions(sends[i..])
      {
        iterations := iterations + 1;
        var count := Min(|tx|, CHUNK);
        assert sends[i..][1..] == sends[i + 1..];
        assert sent + [] == sent;
        match sends[i] {
          case Sent(n) =>
            var taken := Min(count, n);
            if taken == 0 {
              return;
            }
            ghost var rest := Flush(Value().(tx := tx[taken..]), sends[i + 1..]);
            PrependTwice(sent, tx[..taken], rest);
            sent := sent + tx[..taken];
            tx := tx[taken..];
          case SendInterrupted =>
          case SendWouldBlock =>
            return;
          case SendFailed =>
            Fail(SocketError);
            return;
        }
        i := i + 1;
      }
      assert sent + [] == sent;
    }

    method ReceiveUpTo(receives: seq<RecvResult>, tries: nat) returns (received: seq<u8>)
      modifies this
      ensures (Value(), received) == Receive(old(Value()), receives, tries)
    {
      received := [];
      var i := 0;
      assert receives[0..] == receives;
      Prepended([], Receive(Value(), receives, tries));
      while i < tries && i < |receives|
        invariant i <= |receives| && i <= tries
        invariant Receive(old(Value()), receives, tries)
               == Prepend(received, Receive(Value(), receives[i..], tries - i))
      {
        assert receives[i..][1..] == receives[i + 1..];
        assert received + [] == received;
        match receives[i] {
          case Received(bytes) =>
            if |rx| + |bytes| <= QUEUE_LIMIT {
              ghost var rest := Receive(Value().(rx := rx + bytes), receives[i + 1..], tries - i - 1);
              PrependTwice(received, bytes, rest);
            }
            received := received + bytes;
            if |rx| + |bytes| > QUEUE_LIMIT {
              Fail(TooMuchReceived);
              return;
            }
            rx := rx + bytes;
          case EndOfStream =>
            Fail(PeerClosed);
            return;
          case RecvInterrupted =>
          case RecvWouldBlock =>
            return;
          case RecvFailed =>
            Fail(SocketError);
            return;
        }
        i := i + 1;
      }
      assert received + [] == received;
    }

    method ReceiveSome(receives: seq<RecvResult>) returns (received: seq<u8>)
      modifies this
      ensures (Value(), received) == Receive(old(Value()), receives, RECEIVES_PER_POLL)
    {
      received := ReceiveUpTo(receives, RECEIVES_PER_POLL);
    }

    method SendBytes(data: seq<u8>) returns (ok: bool)
      requires Sound(Value())
      modifies this
      ensures (Value(), ok) == Send(old(Value()), data)
      ensures ok <==> old(state) == 2 && |old(tx)| + |data| <= 65536
      ensures ok ==> Value() == old(Value()).(tx := old(tx) + data)
      ensures !ok ==> Value() == if old(state) == 2 then Link(false, false, -1, 0, [], [], Some(TooMuchToSend))
                                 else old(Value())
    {
      if state != CONNECTED {
        return false;
      }
      if |data| > QUEUE_LIMIT - |tx| {
        Fail(TooMuchToSend);
        return false;
      }
      tx := tx + data;
      return true;
    }

    method ReadBytes(capacity: nat) returns (bytes: seq<u8>)
      modifies this
      ensures (Value(), bytes) == Read(old(Value()), capacity)
      ensures |bytes| == Min(capacity, |old(rx)|) && old(rx) == bytes + rx && Value() == old(Value()).(rx := rx)
    {
      var count := Min(capacity, |rx|);
      bytes := [];
      for i := 0 to count
        invariant bytes == old(rx)[..i] && rx == old(rx)[i..]
        invariant Value() == old(Value()).(rx := rx)
      {
        bytes := bytes + [rx[0]];
        rx := rx[1..];
      }
    }
  }
}
