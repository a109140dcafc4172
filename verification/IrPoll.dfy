/**
 One poll of a link, told from the answers of the system alone: which answer ends each loop, what was moved until then,
 and whether and why the link fails.
 */
module IrPoll {
  import opened Words
  import opened IrLink

  // ---------------------------------------------------------------- what the answers say

  /** How many of `queued` bytes the first `n` answers of `send` take; each takes at most 4096. */
  function Taken(queued: nat, sends: seq<SendResult>, n: nat): (t: nat)
    requires n <= |sends|
    ensures t <= queued
  {
    if n == 0 then 0
    else
      var before := Taken(queued, sends, n - 1);
      before + if sends[n - 1].Sent? then Min(Min(queued - before, 4096), sends[n - 1].count) else 0
  }

  /** No answer behind this one is asked for: all was taken before it, or it took nothing and was no interruption. */
  predicate EndsSending(queued: nat, sends: seq<SendResult>, i: nat)
    requires i < |sends|
  {
    || Taken(queued, sends, i) == queued
    || sends[i].SendWouldBlock? || sends[i].SendFailed? || sends[i] == Sent(0)
  }

  /** The sending loop uses the first `n` answers, and stops at the next one or for want of one. */
  ghost predicate SendsUntil(queued: nat, sends: seq<SendResult>, n: nat) {
    && n <= |sends|
    && (forall i: nat :: i < n ==> !EndsSending(queued, sends, i))
    && (n < |sends| ==> EndsSending(queued, sends, n))
  }

  /** All bytes that the first `n` answers of `recv` deliver. */
  function Delivered(receives: seq<RecvResult>, n: nat): seq<u8>
    requires n <= |receives|
  {
    if n == 0 then []
    else Delivered(receives, n - 1) + if receives[n - 1].Received? then receives[n - 1].bytes else []
  }

  /** This answer ends the receiving loop of a link that held `held` bytes. */
  predicate EndsReceiving(held: nat, receives: seq<RecvResult>, i: nat)
    requires i < |receives|
  {
    match receives[i]
    case Received(_) => held + |Delivered(receives, i + 1)| > 65536
    case RecvInterrupted => false
    case _ => true
  }

  ghost predicate ReceivesUntil(held: nat, receives: seq<RecvResult>, n: nat) {
    && n <= |receives| && n <= 16
    && (forall i: nat :: i < n ==> !EndsReceiving(held, receives, i))
    && (n < |receives| && n < 16 ==> EndsReceiving(held, receives, n))
  }

  /** Both loops stop somewhere, whatever the answers are. */
  lemma {:induction false} SendingStops(queued: nat, sends: seq<SendResult>, from: nat) returns (n: nat)
    requires from <= |sends| && forall i: nat :: i < from ==> !EndsSending(queued, sends, i)
    ensures SendsUntil(queued, sends, n)
    decreases |sends| - from
  {
    n := from;
    if from < |sends| && !EndsSending(queued, sends, from) {
      n := SendingStops(queued, sends, from + 1);
    }
  }

  lemma {:induction false} ReceivingStops(held: nat, receives: seq<RecvResult>, from: nat) returns (n: nat)
    requires from <= |receives| && from <= 16
    requires forall i: nat :: i < from ==> !EndsReceiving(held, receives, i)
    ensures ReceivesUntil(held, receives, n)
    decreases 16 - from
  {
    n := from;
    if from < |receives| && from < 16 && !EndsReceiving(held, receives, from) {
      n := ReceivingStops(held, receives, from + 1);
    }
  }

  // ---------------------------------------------------------------- what they mean for a link

  function Down(fault: Fault): Link { Link(false, false, -1, 0, [], [], Some(fault)) }

  /** Somebody may call, or a connect may complete. */
  predicate Accepts(l: Link) { l.server && !l.peer }

  predicate Connects(l: Link) { !Accepts(l) && l.state == 1 }

  /** There is no connection, and this poll makes none: the link is off or failed, or nothing has come of waiting. */
  predicate StillWaits(l: Link, a: Answers) {
    l.state < 1 || (Accepts(l) && a.accept.NobodyYet?) || (Connects(l) && a.progress.InProgress?)
  }

  predicate NeverConnects(l: Link, a: Answers) {
    (Accepts(l) && a.accept.AcceptFailed?) || (Connects(l) && a.progress.Refused?)
  }

  /** A `send` was asked for and failed. */
  predicate SendFails(l: Link, a: Answers, s: nat)
    requires s <= |a.sends|
  {
    s < |a.sends| && a.sends[s].SendFailed? && Taken(|l.tx|, a.sends, s) < |l.tx|
  }

  /** Why the poll fails the link, if it does; its loops stop at answers `s` and `r`. */
  function Reason(l: Link, a: Answers, s: nat, r: nat): Option<Fault>
    requires s <= |a.sends| && r <= |a.receives|
  {
    if StillWaits(l, a) then None
    else if NeverConnects(l, a) || SendFails(l, a, s) then Some(SocketError)
    else if r == 16 || r == |a.receives| then None
    else
      match a.receives[r]
      case EndOfStream => Some(PeerClosed)
      case RecvFailed => Some(SocketError)
      case Received(_) => Some(TooMuchReceived)
      case _ => None
  }

  /** How many answers of `recv` have delivered: the one that is too much counts, though the link fails. */
  function Heard(l: Link, a: Answers, s: nat, r: nat): (n: nat)
    requires s <= |a.sends| && r <= |a.receives|
    ensures n <= |a.receives|
  {
    if SendFails(l, a, s) then 0 else if Reason(l, a, s, r) == Some(TooMuchReceived) then r + 1 else r
  }

  // ---------------------------------------------------------------- the loops get there

  /** An answer that does not end the loop is used, and the loop goes on behind it. */
  lemma FlushGoesOn(l: Link, queued: nat, sends: seq<SendResult>, i: nat)
    requires i < |sends| && !EndsSending(queued, sends, i) && |l.tx| == queued - Taken(queued, sends, i)
    ensures var n := Taken(queued, sends, i + 1) - Taken(queued, sends, i);
            && 0 <= n <= |l.tx|
            && Flush(l, sends[i..]) == Prepend(l.tx[..n], Flush(l.(tx := l.tx[n..]), sends[i + 1..]))
  {
    assert sends[i..][1..] == sends[i + 1..];
    if sends[i].Sent? {
      var n := Min(Min(|l.tx|, 4096), sends[i].count);
      assert Taken(queued, sends, i + 1) == Taken(queued, sends, i) + n;
      assert TakenBy(l, sends[i].count) == n > 0;
    } else {
      assert Taken(queued, sends, i + 1) == Taken(queued, sends, i);
      assert l.tx[0..] == l.tx;
      Prepended([], Flush(l, sends[i + 1..]));
    }
  }

  /** Two stretches of a queue one behind the other. */
  lemma TakenFurther(tx: seq<u8>, b: nat, t: nat)
    requires b <= t <= |tx|
    ensures tx[b..][t - b..] == tx[t..] && tx[..b] + tx[b..][..t - b] == tx[..t]
  {
  }

  lemma FlushJoins(l: Link, sends: seq<SendResult>, i: nat, b: nat, t: nat, rest: (Link, seq<u8>))
    requires b <= t <= |l.tx| && i <= |sends|
    requires Flush(l, sends) == Prepend(l.tx[..b], Prepend(l.tx[b..][..t - b], rest))
    ensures Flush(l, sends) == Prepend(l.tx[..t], rest)
  {
    hide Flush;
    TakenFurther(l.tx, b, t);
    PrependTwice(l.tx[..b], l.tx[b..][..t - b], rest);
  }

  lemma {:induction false} FlushGetsTo(l: Link, sends: seq<SendResult>, i: nat)
    requires i <= |sends| && forall j: nat :: j < i ==> !EndsSending(|l.tx|, sends, j)
    ensures var t := Taken(|l.tx|, sends, i);
            Flush(l, sends) == Prepend(l.tx[..t], Flush(l.(tx := l.tx[t..]), sends[i..]))
  {
    hide Flush, Prepend, EndsSending;
    if i == 0 {
      assert sends[0..] == sends && l.tx[0..] == l.tx;
      Prepended([], Flush(l, sends));
    } else {
      hide Taken;
      var k := i - 1;
      FlushGetsTo(l, sends, k);
      var b, t := Taken(|l.tx|, sends, k), Taken(|l.tx|, sends, i);
      var m := l.(tx := l.tx[b..]);
      FlushGoesOn(m, |l.tx|, sends, k);
      TakenFurther(l.tx, b, t);
      var rest := Flush(l.(tx := l.tx[t..]), sends[i..]);
      assert Flush(m, sends[k..]) == Prepend(m.tx[..t - b], rest);
      FlushJoins(l, sends, k, b, t, rest);
    }
  }

  /** The sending loop takes what the answers before the last one take, and fails only with it. */
  lemma FlushIsTaken(l: Link, a: Answers, s: nat)
    requires l.state == CONNECTED && SendsUntil(|l.tx|, a.sends, s)
    ensures var t := Taken(|l.tx|, a.sends, s);
            Flush(l, a.sends) == (if SendFails(l, a, s) then Down(SocketError) else l.(tx := l.tx[t..]), l.tx[..t])
  {
    var t := Taken(|l.tx|, a.sends, s);
    FlushGetsTo(l, a.sends, s);
    var last := Flush(l.(tx := l.tx[t..]), a.sends[s..]);
    Prepended(l.tx[..t], last);
  }

  /** An answer that does not end the loop is used, and the loop goes on behind it. */
  lemma ReceiveGoesOn(l: Link, held: nat, receives: seq<RecvResult>, i: nat)
    requires i < |receives| && i < 16 && !EndsReceiving(held, receives, i) && |l.rx| == held + |Delivered(receives, i)|
    ensures var more := if receives[i].Received? then receives[i].bytes else [];
            && Delivered(receives, i + 1) == Delivered(receives, i) + more
            && Receive(l, receives[i..], 16 - i)
               == Prepend(more, Receive(l.(rx := l.rx + more), receives[i + 1..], 16 - (i + 1)))
  {
    assert receives[i..][1..] == receives[i + 1..];
    assert l.rx + [] == l.rx;
    Prepended([], Receive(l, receives[i + 1..], 16 - (i + 1)));
  }

  lemma Appended(rx: seq<u8>, first: seq<u8>, second: seq<u8>)
    ensures rx + first + second == rx + (first + second)
  {
  }

  lemma {:induction false} ReceiveGetsTo(l: Link, receives: seq<RecvResult>, n: nat, i: nat)
    requires l.state == CONNECTED && ReceivesUntil(|l.rx|, receives, n) && i <= n
    ensures var d := Delivered(receives, i);
            Receive(l, receives, 16) == Prepend(d, Receive(l.(rx := l.rx + d), receives[i..], 16 - i))
  {
    hide Receive, Prepend;
    if i == 0 {
      assert receives[0..] == receives && l.rx + [] == l.rx;
      Prepended([], Receive(l, receives, 16));
    } else {
      hide EndsReceiving;
      ReceiveGetsTo(l, receives, n, i - 1);
      var d := Delivered(receives, i - 1);
      var more := if receives[i - 1].Received? then receives[i - 1].bytes else [];
      ReceiveGoesOn(l.(rx := l.rx + d), |l.rx|, receives, i - 1);
      Appended(l.rx, d, more);
      PrependTwice(d, more, Receive(l.(rx := l.rx + d + more), receives[i..], 16 - i));
    }
  }

  /** The receiving loop keeps what the answers before the last one deliver, and fails only with it. */
  lemma ReceiveIsDelivered(l: Link, a: Answers, s: nat, r: nat)
    requires l.state == CONNECTED && l.peer && |l.rx| <= 65536 && ReceivesUntil(|l.rx|, a.receives, r)
    requires s <= |a.sends| && !SendFails(l, a, s)
    ensures var got := Delivered(a.receives, Heard(l, a, s, r));
            var kept, why := l.(rx := l.rx + got), Reason(l, a, s, r);
            Receive(l, a.receives, 16) == (if why.Some? then Down(why.value) else kept, got)
  {
    ReceiveGetsTo(l, a.receives, r, r);
    var d := Delivered(a.receives, r);
    Prepended(d, Receive(l.(rx := l.rx + d), a.receives[r..], 16 - r));
  }

  /** Where a connection is there, or is made by this poll. */
  lemma ConnectedPoll(l: Link, a: Answers)
    requires Sound(l) && !StillWaits(l, a) && !NeverConnects(l, a)
    ensures Progress(l, a) == l.(peer := true, state := CONNECTED)
  {
  }

  /** Neither loop looks at how the connection came about. */
  lemma ReasonOfConnected(l: Link, a: Answers, s: nat, r: nat, rest: seq<u8>)
    requires s <= |a.sends| && r <= |a.receives| && !StillWaits(l, a) && !NeverConnects(l, a) && !SendFails(l, a, s)
    requires |rest| <= |l.tx| && (s < |a.sends| && a.sends[s].SendFailed? ==> rest == [])
    ensures var m := l.(peer := true, state := CONNECTED, tx := rest);
            && !SendFails(m, a, s)
            && Reason(m, a, s, r) == Reason(l, a, s, r) && Heard(m, a, s, r) == Heard(l, a, s, r)
  {
  }

  /**
   A poll from the answers alone. It fails the link if and only if there is
   a reason: accept or connect failed, a `send` was asked for and failed, or the first answer of `recv` that ends its
   loop is an error, the end of the stream, or a delivery that takes the total past 65536. Otherwise the link is as it
   was if there is still no connection; and if there is one it stays up, with what the answers took off the front of
   one queue and with all deliveries in front of that answer, of at most 16, behind the other.
   */
  lemma PollIsExact(l: Link, a: Answers, s: nat, r: nat)
    requires Sound(l)
    requires SendsUntil(|l.tx|, a.sends, s) && ReceivesUntil(|l.rx|, a.receives, r)
    ensures var taken, got := Taken(|l.tx|, a.sends, s), Delivered(a.receives, Heard(l, a, s, r));
            var p, why := Poll(l, a), Reason(l, a, s, r);
            && (why.Some? ==> p.link == Down(why.value))
            && (why.None? && StillWaits(l, a) ==> p.link == l)
            && (why.None? && !StillWaits(l, a) ==>
                  p.link == Link(l.server, true, 2, l.port, l.tx[taken..], l.rx + got, l.fault))
            && (StillWaits(l, a) || NeverConnects(l, a) ==> p.sent == p.received == [])
            && (!StillWaits(l, a) && !NeverConnects(l, a) ==> p.sent == l.tx[..taken] && p.received == got)
  {
    hide Flush, Receive, Taken, Delivered, SendsUntil, ReceivesUntil, SendFails;
    if !StillWaits(l, a) && !NeverConnects(l, a) {
      ConnectedPoll(l, a);
      ConnectedPollIsExact(l, a, s, r);
    }
  }

  lemma ConnectedPollIsExact(l: Link, a: Answers, s: nat, r: nat)
    requires Sound(l) && !StillWaits(l, a) && !NeverConnects(l, a)
    requires SendsUntil(|l.tx|, a.sends, s) && ReceivesUntil(|l.rx|, a.receives, r)
    requires Progress(l, a) == l.(peer := true, state := CONNECTED)
    ensures var taken, got := Taken(|l.tx|, a.sends, s), Delivered(a.receives, Heard(l, a, s, r));
            var up := Link(l.server, true, 2, l.port, l.tx[taken..], l.rx + got, l.fault);
            var why := Reason(l, a, s, r);
            Poll(l, a) == Polled(if why.Some? then Down(why.value) else up, l.tx[..taken], got)
  {
    hide Flush, Receive, Taken, Delivered, Reason, Heard;
    var ready := l.(peer := true, state := CONNECTED);
    var rest := l.tx[Taken(|l.tx|, a.sends, s)..];
    FlushIsTaken(ready, a, s);
    if SendFails(l, a, s) {
      SendFailureIsReason(l, a, s, r);
    } else {
      ReasonOfConnected(l, a, s, r, rest);
      ReceiveIsDelivered(ready.(tx := rest), a, s, r);
    }
  }

  lemma SendFailureIsReason(l: Link, a: Answers, s: nat, r: nat)
    requires s <= |a.sends| && r <= |a.receives| && !StillWaits(l, a) && SendFails(l, a, s)
    ensures Reason(l, a, s, r) == Some(SocketError)
    ensures Delivered(a.receives, Heard(l, a, s, r)) == []
  {
  }
}
