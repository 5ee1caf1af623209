/** SendMsg and RecvMsg over a byte stream, with any pattern of short sends and short reads. */
module Stream {
  import opened Base
  import opened Codec

  // ---------- Sending ----------

  datatype WriteOutcome = WriteInterrupted | WriteFailed | Takes(k: nat)
  datatype SendResult = Sent | SendError | SendPending  // pending: the call has not returned yet

  function Min(a: int, b: int): int { if a < b then a else b }

  /** The loop of SendMsg on the encoded packet from position sent on; the second result is what goes on the wire. */
  function SendFrom(pkt: seq<Byte>, sent: nat, outs: seq<WriteOutcome>): (SendResult, seq<Byte>)
    requires sent <= |pkt|
    decreases |outs|
  {
    if sent == |pkt| then (Sent, [])
    else if outs == [] then (SendPending, [])
    else match outs[0]
      case WriteInterrupted => SendFrom(pkt, sent, outs[1..])
      case WriteFailed => (SendError, [])
      case Takes(k) =>
        var n := Min(k, |pkt| - sent);
        var (r, more) := SendFrom(pkt, sent + n, outs[1..]);
        (r, pkt[sent..sent + n] + more)
  }

  function Send(msg: seq<Byte>, outs: seq<WriteOutcome>): (SendResult, seq<Byte>) { SendFrom(Encode(msg), 0, outs) }

  lemma {:induction false} SendFromPrefix(pkt: seq<Byte>, sent: nat, outs: seq<WriteOutcome>)
    requires sent <= |pkt|
    ensures SendFrom(pkt, sent, outs).1 <= pkt[sent..]
    ensures SendFrom(pkt, sent, outs).0 == Sent ==> SendFrom(pkt, sent, outs).1 == pkt[sent..]
    decreases |outs|
  {
    if sent == |pkt| || outs == [] || outs[0].WriteFailed? {
      assert sent == |pkt| ==> pkt[sent..] == [];
    } else if outs[0].WriteInterrupted? {
      SendFromPrefix(pkt, sent, outs[1..]);
    } else {
      var n := Min(outs[0].k, |pkt| - sent);
      SendFromPrefix(pkt, sent + n, outs[1..]);
      assert pkt[sent..] == pkt[sent..sent + n] + pkt[sent + n..];
    }
  }

  /** The bytes the writes would take, up to the first that fails; an interrupted write takes none. */
  function Offered(outs: seq<WriteOutcome>): nat {
    if outs == [] || outs[0].WriteFailed? then 0
    else (if outs[0].Takes? then outs[0].k else 0) + Offered(outs[1..])
  }

  ghost predicate SomeFailed(outs: seq<WriteOutcome>) { exists i :: 0 <= i < |outs| && outs[i].WriteFailed? }

  lemma FailedLater(outs: seq<WriteOutcome>)
    requires outs != []
    ensures SomeFailed(outs) <==> outs[0].WriteFailed? || SomeFailed(outs[1..])
  {
    if SomeFailed(outs) && !outs[0].WriteFailed? {
      var i :| 0 <= i < |outs| && outs[i].WriteFailed?;
      assert outs[1..][i - 1].WriteFailed?;
    }
    if SomeFailed(outs[1..]) {
      var i :| 0 <= i < |outs[1..]| && outs[1..][i].WriteFailed?;
      assert outs[i + 1].WriteFailed?;
    }
  }

  /** SendMsg succeeds exactly if enough is taken before a write fails, and fails exactly if a write fails before that. */
  lemma {:induction false} SendFromIff(pkt: seq<Byte>, sent: nat, outs: seq<WriteOutcome>)
    requires sent <= |pkt|
    ensures var r := SendFrom(pkt, sent, outs).0;
            && (r == Sent <==> sent + Offered(outs) >= |pkt|)
            && (r == SendError <==> sent + Offered(outs) < |pkt| && SomeFailed(outs))
    decreases |outs|
  {
    if sent == |pkt| || outs == [] {
    } else {
      FailedLater(outs);
      match outs[0]
      case WriteInterrupted => SendFromIff(pkt, sent, outs[1..]);
      case WriteFailed =>
      case Takes(k) => SendFromIff(pkt, sent + Min(k, |pkt| - sent), outs[1..]);
    }
  }

  /** However the packet is cut up and interrupted: it goes out whole if no write fails and the writes take enough. */
  lemma SendLive(msg: seq<Byte>, outs: seq<WriteOutcome>)
    requires Offered(outs) >= |Encode(msg)|
    ensures Send(msg, outs) == (Sent, Encode(msg))
  {
    SendFromIff(Encode(msg), 0, outs);
    SendFromPrefix(Encode(msg), 0, outs);
    assert Encode(msg)[0..] == Encode(msg);
  }

  // ---------- Receiving ----------

  /** Gives(k): the kernel hands over at least one byte and at most k, the room asked for, and what has arrived. */
  datatype ReadOutcome = ReadInterrupted | ReadFailed | Closed | Gives(k: nat)
  datatype RecvResult = Got(msg: seq<Byte>) | RecvError | RecvPending

  /** The announced size does not fit 32 bits, so the buffer never grows and has no room left. */
  predicate Wedged(d: Decoder) {
    d.status == Body && d.msg == None && d.parsed == HEAD_LEN == |d.data| == d.cap
    && d.bodyLen == Announced(d.data) && HEAD_LEN + d.bodyLen >= U32
  }

  /** The states a decoder passes through inside one RecvMsg. */
  predicate Receiving(d: Decoder) { (InStep(d) && Snug(d)) || Wedged(d) }

  function Taken(d: Decoder, incoming: seq<Byte>, k: nat): nat
    requires Receiving(d)
  {
    Min(Min(if k == 0 then 1 else k, Room(d)), |incoming|)
  }

  lemma WedgeStep(d: Decoder, chunk: seq<Byte>)
    requires InStep(d) && Snug(d) && |d.data| + |chunk| == HEAD_LEN && |chunk| > 0
    requires HEAD_LEN + Announced(d.data + chunk) >= U32
    ensures Wedged(DeCode(Extend(d, chunk)))
  {}

  lemma ReadStep(d: Decoder, chunk: seq<Byte>)
    requires Receiving(d) && d.status != Finish && 0 < |chunk| <= Room(d)
    ensures Extend(d, chunk).parsed <= |Extend(d, chunk).data| < U32
    ensures Receiving(DeCode(Extend(d, chunk))) && DeCode(Extend(d, chunk)).data == d.data + chunk
  {
    var bytes := d.data + chunk;
    if |d.data| >= HEAD_LEN { AnnouncedPrefix(d.data, bytes); }
    if WithinMessage(bytes) {
      FeedInStep(d, chunk);
    } else {
      WedgeStep(d, chunk);
    }
  }

  /** The loop of RecvMsg; the second result is what is left in the stream. */
  function RecvFrom(d: Decoder, incoming: seq<Byte>, outs: seq<ReadOutcome>): (RecvResult, seq<Byte>)
    requires Receiving(d)
    decreases |outs|
  {
    if GetMessage(d).Some? then (Got(GetMessage(d).value), incoming)
    else if outs == [] then (RecvPending, incoming)
    else match outs[0]
      case ReadInterrupted => RecvFrom(d, incoming, outs[1..])
      case ReadFailed => (RecvError, incoming)
      case Closed => (RecvError, incoming)
      case Gives(k) =>
        if Room(d) == 0 then (RecvError, incoming)  // read of no bytes returns 0, which RecvMsg takes for a close
        else if incoming == [] then (RecvPending, incoming)
        else
          var n := Taken(d, incoming, k);
          ReadStep(d, incoming[..n]);
          RecvFrom(DeCode(Extend(d, incoming[..n])), incoming[n..], outs[1..])
  }

  lemma RecvMore(d: Decoder, incoming: seq<Byte>, outs: seq<ReadOutcome>)
    requires Receiving(d) && GetMessage(d) == None && outs != [] && outs[0].Gives? && Room(d) > 0 && incoming != []
    ensures var n := Taken(d, incoming, outs[0].k); var e := DeCode(Extend(d, incoming[..n]));
            0 < n <= Room(d) && Receiving(e) && RecvFrom(d, incoming, outs) == RecvFrom(e, incoming[n..], outs[1..])
  {
    ReadStep(d, incoming[..Taken(d, incoming, outs[0].k)]);
  }

  function Recv(incoming: seq<Byte>, outs: seq<ReadOutcome>): (RecvResult, seq<Byte>) { RecvFrom(FRESH, incoming, outs) }

  /** The size in the stream of the message that starts it, as far as its announced length says. */
  predicate Whole(stream: seq<Byte>) {
    |stream| >= HEAD_LEN && HEAD_LEN + Announced(stream) < U32 && |stream| >= HEAD_LEN + Announced(stream)
  }

  /** A message comes out exactly as the bytes after the head, and RecvMsg leaves the rest of the stream untouched. */
  lemma {:induction false} RecvFromSpec(d: Decoder, incoming: seq<Byte>, outs: seq<ReadOutcome>)
    requires Receiving(d)
    ensures var (r, rest) := RecvFrom(d, incoming, outs); var stream := d.data + incoming;
            r.Got? ==>
              && Whole(stream)
              && r.msg == stream[HEAD_LEN..HEAD_LEN + Announced(stream)] && rest == stream[HEAD_LEN + Announced(stream)..]
    decreases |outs|
  {
    var stream := d.data + incoming;
    if GetMessage(d).Some? {
      AnnouncedPrefix(d.data, stream);
      assert stream[..|d.data|] == d.data;
    } else if outs != [] && outs[0].ReadInterrupted? {
      RecvFromSpec(d, incoming, outs[1..]);
    } else if outs != [] && outs[0].Gives? && Room(d) != 0 && incoming != [] {
      var n := Taken(d, incoming, outs[0].k);
      ReadStep(d, incoming[..n]);
      RecvFromSpec(DeCode(Extend(d, incoming[..n])), incoming[n..], outs[1..]);
      assert (d.data + incoming[..n]) + incoming[n..] == stream;
    }
  }

  /** How many reads give something, up to the first that fails or closes. */
  function Giving(outs: seq<ReadOutcome>): nat {
    if outs == [] || outs[0].ReadFailed? || outs[0].Closed? then 0
    else (if outs[0].Gives? then 1 else 0) + Giving(outs[1..])
  }

  ghost predicate SomeEnded(outs: seq<ReadOutcome>) { exists i :: 0 <= i < |outs| && (outs[i].ReadFailed? || outs[i].Closed?) }

  lemma EndedLater(outs: seq<ReadOutcome>)
    requires outs != []
    ensures SomeEnded(outs) <==> outs[0].ReadFailed? || outs[0].Closed? || SomeEnded(outs[1..])
  {
    if SomeEnded(outs) && !(outs[0].ReadFailed? || outs[0].Closed?) {
      var i :| 0 <= i < |outs| && (outs[i].ReadFailed? || outs[i].Closed?);
      assert outs[1..][i - 1] == outs[i];
    }
    if SomeEnded(outs[1..]) {
      var i :| 0 <= i < |outs[1..]| && (outs[1..][i].ReadFailed? || outs[1..][i].Closed?);
      assert outs[i + 1] == outs[1..][i];
    }
  }

  /** A decoder that waits for the rest of a whole message takes the next bytes of it and is ready for more. */
  lemma ReadOn(d: Decoder, incoming: seq<Byte>, n: nat)
    requires InStep(d) && Snug(d) && Whole(d.data + incoming) && d.status != Finish && 0 < n <= Room(d) && n <= |incoming|
    ensures var e := DeCode(Extend(d, incoming[..n]));
            InStep(e) && Snug(e) && |e.data| == |d.data| + n && e.data + incoming[n..] == d.data + incoming
  {
    var stream, chunk := d.data + incoming, incoming[..n];
    assert (d.data + chunk) + incoming[n..] == stream;
    if |d.data| >= HEAD_LEN { AnnouncedPrefix(d.data, stream); }
    if |d.data + chunk| >= HEAD_LEN { AnnouncedPrefix(d.data + chunk, stream); }
    assert WithinMessage(d.data + chunk);
    FeedInStep(d, chunk);
    ReadStep(d, chunk);
  }

  lemma WaitsForRest(d: Decoder, incoming: seq<Byte>)
    requires InStep(d) && Snug(d) && Whole(d.data + incoming) && d.status != Finish
    ensures GetMessage(d) == None && Room(d) > 0 && incoming != []
  {
    if |d.data| >= HEAD_LEN { AnnouncedPrefix(d.data, d.data + incoming); }
    RoomUntilDone(d);
  }

  /**
   On a stream that holds a whole message, RecvMsg receives one if enough reads give something before one fails or
   closes, with any number of interrupted reads between them; when it does not, it fails exactly if a read did.
   */
  lemma {:induction false} RecvFromLive(d: Decoder, incoming: seq<Byte>, outs: seq<ReadOutcome>)
    requires InStep(d) && Snug(d) && Whole(d.data + incoming)
    ensures Giving(outs) + |d.data| >= HEAD_LEN + Announced(d.data + incoming) ==> RecvFrom(d, incoming, outs).0.Got?
    ensures !RecvFrom(d, incoming, outs).0.Got? ==> (RecvFrom(d, incoming, outs).0.RecvError? <==> SomeEnded(outs))
    decreases |outs|
  {
    if d.status == Finish {
      RoomUntilDone(d);
    } else if outs != [] {
      if outs[0].ReadInterrupted? {
        RecvFromLive(d, incoming, outs[1..]);
      } else if outs[0].Gives? {
        WaitsForRest(d, incoming);
        var n := Taken(d, incoming, outs[0].k);
        RecvMore(d, incoming, outs);
        ReadOn(d, incoming, n);
        RecvFromLive(DeCode(Extend(d, incoming[..n])), incoming[n..], outs[1..]);
      }
      EndedLater(outs);
    }
  }

  lemma EncodeHead(msg: seq<Byte>, rest: seq<Byte>)
    ensures |Encode(msg) + rest| >= HEAD_LEN && Announced(Encode(msg) + rest) == |msg| % U32
    ensures (Encode(msg) + rest)[HEAD_LEN..] == msg + rest
  {
    assert (Encode(msg) + rest)[..HEAD_LEN] == BigEndian(|msg| % U32);
    BigEndianRoundTrip(|msg| % U32);
  }

  lemma HeadOfPrefix(msg: seq<Byte>, rest: seq<Byte>, wire: seq<Byte>)
    requires |msg| + HEAD_LEN < U32 && wire <= Encode(msg) + rest && Whole(wire)
    ensures Encode(msg) <= wire && wire[|Encode(msg)|..] <= rest
    ensures wire[HEAD_LEN..HEAD_LEN + Announced(wire)] == msg && HEAD_LEN + Announced(wire) == |Encode(msg)|
  {
    var stream := Encode(msg) + rest;
    EncodeHead(msg, rest);
    AnnouncedPrefix(wire, stream);
    assert wire[..|Encode(msg)|] == stream[..|Encode(msg)|] == Encode(msg);
    assert wire[HEAD_LEN..|Encode(msg)|] == stream[HEAD_LEN..][..|msg|] == msg;
  }

  lemma RecvOfPrefix(msg: seq<Byte>, rest: seq<Byte>, wire: seq<Byte>, outs: seq<ReadOutcome>)
    requires |msg| + HEAD_LEN < U32 && wire <= Encode(msg) + rest
    ensures var (r, left) := Recv(wire, outs); r.Got? ==> r.msg == msg && left <= rest
  {
    RecvFromSpec(FRESH, wire, outs);
    assert FRESH.data + wire == wire;
    if Recv(wire, outs).0.Got? { HeadOfPrefix(msg, rest, wire); }
  }

  /** Whatever the reads do, a message received from a stream that starts with an encoded one is that one, and no byte more is taken. */
  lemma RecvEncoded(msg: seq<Byte>, rest: seq<Byte>, outs: seq<ReadOutcome>)
    requires |msg| + HEAD_LEN < U32
    ensures var (r, left) := Recv(Encode(msg) + rest, outs); r.Got? ==> r.msg == msg && left == rest
  {
    var stream := Encode(msg) + rest;
    RecvFromSpec(FRESH, stream, outs);
    assert FRESH.data + stream == stream;
    if Recv(stream, outs).0.Got? {
      HeadOfPrefix(msg, rest, stream);
      assert stream[|Encode(msg)|..] == rest;
    }
  }

  lemma {:induction false} GivingAll(outs: seq<ReadOutcome>)
    requires forall i :: 0 <= i < |outs| ==> outs[i].Gives?
    ensures Giving(outs) == |outs|
  {
    if outs != [] { GivingAll(outs[1..]); }
  }

  /** An encoded message can be received back exactly when header and body together fit 32 bits. */
  lemma RoundTripIff(msg: seq<Byte>, rest: seq<Byte>)
    ensures (exists outs :: Recv(Encode(msg) + rest, outs).0 == Got(msg)) <==> |msg| + HEAD_LEN < U32
  {
    var stream := Encode(msg) + rest;
    EncodeHead(msg, rest);
    assert FRESH.data + stream == stream;
    if |msg| + HEAD_LEN < U32 {
      var outs: seq<ReadOutcome> := seq(HEAD_LEN + |msg|, _ => Gives(1));
      GivingAll(outs);
      RecvFromLive(FRESH, stream, outs);
      RecvEncoded(msg, rest, outs);
      assert Recv(stream, outs).0 == Got(msg);
    } else {
      forall outs ensures Recv(stream, outs).0 != Got(msg) {
        RecvFromSpec(FRESH, stream, outs);
      }
    }
  }

  // ---------- Many messages ----------

  function StreamOf(msgs: seq<seq<Byte>>): seq<Byte> {
    if msgs == [] then [] else Encode(msgs[0]) + StreamOf(msgs[1..])
  }

  /** Successive SendMsg calls, up to the first that does not succeed. */
  function SendAll(msgs: seq<seq<Byte>>, outs: seq<seq<WriteOutcome>>): (nat, seq<Byte>)
    requires |outs| == |msgs|
  {
    if msgs == [] then (0, [])
    else
      var (r, bytes) := Send(msgs[0], outs[0]);
      if r != Sent then (0, bytes)
      else
        var (n, more) := SendAll(msgs[1..], outs[1..]);
        (n + 1, bytes + more)
  }

  /** Successive RecvMsg calls, up to the first that does not succeed. */
  function RecvAll(incoming: seq<Byte>, outs: seq<seq<ReadOutcome>>): (seq<seq<Byte>>, seq<Byte>)
    decreases |outs|
  {
    if outs == [] then ([], incoming)
    else
      var (r, rest) := Recv(incoming, outs[0]);
      if !r.Got? then ([], rest)
      else
        var (msgs, left) := RecvAll(rest, outs[1..]);
        ([r.msg] + msgs, left)
  }

  predicate AllFit(msgs: seq<seq<Byte>>) {
    forall i :: 0 <= i < |msgs| ==> |msgs[i]| + HEAD_LEN < U32
  }

  lemma {:induction false} SendAllBytes(msgs: seq<seq<Byte>>, outs: seq<seq<WriteOutcome>>)
    requires |outs| == |msgs|
    ensures var (n, bytes) := SendAll(msgs, outs);
            n <= |msgs| && StreamOf(msgs[..n]) <= bytes <= StreamOf(msgs) && (n == |msgs| ==> bytes == StreamOf(msgs))
  {
    if msgs == [] {
    } else {
      SendFromPrefix(Encode(msgs[0]), 0, outs[0]);
      assert Encode(msgs[0])[0..] == Encode(msgs[0]);
      var (r, bytes) := Send(msgs[0], outs[0]);
      if r == Sent {
        SendAllBytes(msgs[1..], outs[1..]);
        var n := SendAll(msgs[1..], outs[1..]).0;
        assert msgs[..n + 1][1..] == msgs[1..][..n];
      }
    }
  }

  /** The receiver's view: what it got so far are the first messages, and the stream still holds exactly the others. */
  lemma {:induction false} RecvAllStream(msgs: seq<seq<Byte>>, tail: seq<Byte>, outs: seq<seq<ReadOutcome>>)
    requires AllFit(msgs) && |outs| <= |msgs|
    ensures var (got, left) := RecvAll(StreamOf(msgs) + tail, outs);
            |got| <= |outs| && got == msgs[..|got|]
            && (|got| == |outs| ==> left == StreamOf(msgs[|got|..]) + tail)
    decreases |outs|
  {
    if outs != [] {
      var rest := StreamOf(msgs[1..]) + tail;
      assert StreamOf(msgs) + tail == Encode(msgs[0]) + rest;
      RecvEncoded(msgs[0], rest, outs[0]);
      if Recv(StreamOf(msgs) + tail, outs[0]).0.Got? {
        RecvAllStream(msgs[1..], tail, outs[1..]);
        var got := RecvAll(rest, outs[1..]).0;
        assert msgs[..|got| + 1] == [msgs[0]] + msgs[1..][..|got|];
        assert msgs[|got| + 1..] == msgs[1..][|got|..];
      }
    } else {
      assert msgs[..0] == [] && msgs[0..] == msgs;
    }
  }

  /** Enough reads for a message: one that gives something for every byte, before any fails. */
  predicate Enough(outs: seq<ReadOutcome>, msg: seq<Byte>) {
    Giving(outs) >= HEAD_LEN + |msg|
  }

  lemma RecvEncodedLive(msg: seq<Byte>, rest: seq<Byte>, outs: seq<ReadOutcome>)
    requires |msg| + HEAD_LEN < U32 && Enough(outs, msg)
    ensures Recv(Encode(msg) + rest, outs) == (Got(msg), rest)
  {
    var stream := Encode(msg) + rest;
    EncodeHead(msg, rest);
    assert FRESH.data + stream == stream;
    RecvFromLive(FRESH, stream, outs);
    RecvEncoded(msg, rest, outs);
  }

  lemma {:induction false} RecvAllLive(msgs: seq<seq<Byte>>, tail: seq<Byte>, outs: seq<seq<ReadOutcome>>)
    requires AllFit(msgs) && |outs| == |msgs|
    requires forall i :: 0 <= i < |msgs| ==> Enough(outs[i], msgs[i])
    ensures RecvAll(StreamOf(msgs) + tail, outs) == (msgs, tail)
    decreases |outs|
  {
    if outs != [] {
      var rest := StreamOf(msgs[1..]) + tail;
      assert StreamOf(msgs) + tail == Encode(msgs[0]) + rest;
      RecvEncodedLive(msgs[0], rest, outs[0]);
      RecvAllLive(msgs[1..], tail, outs[1..]);
      assert msgs == [msgs[0]] + msgs[1..];
    } else {
      assert msgs == [] && StreamOf(msgs) + tail == tail;
    }
  }

  /** Whatever part of the stream has arrived, the messages received from it are the first ones sent, in order. */
  lemma {:induction false} RecvAllPrefix(msgs: seq<seq<Byte>>, wire: seq<Byte>, outs: seq<seq<ReadOutcome>>)
    requires AllFit(msgs) && wire <= StreamOf(msgs)
    ensures RecvAll(wire, outs).0 <= msgs
    decreases |outs|
  {
    if outs != [] && msgs != [] {
      RecvOfPrefix(msgs[0], StreamOf(msgs[1..]), wire, outs[0]);
      var (r, left) := Recv(wire, outs[0]);
      if r.Got? {
        RecvAllPrefix(msgs[1..], left, outs[1..]);
        assert msgs == [msgs[0]] + msgs[1..];
      }
    } else if outs != [] {
      RecvFromSpec(FRESH, wire, outs[0]);
      assert FRESH.data + wire == wire;
    }
  }

  /** Every message is sent exactly if the writes of each call take enough for it before one fails. */
  lemma {:induction false} SendAllIff(msgs: seq<seq<Byte>>, outs: seq<seq<WriteOutcome>>)
    requires |outs| == |msgs|
    ensures SendAll(msgs, outs).0 == |msgs| <==> forall i :: 0 <= i < |msgs| ==> Offered(outs[i]) >= |Encode(msgs[i])|
  {
    if msgs == [] {
    } else {
      SendFromIff(Encode(msgs[0]), 0, outs[0]);
      SendAllIff(msgs[1..], outs[1..]);
      assert forall i :: 0 < i < |msgs| ==> msgs[1..][i - 1] == msgs[i] && outs[1..][i - 1] == outs[i];
      SendAllBytes(msgs[1..], outs[1..]);
      if forall i :: 0 <= i < |msgs| ==> Offered(outs[i]) >= |Encode(msgs[i])| {
        assert Offered(outs[0]) >= |Encode(msgs[0])|;
      }
    }
  }

  /** The writes and reads of every message suffice for it. */
  ghost predicate AllEnough(msgs: seq<seq<Byte>>, sends: seq<seq<WriteOutcome>>, recvs: seq<seq<ReadOutcome>>)
    requires |sends| == |msgs| == |recvs|
  {
    forall i :: 0 <= i < |msgs| ==> Offered(sends[i]) >= |Encode(msgs[i])| && Enough(recvs[i], msgs[i])
  }

  lemma EndToEndAll(msgs: seq<seq<Byte>>, sends: seq<seq<WriteOutcome>>, recvs: seq<seq<ReadOutcome>>)
    requires AllFit(msgs) && |sends| == |msgs| == |recvs| && AllEnough(msgs, sends, recvs)
    ensures RecvAll(SendAll(msgs, sends).1, recvs) == (msgs, [])
  {
    SendAllIff(msgs, sends);
    SendAllBytes(msgs, sends);
    assert StreamOf(msgs) + [] == StreamOf(msgs);
    RecvAllLive(msgs, [], recvs);
  }

  /**
   End to end: whatever the writes do, failed sends included, and whatever the reads do, the messages that
   successive RecvMsg calls return are the first of those given to SendMsg, in order; and when the writes and
   the reads of every message suffice, short and interrupted as they may be, they are all of them, with nothing left.
   */
  lemma EndToEnd(msgs: seq<seq<Byte>>, sends: seq<seq<WriteOutcome>>, recvs: seq<seq<ReadOutcome>>)
    requires AllFit(msgs) && |sends| == |msgs|
    ensures RecvAll(SendAll(msgs, sends).1, recvs).0 <= msgs
    ensures |recvs| == |msgs| && AllEnough(msgs, sends, recvs) ==> RecvAll(SendAll(msgs, sends).1, recvs) == (msgs, [])
  {
    SendAllBytes(msgs, sends);
    RecvAllPrefix(msgs, SendAll(msgs, sends).1, recvs);
    if |recvs| == |msgs| && AllEnough(msgs, sends, recvs) { EndToEndAll(msgs, sends, recvs); }
  }
}
