/** The Packet and Codec classes over a real buffer, and the SendMsg and RecvMsg loops, proved against the values. */
module CodecObject {
  import opened Base
  import opened Codec
  import opened Stream

  class Packet {
    var data: array<Byte>
    var len: nat
    var useLen: nat
    var parseLen: nat

    ghost predicate Valid()
      reads this
    {
      len == data.Length && parseLen <= useLen <= len
    }

    /** The bytes in use. */
    function Used(): seq<Byte>
      requires useLen <= data.Length
      reads this, data
    {
      data[..useLen]
    }

    constructor ()
      ensures Valid() && len == 0 && fresh(data)
    {
      data := new Byte[0];
      len, useLen, parseLen := 0, 0, 0;
    }

    method Alloc(n: nat)
      modifies this
      ensures Valid() && len == n && useLen == 0 && parseLen == 0 && fresh(data)
    {
      data := new Byte[n];
      len, useLen, parseLen := n, 0, 0;
    }

    method Reset()
      modifies `useLen, `parseLen
      ensures useLen == 0 && parseLen == 0
    {
      useLen, parseLen := 0, 0;
    }

    /** Grows the buffer and keeps its content; never shrinks it. */
    method ReAlloc(n: nat)
      requires Valid()
      modifies this
      ensures Valid() && len == (if n < old(len) then old(len) else n) && useLen == old(useLen) && parseLen == old(parseLen)
      ensures Used() == old(Used()) && (data == old(data) || fresh(data))
    {
      if n < len { return; }
      var grown := new Byte[n];
      forall i | 0 <= i < len { grown[i] := data[i]; }
      data, len := grown, n;
    }
  }

  /** EnCode writes the packet of one message into pkt. */
  method EnCode(msg: seq<Byte>, pkt: Packet)
    modifies pkt
    ensures pkt.Valid() && pkt.Used() == Encode(msg) && fresh(pkt.data)
  {
    pkt.Alloc(|msg| + HEAD_LEN);
    var head := BigEndian(|msg| % U32);
    forall i | 0 <= i < HEAD_LEN { pkt.data[i] := head[i]; }
    forall i | 0 <= i < |msg| { pkt.data[HEAD_LEN + i] := msg[i]; }
    pkt.useLen := pkt.useLen + (HEAD_LEN + |msg|);
    assert pkt.data[..pkt.useLen] == head + msg;
  }

  class CodecObject {
    const pkt: Packet
    var decodeStatus: Status
    var bodyLen: nat
    var msg: Option<seq<Byte>>

    function D(): Decoder
      requires pkt.useLen <= pkt.data.Length
      reads this, pkt, pkt.data
    {
      Decoder(decodeStatus, bodyLen, msg, pkt.len, pkt.Used(), pkt.parseLen)
    }

    ghost predicate Valid()
      reads this, pkt, pkt.data
    {
      pkt.Valid()
    }

    constructor ()
      ensures Valid() && D() == FRESH && fresh(pkt) && fresh(pkt.data)
    {
      pkt := new Packet();
      decodeStatus, bodyLen, msg := Head, 0, None;
      new;
      pkt.Alloc(HEAD_LEN);
    }

    method ResetCodec()
      requires Valid()
      modifies this, pkt
      ensures Valid() && D() == Reset(old(D())) && pkt.data == old(pkt.data)
    {
      pkt.Reset();
      bodyLen, decodeStatus, msg := 0, Head, None;
    }

    /** GetMessage hands the message over and forgets it. */
    method TakeMessage() returns (r: Option<seq<Byte>>)
      requires Valid()
      modifies `msg
      ensures r == GetMessage(old(D())) && D() == Codec.TakeMessage(old(D())) && GetMessage(D()) == None
    {
      if msg == None { return None; }
      if decodeStatus != Finish { return None; }
      r := msg;
      msg := None;
    }

    /** read(2) puts a chunk where Data() points. */
    method Fill(chunk: seq<Byte>)
      requires Valid() && |chunk| <= Room(D())
      modifies pkt.data
      ensures Valid() && D() == old(D()) && pkt.data[pkt.useLen..pkt.useLen + |chunk|] == chunk
    {
      forall i | 0 <= i < |chunk| { pkt.data[pkt.useLen + i] := chunk[i]; }
    }

    method DecodeHeadStep()
      requires Valid() && pkt.parseLen + HEAD_LEN <= pkt.useLen
      modifies this, pkt
      ensures Valid() && D() == DecodeHead(old(D())) && (pkt.data == old(pkt.data) || fresh(pkt.data))
    {
      ghost var bytes := pkt.Used();
      bodyLen := FromBigEndian(pkt.data[pkt.parseLen..pkt.parseLen + HEAD_LEN]);
      assert bytes[pkt.parseLen..pkt.parseLen + HEAD_LEN] == pkt.data[pkt.parseLen..pkt.parseLen + HEAD_LEN];
      decodeStatus := Body;
      pkt.parseLen := pkt.parseLen + HEAD_LEN;
      pkt.ReAlloc((HEAD_LEN + bodyLen) % U32);
    }

    method DecodeBodyStep()
      requires Valid() && pkt.parseLen + bodyLen <= pkt.useLen
      modifies this, pkt
      ensures Valid() && D() == DecodeBody(old(D())) && pkt.data == old(pkt.data)
    {
      ghost var bytes := pkt.Used();
      if msg == None {
        var body := pkt.data[pkt.parseLen..pkt.parseLen + bodyLen];
        assert body == bytes[pkt.parseLen..pkt.parseLen + bodyLen];
        msg := Some(body);
      }
      decodeStatus := Finish;
      pkt.parseLen := pkt.parseLen + bodyLen;
    }

    /** The body of DeCode's loop. */
    method DecodeTurn(need: nat) returns (left: nat, decodeBreak: bool)
      requires Valid() && pkt.parseLen + need <= pkt.useLen
      modifies this, pkt
      ensures Valid() && Turn(D(), left, decodeBreak) == LoopBody(old(D()), need)
      ensures pkt.data == old(pkt.data) || fresh(pkt.data)
    {
      left := need;
      if decodeStatus == Head {
        if left < HEAD_LEN { return left, true; }
        left := left - HEAD_LEN;
        DecodeHeadStep();
      }
      if decodeStatus == Body {
        if left < bodyLen { return left, true; }
        left := left - bodyLen;
        DecodeBodyStep();
      }
      return left, false;
    }

    /** The loop of DeCode, given that it halts within n turns. */
    method DecodeLoop(start: nat, ghost n: nat)
      requires Valid() && pkt.parseLen + start <= pkt.useLen && Turns(D(), start, n).stop
      modifies this, pkt
      ensures Valid() && D() == Turns(old(D()), start, n).d
      ensures pkt.data == old(pkt.data) || fresh(pkt.data)
    {
      ghost var all := Turns(D(), start, n);
      ghost var left: nat := n;
      var need: nat := start;
      var decodeBreak := false;
      while need > 0
        invariant Valid() && pkt.parseLen + need <= pkt.useLen
        invariant Turns(D(), need, left) == all
        invariant pkt.data == old(pkt.data) || fresh(pkt.data)
        decreases left
      {
        need, decodeBreak := DecodeTurn(need);
        if decodeBreak { break; }
        left := left - 1;
      }
    }

    /** The chunk read(2) put behind the bytes in use counts as received. */
    method UpdateUseLen(len: nat)
      requires Valid() && pkt.useLen + len <= pkt.len
      modifies pkt`useLen
      ensures Valid() && pkt.useLen == old(pkt.useLen) + len
      ensures D() == Extend(old(D()), pkt.data[old(pkt.useLen)..pkt.useLen])
    {
      pkt.useLen := pkt.useLen + len;
    }

    /** DeCode(len) after read(2) delivered len bytes; it demands that its loop halts, which it does on every chunk within a message. */
    method DeCodeChunk(len: nat, ghost chunk: seq<Byte>)
      requires Valid() && pkt.useLen + len <= pkt.len < U32 && chunk == pkt.data[pkt.useLen..pkt.useLen + len]
      requires Turns(Extend(D(), chunk), pkt.useLen + len - pkt.parseLen, 2).stop
      modifies this, pkt
      ensures Valid() && D() == DeCode(Extend(old(D()), chunk))
      ensures pkt.data == old(pkt.data) || fresh(pkt.data)
    {
      ghost var e := Extend(D(), chunk);
      UpdateUseLen(len);
      assert D() == e;
      var need := (pkt.useLen - pkt.parseLen) % U32;
      assert need == pkt.useLen - pkt.parseLen;
      DecodeLoop(need, 2);
    }
  }

  /** The write loop of SendMsg. */
  method WriteAll(bytes: seq<Byte>, outs: seq<WriteOutcome>) returns (r: SendResult, written: seq<Byte>)
    ensures r == SendFrom(bytes, 0, outs).0 && written == SendFrom(bytes, 0, outs).1
  {
    ghost var goal := SendFrom(bytes, 0, outs);
    var sendLen, i := 0, 0;
    written := [];
    assert outs[0..] == outs;
    while sendLen != |bytes|
      invariant 0 <= sendLen <= |bytes| && 0 <= i <= |outs|
      invariant goal.0 == SendFrom(bytes, sendLen, outs[i..]).0
      invariant goal.1 == written + SendFrom(bytes, sendLen, outs[i..]).1
      decreases |outs| - i
    {
      assert written + [] == written;
      if i == |outs| { return SendPending, written; }
      var o := outs[i];
      assert outs[i..][0] == o && outs[i..][1..] == outs[i + 1..];
      i := i + 1;
      match o
      case WriteInterrupted => continue;
      case WriteFailed => return SendError, written;
      case Takes(k) =>
        var n := Min(k, |bytes| - sendLen);
        ghost var more := SendFrom(bytes, sendLen + n, outs[i..]).1;
        assert written + (bytes[sendLen..sendLen + n] + more) == (written + bytes[sendLen..sendLen + n]) + more;
        written := written + bytes[sendLen..sendLen + n];
        sendLen := sendLen + n;
    }
    assert written + [] == written;
    return Sent, written;
  }

  /**
   SendMsg: what went out is a prefix of the encoded message, and all of it when it succeeds, which it does
   exactly if the writes take that much before one of them fails.
   */
  method SendMsg(message: seq<Byte>, outs: seq<WriteOutcome>) returns (r: SendResult, written: seq<Byte>)
    ensures (r, written) == Send(message, outs)
    ensures written <= Encode(message) && (r == Sent ==> written == Encode(message))
    ensures r == Sent <==> Offered(outs) >= |Encode(message)|
    ensures r == SendError <==> Offered(outs) < |Encode(message)| && SomeFailed(outs)
  {
    var pkt := new Packet();
    EnCode(message, pkt);
    r, written := WriteAll(pkt.Used(), outs);
    SendFromPrefix(Encode(message), 0, outs);
    SendFromIff(Encode(message), 0, outs);
    assert Encode(message)[0..] == Encode(message);
  }

  lemma ReadHalts(d: Decoder, chunk: seq<Byte>)
    requires Receiving(d) && d.status != Finish && 0 < |chunk| <= Room(d)
    ensures var e := Extend(d, chunk); e.parsed <= |e.data| < U32 && Turns(e, |e.data| - e.parsed, 2).stop
  {}

  /** read(2) followed by DeCode. */
  method ReadChunk(codec: CodecObject, chunk: seq<Byte>)
    requires codec.Valid() && Receiving(codec.D()) && codec.decodeStatus != Finish && 0 < |chunk| <= Room(codec.D())
    modifies codec, codec.pkt, codec.pkt.data
    ensures codec.Valid() && codec.D() == DeCode(Extend(old(codec.D()), chunk)) && Receiving(codec.D())
    ensures codec.pkt.data == old(codec.pkt.data) || fresh(codec.pkt.data)
  {
    ReadStep(codec.D(), chunk);
    ReadHalts(codec.D(), chunk);
    codec.Fill(chunk);
    codec.DeCodeChunk(|chunk|, chunk);
  }

  /** One turn of the loop of RecvMsg whose read(2) gives bytes, and the GetMessage after it. */
  method ReadTurn(codec: CodecObject, incoming: seq<Byte>, k: nat, ghost outs: seq<ReadOutcome>)
    returns (temp: Option<seq<Byte>>, rest: seq<Byte>)
    requires codec.Valid() && Receiving(codec.D()) && GetMessage(codec.D()) == None && Room(codec.D()) > 0
    requires incoming != [] && outs != [] && outs[0] == Gives(k)
    modifies codec, codec.pkt, codec.pkt.data
    ensures codec.Valid() && (codec.pkt.data == old(codec.pkt.data) || fresh(codec.pkt.data))
    ensures if temp.Some? then RecvFrom(old(codec.D()), incoming, outs) == (Got(temp.value), rest)
            else Receiving(codec.D()) && GetMessage(codec.D()) == None
                 && RecvFrom(codec.D(), rest, outs[1..]) == RecvFrom(old(codec.D()), incoming, outs)
  {
    RecvMore(codec.D(), incoming, outs);
    var n := Min(Min(if k == 0 then 1 else k, codec.pkt.len - codec.pkt.useLen), |incoming|);
    ReadChunk(codec, incoming[..n]);
    rest := incoming[n..];
    temp := codec.TakeMessage();
  }

  /** The loop of RecvMsg over read(2). */
  method RecvMsg(incoming: seq<Byte>, outs: seq<ReadOutcome>) returns (r: RecvResult, rest: seq<Byte>)
    ensures (r, rest) == Recv(incoming, outs)
  {
    var codec := new CodecObject();
    rest := incoming;
    var i := 0;
    assert outs[0..] == outs;
    var temp := codec.TakeMessage();
    while temp == None
      invariant codec.Valid() && fresh(codec) && fresh(codec.pkt) && fresh(codec.pkt.data) && 0 <= i <= |outs|
      invariant if temp.Some? then Recv(incoming, outs) == (Got(temp.value), rest)
                else Receiving(codec.D()) && GetMessage(codec.D()) == None && RecvFrom(codec.D(), rest, outs[i..]) == Recv(incoming, outs)
      decreases |outs| - i, temp == None
    {
      if i == |outs| { return RecvPending, rest; }
      var o := outs[i];
      assert outs[i..][0] == o && outs[i..][1..] == outs[i + 1..];
      i := i + 1;
      match o
      case ReadInterrupted => continue;
      case ReadFailed => return RecvError, rest;
      case Closed => return RecvError, rest;
      case Gives(k) =>
        if codec.pkt.len == codec.pkt.useLen { return RecvError, rest; }
        if rest == [] { return RecvPending, rest; }
        temp, rest := ReadTurn(codec, rest, k, outs[i - 1..]);
    }
    return Got(temp.value), rest;
  }
}
