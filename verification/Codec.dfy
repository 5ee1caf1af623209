/** The length-prefixed wire format and its incremental decoder, as values. */
module Codec {
  import opened Base

  type Byte = x: int | 0 <= x < 256
  const HEAD_LEN: nat := 4
  const U32: nat := 0x1_0000_0000  // uint32_t arithmetic is modulo this

  // ---------- The wire format ----------

  /** htonl of n, byte by byte. */
  function BigEndian(n: nat): (bs: seq<Byte>)
    requires n < U32
    ensures |bs| == HEAD_LEN
  {
    [n / 0x100_0000, n / 0x1_0000 % 256, n / 256 % 256, n % 256]
  }

  function FromBigEndian(bs: seq<Byte>): (n: nat)
    requires |bs| == HEAD_LEN
    ensures n < U32
  {
    bs[0] as int * 0x100_0000 + bs[1] as int * 0x1_0000 + bs[2] as int * 256 + bs[3] as int
  }

  lemma BigEndianRoundTrip(n: nat)
    requires n < U32
    ensures FromBigEndian(BigEndian(n)) == n
  {
    assert n == n / 256 * 256 + n % 256;
    assert n / 256 == n / 256 / 256 * 256 + n / 256 % 256;
    assert n / 256 / 256 == n / 0x1_0000;
    assert n / 0x1_0000 == n / 0x1_0000 / 256 * 256 + n / 0x1_0000 % 256;
    assert n / 0x1_0000 / 256 == n / 0x100_0000;
  }

  /** The value of a number written in base 256, most significant byte first. */
  function Positional(bs: seq<Byte>): nat {
    if bs == [] then 0 else Positional(bs[..|bs| - 1]) * 256 + bs[|bs| - 1]
  }

  lemma HeadIsPositional(bs: seq<Byte>)
    requires |bs| == HEAD_LEN
    ensures FromBigEndian(bs) == Positional(bs)
  {
    var b3, b2, b1 := bs[..3], bs[..2], bs[..1];
    assert b3[..2] == b2 && b2[..1] == b1 && b1[..0] == [];
    assert Positional(b1) == bs[0];
    assert Positional(b2) == bs[0] as int * 256 + bs[1];
    assert Positional(b3) == Positional(b2) * 256 + bs[2];
  }

  lemma HeadUnique(a: seq<Byte>, b: seq<Byte>)
    requires |a| == |b| == HEAD_LEN && FromBigEndian(a) == FromBigEndian(b)
    ensures a == b
  {
    assert a[0] == b[0] && a[1] == b[1] && a[2] == b[2] && a[3] == b[3];
  }

  /** The head is in network byte order: read most significant byte first it is the length, and it is the only head that is. */
  lemma NetworkOrder(n: nat, bs: seq<Byte>)
    requires n < U32 && |bs| == HEAD_LEN
    ensures bs == BigEndian(n) <==> Positional(bs) == n
  {
    HeadIsPositional(bs);
    BigEndianRoundTrip(n);
    if Positional(bs) == n { HeadUnique(bs, BigEndian(n)); }
  }

  /** EnCode: the length is cut to 32 bits, the body is not. */
  function Encode(msg: seq<Byte>): seq<Byte> {
    BigEndian(|msg| % U32) + msg
  }

  // ---------- The decoder ----------

  datatype Status = Head | Body | Finish

  /** data are the bytes in the buffer (use_len_ of them), parsed how many are parsed, cap the buffer length. */
  datatype Decoder = Decoder(status: Status, bodyLen: nat, msg: Option<seq<Byte>>, cap: nat, data: seq<Byte>, parsed: nat)

  const FRESH := Decoder(Head, 0, None, HEAD_LEN, [], 0)

  /** Reset keeps the buffer. */
  function Reset(d: Decoder): Decoder { Decoder(Head, 0, None, d.cap, [], 0) }

  /** Len(): the room for the next read. */
  function Room(d: Decoder): int { d.cap - |d.data| }

  function GetMessage(d: Decoder): Option<seq<Byte>> { if d.status == Finish then d.msg else None }

  /** NeedParseLen(), assigned to a uint32_t. */
  function Unparsed(d: Decoder): nat
    requires d.parsed <= |d.data|
  {
    (|d.data| - d.parsed) % U32
  }

  /** decodeHead once the head is there; the new buffer length is computed in 32 bits. */
  function DecodeHead(d: Decoder): Decoder
    requires d.parsed + HEAD_LEN <= |d.data|
  {
    var bodyLen := FromBigEndian(d.data[d.parsed..d.parsed + HEAD_LEN]);
    var want := (HEAD_LEN + bodyLen) % U32;
    d.(status := Body, bodyLen := bodyLen, parsed := d.parsed + HEAD_LEN, cap := if want < d.cap then d.cap else want)
  }

  function DecodeBody(d: Decoder): Decoder
    requires d.parsed + d.bodyLen <= |d.data|
  {
    d.(status := Finish, parsed := d.parsed + d.bodyLen,
       msg := if d.msg == None then Some(d.data[d.parsed..d.parsed + d.bodyLen]) else d.msg)
  }

  /** One execution of the body of DeCode's loop, need being need_parse_len: the new state, and whether it breaks. */
  datatype Turn = Turn(d: Decoder, need: nat, stop: bool)

  function LoopBody(d: Decoder, need: nat): Turn
    requires need + d.parsed <= |d.data|
  {
    if d.status == Head && need < HEAD_LEN then Turn(d, need, true)
    else
      var d1 := if d.status == Head then DecodeHead(d) else d;
      var need1 := if d.status == Head then need - HEAD_LEN else need;
      if d1.status != Body then Turn(d1, need1, false)
      else if need1 < d1.bodyLen then Turn(d1, need1, true)
      else Turn(DecodeBody(d1), need1 - d1.bodyLen, false)
  }

  /** n turns of the loop from d; it stops at a break or when nothing is left to parse. */
  function Turns(d: Decoder, need: nat, n: nat): (t: Turn)
    requires need + d.parsed <= |d.data|
    decreases n
  {
    if need == 0 then Turn(d, need, true)
    else if n == 0 then Turn(d, need, false)
    else
      var t := LoopBody(d, need);
      if t.stop then t else Turns(t.d, t.need, n - 1)
  }

  ghost predicate Halts(d: Decoder, need: nat)
    requires need + d.parsed <= |d.data|
  {
    exists n: nat :: Turns(d, need, n).stop
  }

  function Extend(d: Decoder, chunk: seq<Byte>): Decoder { d.(data := d.data + chunk) }

  // ---------- What the decoder's state must be ----------

  /** The body length announced by the bytes of a message received so far. */
  function Announced(bytes: seq<Byte>): (n: nat)
    requires |bytes| >= HEAD_LEN
    ensures n < U32
  {
    FromBigEndian(bytes[..HEAD_LEN])
  }

  /** bytes do not run past the end of the message they start, and its size fits 32 bits. */
  predicate WithinMessage(bytes: seq<Byte>) {
    |bytes| < HEAD_LEN || (HEAD_LEN + Announced(bytes) < U32 && |bytes| <= HEAD_LEN + Announced(bytes))
  }

  /**
   The decoder state is a function of the bytes received, whatever the chunks were: head missing, body
   incomplete, or finished with the body as message. The buffer bounds hold and there is room until the end.
   */
  predicate InStep(d: Decoder) {
    && WithinMessage(d.data) && d.parsed <= |d.data| <= d.cap && HEAD_LEN <= d.cap < U32
    && if |d.data| < HEAD_LEN then d.status == Head && d.parsed == 0 && d.msg == None
       else
         var n := Announced(d.data);
         && d.bodyLen == n && HEAD_LEN + n <= d.cap
         && if |d.data| < HEAD_LEN + n then d.status == Body && d.parsed == HEAD_LEN && d.msg == None
            else d.status == Finish && d.parsed == |d.data| && d.msg == Some(d.data[HEAD_LEN..])
  }

  /** A decoder that was never reused has a buffer exactly as long as what it has learnt to expect. */
  predicate Snug(d: Decoder) {
    d.cap == if |d.data| < HEAD_LEN then HEAD_LEN else HEAD_LEN + Announced(d.data)
  }

  lemma AnnouncedPrefix(a: seq<Byte>, b: seq<Byte>)
    requires |a| >= HEAD_LEN && a <= b
    ensures Announced(a) == Announced(b)
  {}

  /** The loop of DeCode run to its end; it never takes more than two turns on bytes of one message. */
  function DeCode(d: Decoder): Decoder
    requires d.parsed <= |d.data| < U32
  {
    Turns(d, |d.data| - d.parsed, 2).d
  }

  lemma FeedHead(d: Decoder, chunk: seq<Byte>)
    requires InStep(d) && |d.data| < HEAD_LEN && |chunk| <= Room(d) && WithinMessage(d.data + chunk)
    ensures var e := Extend(d, chunk); var t := LoopBody(e, |e.data|);
            InStep(t.d) && t.d.data == e.data && (Snug(d) ==> Snug(t.d)) && (t.stop || t.need == 0)
  {
    var e := Extend(d, chunk);
    if |e.data| >= HEAD_LEN {
      assert e.data[0..HEAD_LEN] == e.data[..HEAD_LEN];
      assert e.data[HEAD_LEN..|e.data|] == e.data[HEAD_LEN..];
    }
  }

  lemma FeedBody(d: Decoder, chunk: seq<Byte>)
    requires InStep(d) && |d.data| >= HEAD_LEN && |chunk| <= Room(d) && WithinMessage(d.data + chunk)
    ensures var e := Extend(d, chunk);
            if e.parsed == |e.data| then InStep(e) && (Snug(d) ==> Snug(e))
            else var t := LoopBody(e, |e.data| - e.parsed);
                 InStep(t.d) && t.d.data == e.data && (Snug(d) ==> Snug(t.d)) && (t.stop || t.need == 0)
  {
    var e := Extend(d, chunk);
    AnnouncedPrefix(d.data, e.data);
    assert e.data[HEAD_LEN..|e.data|] == e.data[HEAD_LEN..];
    if e.parsed == |e.data| { assert chunk == [] && e.data == d.data; }
  }

  lemma OneTurnEnds(d: Decoder, need: nat)
    requires need + d.parsed <= |d.data|
    requires need > 0 ==> LoopBody(d, need).stop || LoopBody(d, need).need == 0
    ensures Turns(d, need, 2).stop && Turns(d, need, 2).d == if need == 0 then d else LoopBody(d, need).d
  {
    if need > 0 {
      var t := LoopBody(d, need);
      assert !t.stop ==> Turns(t.d, t.need, 1) == Turn(t.d, 0, true);
    }
  }

  /** The state one turn of the loop leaves, if there is anything to parse. */
  function AfterTurn(d: Decoder, need: nat): Decoder
    requires need + d.parsed <= |d.data|
  {
    if need == 0 then d else LoopBody(d, need).d
  }

  lemma FeedTurn(d: Decoder, chunk: seq<Byte>)
    requires InStep(d) && |chunk| <= Room(d) && WithinMessage(d.data + chunk)
    ensures var e := Extend(d, chunk); e.parsed <= |e.data| < U32 && Unparsed(e) == |e.data| - e.parsed
    ensures var e := Extend(d, chunk); var need := |e.data| - e.parsed; var t := AfterTurn(e, need);
            && InStep(t) && t.data == d.data + chunk && (Snug(d) ==> Snug(t))
            && (need > 0 ==> LoopBody(e, need).stop || LoopBody(e, need).need == 0)
  {
    if |d.data| < HEAD_LEN { FeedHead(d, chunk); } else { FeedBody(d, chunk); }
  }

  /** One chunk: DeCode halts in a state that again depends only on the bytes received. */
  lemma FeedInStep(d: Decoder, chunk: seq<Byte>)
    requires InStep(d) && |chunk| <= Room(d) && WithinMessage(d.data + chunk)
    ensures var e := Extend(d, chunk);
            && e.parsed <= |e.data| < U32 && Unparsed(e) == |e.data| - e.parsed
            && Turns(e, Unparsed(e), 2).stop
            && InStep(DeCode(e)) && DeCode(e).data == d.data + chunk && (Snug(d) ==> Snug(DeCode(e)))
  {
    FeedTurn(d, chunk);
    var e := Extend(d, chunk);
    OneTurnEnds(e, |e.data| - e.parsed);
  }

  /** Before the message is complete there is room for at least one byte and no message; at the end there is the message. */
  lemma RoomUntilDone(d: Decoder)
    requires InStep(d)
    ensures d.status != Finish <==> (|d.data| < HEAD_LEN || |d.data| < HEAD_LEN + Announced(d.data))
    ensures d.status != Finish ==> Room(d) > 0 && GetMessage(d) == None
    ensures d.status == Finish ==> GetMessage(d) == Some(d.data[HEAD_LEN..])
  {}

  /** GetMessage hands the message over and keeps none. */
  function TakeMessage(d: Decoder): Decoder { if GetMessage(d).Some? then d.(msg := None) else d }

  /** A message is handed over once: a second GetMessage finds none, and the first changes nothing else. */
  lemma TakenOnce(d: Decoder)
    ensures var e := TakeMessage(d);
            && GetMessage(e) == None && TakeMessage(e) == e
            && e == d.(msg := e.msg) && (GetMessage(d) == None ==> e == d)
  {}

  /** A codec is ready for another message after Reset, whatever happened to it before; its buffer is then at least a head long. */
  lemma ResetInStep(d: Decoder)
    requires HEAD_LEN <= d.cap < U32
    ensures InStep(Reset(d))
  {}

  // ---------- Any chunking ----------

  predicate Feedable(d: Decoder, chunks: seq<seq<Byte>>)
    requires InStep(d)
    decreases |chunks|
  {
    chunks == [] || (
      && |chunks[0]| <= Room(d) && WithinMessage(d.data + chunks[0])
      && (FeedInStep(d, chunks[0]); Feedable(DeCode(Extend(d, chunks[0])), chunks[1..])))
  }

  function FeedAll(d: Decoder, chunks: seq<seq<Byte>>): Decoder
    requires InStep(d) && Feedable(d, chunks)
    decreases |chunks|
  {
    if chunks == [] then d
    else
      FeedInStep(d, chunks[0]);
      FeedAll(DeCode(Extend(d, chunks[0])), chunks[1..])
  }

  function Flatten(chunks: seq<seq<Byte>>): seq<Byte> {
    if chunks == [] then [] else chunks[0] + Flatten(chunks[1..])
  }

  lemma {:induction false} FeedAllInStep(d: Decoder, chunks: seq<seq<Byte>>)
    requires InStep(d) && Feedable(d, chunks)
    ensures InStep(FeedAll(d, chunks)) && FeedAll(d, chunks).data == d.data + Flatten(chunks)
    decreases |chunks|
  {
    if chunks == [] {
    } else {
      FeedInStep(d, chunks[0]);
      FeedAllInStep(DeCode(Extend(d, chunks[0])), chunks[1..]);
      assert d.data + (chunks[0] + Flatten(chunks[1..])) == (d.data + chunks[0]) + Flatten(chunks[1..]);
    }
  }

  /** How the bytes were cut into chunks makes no difference to status, cursors and message, fresh codec or reused. */
  lemma ChunkingIrrelevant(d: Decoder, a: seq<seq<Byte>>, b: seq<seq<Byte>>)
    requires InStep(d) && Feedable(d, a) && Feedable(d, b) && Flatten(a) == Flatten(b)
    ensures var x, y := FeedAll(d, a), FeedAll(d, b);
            && x.status == y.status && x.parsed == y.parsed && x.data == y.data && GetMessage(x) == GetMessage(y)
            && x.parsed <= |x.data| <= x.cap && (x.status != Finish ==> Room(x) > 0)
  {
    FeedAllInStep(d, a);
    FeedAllInStep(d, b);
    RoomUntilDone(FeedAll(d, a));
  }

  // ---------- A codec used for message after message ----------

  lemma EncodedIsWhole(msg: seq<Byte>)
    requires |msg| + HEAD_LEN < U32
    ensures |Encode(msg)| == HEAD_LEN + |msg| && Announced(Encode(msg)) == |msg| && Encode(msg)[HEAD_LEN..] == msg
  {
    assert Encode(msg)[..HEAD_LEN] == BigEndian(|msg|);
    BigEndianRoundTrip(|msg|);
  }

  lemma FeedMessage(d: Decoder, chunks: seq<seq<Byte>>, msg: seq<Byte>)
    requires InStep(d) && d.data == [] && Feedable(d, chunks) && |msg| + HEAD_LEN < U32 && Flatten(chunks) == Encode(msg)
    ensures var e := FeedAll(d, chunks);
            e.status == Finish && GetMessage(e) == Some(msg) && HEAD_LEN <= e.cap < U32 && e.data == Encode(msg)
  {
    FeedAllInStep(d, chunks);
    assert [] + Flatten(chunks) == Encode(msg);
    EncodedIsWhole(msg);
    RoomUntilDone(FeedAll(d, chunks));
  }

  /**
   Reuse. A codec that has finished a message, in any chunks, gives it out, is reset, and decodes the next
   message, in any chunks that fit its buffer, as if it were new.
   */
  lemma ReusedRoundTrip(d: Decoder, first: seq<seq<Byte>>, second: seq<seq<Byte>>, msg: seq<Byte>)
    requires InStep(d) && Feedable(d, first) && FeedAll(d, first).status == Finish && |msg| + HEAD_LEN < U32
    ensures InStep(Reset(TakeMessage(FeedAll(d, first))))
    ensures var r := Reset(TakeMessage(FeedAll(d, first)));
            Feedable(r, second) && Flatten(second) == Encode(msg) ==> GetMessage(FeedAll(r, second)) == Some(msg)
  {
    FeedAllInStep(d, first);
    var r := Reset(TakeMessage(FeedAll(d, first)));
    ResetInStep(TakeMessage(FeedAll(d, first)));
    if Feedable(r, second) && Flatten(second) == Encode(msg) { FeedMessage(r, second, msg); }
  }

  /** Each round of chunks fits the buffer and the message it belongs to. */
  predicate FitsEach(d: Decoder, rounds: seq<seq<seq<Byte>>>)
    requires HEAD_LEN <= d.cap < U32
    decreases |rounds|
  {
    rounds == [] || (
      ResetInStep(d);
      Feedable(Reset(d), rounds[0])
      && (FeedAllInStep(Reset(d), rounds[0]);
          FitsEach(TakeMessage(FeedAll(Reset(d), rounds[0])), rounds[1..])))
  }

  /** What GetMessage answers after each round, the codec being reset before it. */
  function DecodeEach(d: Decoder, rounds: seq<seq<seq<Byte>>>): seq<Option<seq<Byte>>>
    requires HEAD_LEN <= d.cap < U32 && FitsEach(d, rounds)
    decreases |rounds|
  {
    if rounds == [] then []
    else
      ResetInStep(d);
      FeedAllInStep(Reset(d), rounds[0]);
      var e := FeedAll(Reset(d), rounds[0]);
      [GetMessage(e)] + DecodeEach(TakeMessage(e), rounds[1..])
  }

  /** One codec decodes any list of messages, however each is cut into chunks, starting in any state. */
  lemma {:induction false} ManyMessages(d: Decoder, rounds: seq<seq<seq<Byte>>>, msgs: seq<seq<Byte>>)
    requires HEAD_LEN <= d.cap < U32 && |rounds| == |msgs| && FitsEach(d, rounds)
    requires forall i :: 0 <= i < |msgs| ==> |msgs[i]| + HEAD_LEN < U32 && Flatten(rounds[i]) == Encode(msgs[i])
    ensures |DecodeEach(d, rounds)| == |msgs| && forall i :: 0 <= i < |msgs| ==> DecodeEach(d, rounds)[i] == Some(msgs[i])
    decreases |rounds|
  {
    if rounds == [] {
    } else {
      ResetInStep(d);
      FeedMessage(Reset(d), rounds[0], msgs[0]);
      ManyMessages(TakeMessage(FeedAll(Reset(d), rounds[0])), rounds[1..], msgs[1..]);
    }
  }

  // ---------- When the loop of DeCode ends ----------

  lemma {:induction false} FinishedForever(d: Decoder, need: nat, n: nat)
    requires need + d.parsed <= |d.data| && d.status == Finish && need > 0
    ensures !Turns(d, need, n).stop
    decreases n
  {
    if n > 0 { FinishedForever(d, need, n - 1); }
  }

  predicate PastEnd(bytes: seq<Byte>) {
    |bytes| >= HEAD_LEN && |bytes| > HEAD_LEN + Announced(bytes)
  }

  lemma OverlongSpins(d: Decoder, chunk: seq<Byte>)
    requires InStep(d) && d.status != Finish && |chunk| <= Room(d) && PastEnd(d.data + chunk)
    ensures var e := Extend(d, chunk);
            var t := LoopBody(e, |e.data| - e.parsed); t.d.status == Finish && t.need > 0 && !t.stop
  {}

  lemma TooBigStops(d: Decoder, chunk: seq<Byte>)
    requires InStep(d) && |chunk| <= Room(d) && !PastEnd(d.data + chunk) && !WithinMessage(d.data + chunk)
    ensures var e := Extend(d, chunk); e.parsed == 0 && LoopBody(e, |e.data|).stop
  {}

  /**
   DeCode on a chunk halts exactly when the bytes delivered do not run past the end of the message:
   with bytes left over after FINISH its loop spins without advancing.
   */
  lemma DeCodeHaltsIff(d: Decoder, chunk: seq<Byte>)
    requires InStep(d) && |chunk| <= Room(d)
    ensures var e := Extend(d, chunk);
            e.parsed <= |e.data| && Unparsed(e) == |e.data| - e.parsed && (Halts(e, Unparsed(e)) <==> !PastEnd(e.data))
  {
    var e := Extend(d, chunk);
    var need := |e.data| - e.parsed;
    if WithinMessage(e.data) {
      FeedInStep(d, chunk);
    } else if d.status == Finish {
      AnnouncedPrefix(d.data, e.data);
      forall n: nat ensures !Turns(e, need, n).stop { FinishedForever(e, need, n); }
    } else if PastEnd(e.data) {
      OverlongSpins(d, chunk);
      var t := LoopBody(e, need);
      forall n: nat ensures !Turns(e, need, n).stop {
        if n > 0 { FinishedForever(t.d, t.need, n - 1); }
      }
    } else {
      TooBigStops(d, chunk);
      assert Turns(e, need, 1).stop;
    }
  }

  /**
   A real input on which DeCode does not return: a codec that was given a one-byte message, emptied and reset
   keeps a buffer of five bytes, and is handed an empty message together with the first byte of the next.
   */
  lemma PipelinedInputSpins() returns (a: Decoder, b: Decoder, d: Decoder)
    ensures a == DeCode(Extend(FRESH, [0, 0, 0, 1])) && a.parsed <= |a.data| < 5
    ensures b == DeCode(Extend(a, [7])) && GetMessage(b) == Some([7]) && d == Reset(TakeMessage(b))
    ensures var e := Extend(d, [0, 0, 0, 0, 9]); 5 <= Room(d) && e.parsed <= |e.data| && !Halts(e, Unparsed(e))
  {
    var head: seq<Byte> := [0, 0, 0, 1];
    assert head[..HEAD_LEN] == head && FRESH.data + head == head;
    FeedInStep(FRESH, head);
    a := DeCode(Extend(FRESH, head));
    assert (head + [7])[..HEAD_LEN] == head && (head + [7])[HEAD_LEN..] == [7];
    FeedInStep(a, [7]);
    b := DeCode(Extend(a, [7]));
    d := Reset(TakeMessage(b));
    var chunk: seq<Byte> := [0, 0, 0, 0, 9];
    assert d.data + chunk == chunk && chunk[..HEAD_LEN] == [0, 0, 0, 0];
    DeCodeHaltsIff(d, chunk);
  }
}
