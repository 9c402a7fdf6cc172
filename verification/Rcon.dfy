/** The RCON client of the agent: the packet codec, writing through a connection that may take a packet in
    pieces, and the output that is cut at a limit (rcon.go, and `limitedBuffer` of system.go). */
module Rcon {
  import opened Base

  const MAX_PACKET: nat := 0x40_0000
  const TWO_32: nat := 0x1_0000_0000

  type byte = x: int | 0 <= x < 256

  type int32 = x: int | -0x8000_0000 <= x < 0x8000_0000

  datatype Packet = Packet(id: int32, kind: int32, payload: seq<byte>)

  datatype EncodeError = PayloadHasNul | PacketTooLarge

  /** How the bytes of a connection end, from the reader's side. */
  datatype Ending = Closed | TimedOut | Broken

  datatype ReadError = Eof | UnexpectedEof | Timeout | ConnectionBroken | BadLength(length: int32) | BadTerminator

  // ---------- little-endian integers ----------

  function Unsigned(x: int32): nat {
    if x < 0 then x + TWO_32 else x
  }

  function Signed(u: nat): int32
    requires u < TWO_32
  {
    if u < 0x8000_0000 then u else u - TWO_32
  }

  function PutUint32(u: nat): (r: seq<byte>)
    requires u < TWO_32
    ensures |r| == 4
  {
    [u % 256, u / 0x100 % 256, u / 0x1_0000 % 256, u / 0x100_0000]
  }

  function Uint32(b: seq<byte>): nat
    requires |b| == 4
  {
    var b0: int, b1: int, b2: int, b3: int := b[0], b[1], b[2], b[3];
    b0 + b1 * 0x100 + b2 * 0x1_0000 + b3 * 0x100_0000
  }

  lemma Uint32OfPut(u: nat)
    requires u < TWO_32
    ensures Uint32(PutUint32(u)) == u
  {
    assert u / 0x1_0000 == u / 0x100 / 256 && u / 0x100_0000 == u / 0x1_0000 / 256;
  }

  lemma PutOfUint32(b: seq<byte>)
    requires |b| == 4
    ensures Uint32(b) < TWO_32 && PutUint32(Uint32(b)) == b
  {
    var u := Uint32(b);
    var b1: int, b2: int, b3: int := b[1], b[2], b[3];
    assert u / 0x100 == b1 + b2 * 0x100 + b3 * 0x1_0000;
    assert u / 0x1_0000 == b2 + b3 * 0x100;
    assert u / 0x100_0000 == b3;
  }

  function PutInt32(x: int32): (r: seq<byte>)
    ensures |r| == 4
  {
    PutUint32(Unsigned(x))
  }

  function Int32(b: seq<byte>): int32
    requires |b| == 4
  {
    PutOfUint32(b);
    Signed(Uint32(b))
  }

  /** Every int32 is read back from its four bytes, and every four bytes are those of one int32. */
  lemma Int32Bijection(x: int32, b: seq<byte>)
    requires |b| == 4
    ensures Int32(b) == x <==> b == PutInt32(x)
  {
    Uint32OfPut(Unsigned(x));
    PutOfUint32(b);
  }

  // ---------- the codec ----------

  predicate Fits(p: Packet) {
    |p.payload| + 10 <= MAX_PACKET
  }

  /** The bytes of a packet: its length without the length field, id, type, payload and two NULs. */
  function Frame(p: Packet): seq<byte>
    requires Fits(p)
  {
    PutInt32(|p.payload| + 10) + PutInt32(p.id) + PutInt32(p.kind) + p.payload + [0, 0]
  }

  function Encode(p: Packet): Result<seq<byte>, EncodeError> {
    if 0 in p.payload then Err(PayloadHasNul)
    else if !Fits(p) then Err(PacketTooLarge)
    else Ok(Frame(p))
  }

  /** `io.ReadFull`: all of `n` bytes, or the error; closing after nothing was read is a plain EOF. */
  function ReadFull(bytes: seq<byte>, ending: Ending, n: nat): Result<seq<byte>, ReadError> {
    if n <= |bytes| then Ok(bytes[..n])
    else match ending
      case Closed => Err(if bytes == [] then Eof else UnexpectedEof)
      case TimedOut => Err(Timeout)
      case Broken => Err(ConnectionBroken)
  }

  /** What cannot be sent: a NUL in the payload, and otherwise a payload that is too long. */
  lemma EncodeErrors(p: Packet)
    ensures Encode(p) == Err(PayloadHasNul) <==> exists b <- p.payload :: b == 0
    ensures Encode(p) == Err(PacketTooLarge) <==> (forall b <- p.payload :: b != 0) && |p.payload| + 10 > 0x40_0000
  {
  }

  datatype Decoded = Decoded(packet: Packet, rest: seq<byte>)

  function Decode(bytes: seq<byte>, ending: Ending): (r: Result<Decoded, ReadError>)
    ensures r.Ok? ==> |r.value.rest| < |bytes|
  {
    match ReadFull(bytes, ending, 4)
    case Err(e) => Err(e)
    case Ok(head) =>
      var length := Int32(head);
      if length < 10 || length > MAX_PACKET then Err(BadLength(length))
      else match ReadFull(bytes[4..], ending, length)
        case Err(e) => Err(e)
        case Ok(body) =>
          if body[length - 2] != 0 || body[length - 1] != 0 then Err(BadTerminator)
          else Ok(Decoded(Packet(Int32(body[..4]), Int32(body[4..8]), body[8..length - 2]), bytes[4 + length..]))
  }

  lemma FrameParts(p: Packet, rest: seq<byte>)
    requires Fits(p)
    ensures var n, s := |p.payload|, Frame(p) + rest;
            && |s| == n + 14 + |rest| && s[..4] == PutInt32(n + 10) && s[4..8] == PutInt32(p.id)
            && s[8..12] == PutInt32(p.kind)
            && s[12..12 + n] == p.payload && s[12 + n] == 0 && s[13 + n] == 0 && s[14 + n..] == rest
  {
  }

  lemma PartsFrame(p: Packet, s: seq<byte>)
    requires Fits(p)
    requires var n := |p.payload|;
             && |s| >= n + 14 && s[..4] == PutInt32(n + 10) && s[4..8] == PutInt32(p.id) && s[8..12] == PutInt32(p.kind)
             && s[12..12 + n] == p.payload && s[12 + n] == 0 && s[13 + n] == 0
    ensures s == Frame(p) + s[|p.payload| + 14..]
  {
    var n := |p.payload|;
    assert s[12 + n..14 + n] == [0, 0];
    assert s == s[..4] + s[4..8] + s[8..12] + s[12..12 + n] + s[12 + n..14 + n] + s[14 + n..];
  }

  /** What decoding accepts: exactly the frames of packets of at most 4 MiB, followed by anything, which is
      left unread. */
  lemma DecodesExactlyFrames(bytes: seq<byte>, ending: Ending, p: Packet, rest: seq<byte>)
    ensures Decode(bytes, ending) == Ok(Decoded(p, rest)) <==> Fits(p) && bytes == Frame(p) + rest
  {
    if Fits(p) && bytes == Frame(p) + rest {
      FrameIsDecoded(bytes, ending, p, rest);
    }
    if Decode(bytes, ending) == Ok(Decoded(p, rest)) {
      DecodedIsFrame(bytes, ending);
    }
  }

  lemma InnerSlice(bytes: seq<byte>, length: nat, from: nat, to: nat)
    requires 4 + length <= |bytes| && from <= to <= length
    ensures bytes[4..][..length][from..to] == bytes[4 + from..4 + to]
  {
  }

  lemma DecodeOfParts(bytes: seq<byte>, ending: Ending, length: nat, id: int32, kind: int32)
    requires 10 <= length <= MAX_PACKET && 4 + length <= |bytes|
    requires Int32(bytes[..4]) == length && Int32(bytes[4..8]) == id && Int32(bytes[8..12]) == kind
    requires bytes[2 + length] == 0 && bytes[3 + length] == 0
    ensures Decode(bytes, ending) ==
            Ok(Decoded(Packet(id, kind, bytes[12..2 + length]), bytes[4 + length..]))
  {
    hide Int32;
    InnerSlice(bytes, length, 0, 4);
    InnerSlice(bytes, length, 4, 8);
    InnerSlice(bytes, length, 8, length - 2);
    var body := bytes[4..][..length];
    assert body[length - 2] == bytes[2 + length] && body[length - 1] == bytes[3 + length];
  }

  lemma FrameIsDecoded(bytes: seq<byte>, ending: Ending, p: Packet, rest: seq<byte>)
    requires Fits(p) && bytes == Frame(p) + rest
    ensures Decode(bytes, ending) == Ok(Decoded(p, rest))
  {
    var n := |p.payload|;
    FrameParts(p, rest);
    Int32Bijection(n + 10, bytes[..4]);
    Int32Bijection(p.id, bytes[4..8]);
    Int32Bijection(p.kind, bytes[8..12]);
    assert n + 10 <= MAX_PACKET;
    hide *;
    DecodeOfParts(bytes, ending, n + 10, p.id, p.kind);
  }

  /** Which error anything else is: what is missing at the end of the stream comes first, then the length,
      then the two closing NULs. */
  lemma DecodeErrors(bytes: seq<byte>, ending: Ending)
    ensures var missing := if ending == TimedOut then Timeout else ConnectionBroken;
            Decode(bytes, ending).Err? ==>
              var e := Decode(bytes, ending).error;
              if |bytes| < 4 then
                e == if ending != Closed then missing else if bytes == [] then Eof else UnexpectedEof
              else
                var length := Int32(bytes[..4]);
                if length < 10 || length > 0x40_0000 then e == BadLength(length)
                else if |bytes| < 4 + length then
                  e == if ending != Closed then missing else if |bytes| == 4 then Eof else UnexpectedEof
                else e == BadTerminator && (bytes[2 + length] != 0 || bytes[3 + length] != 0)
  {
    hide Int32;
  }

  lemma DecodedIsFrame(bytes: seq<byte>, ending: Ending)
    requires Decode(bytes, ending).Ok?
    ensures var d := Decode(bytes, ending).value; Fits(d.packet) && bytes == Frame(d.packet) + d.rest
  {
    var length := Int32(bytes[..4]);
    var body := bytes[4..][..length];
    var d := Decode(bytes, ending).value;
    var n := |d.packet.payload|;
    InnerSlice(bytes, length, 0, 4);
    InnerSlice(bytes, length, 4, 8);
    InnerSlice(bytes, length, 8, length - 2);
    assert body[length - 2] == bytes[12 + n] && body[length - 1] == bytes[13 + n];
    Int32Bijection(n + 10, bytes[..4]);
    Int32Bijection(d.packet.id, bytes[4..8]);
    Int32Bijection(d.packet.kind, bytes[8..12]);
    PartsFrame(d.packet, bytes);
  }

  /** Round trip: an encoded packet followed by any bytes decodes to the packet and leaves those bytes. */
  lemma DecodeInvertsEncode(p: Packet, rest: seq<byte>, ending: Ending)
    requires Encode(p).Ok?
    ensures Decode(Encode(p).value + rest, ending) == Ok(Decoded(p, rest))
  {
    DecodesExactlyFrames(Encode(p).value + rest, ending, p, rest);
  }

  /** Encoding gives back the decoded frame exactly when the payload holds no NUL. */
  lemma EncodeInvertsDecodeExactlyWhen(bytes: seq<byte>, ending: Ending)
    requires Decode(bytes, ending).Ok?
    ensures var d := Decode(bytes, ending).value;
            Encode(d.packet) == Ok(bytes[..|bytes| - |d.rest|]) <==> 0 !in d.packet.payload
  {
    var d := Decode(bytes, ending).value;
    DecodesExactlyFrames(bytes, ending, d.packet, d.rest);
    assert bytes[..|bytes| - |d.rest|] == Frame(d.packet);
  }

  function EncodeAll(packets: seq<Packet>): seq<byte>
    requires forall p <- packets :: Encode(p).Ok?
  {
    if packets == [] then [] else Encode(packets[0]).value + EncodeAll(packets[1..])
  }

  datatype Stream = Stream(packets: seq<Packet>, error: ReadError)

  /** Reading packets until the connection gives no more. */
  function DecodeAll(bytes: seq<byte>, ending: Ending): Stream
    decreases |bytes|
  {
    match Decode(bytes, ending)
    case Err(e) => Stream([], e)
    case Ok(d) => var more := DecodeAll(d.rest, ending); more.(packets := [d.packet] + more.packets)
  }

  lemma DecodeAllStep(p: Packet, after: seq<byte>, ending: Ending)
    requires Encode(p).Ok?
    ensures var more := DecodeAll(after, ending);
            DecodeAll(Encode(p).value + after, ending) == Stream([p] + more.packets, more.error)
  {
    DecodeInvertsEncode(p, after, ending);
  }

  /** Concatenated packets decode to the same packets, then to whatever follows them. */
  lemma {:induction false} ConcatenatedPacketsDecode(packets: seq<Packet>, rest: seq<byte>, ending: Ending)
    requires forall p <- packets :: Encode(p).Ok?
    ensures var tail := DecodeAll(rest, ending);
            DecodeAll(EncodeAll(packets) + rest, ending) == Stream(packets + tail.packets, tail.error)
  {
    hide Decode;
    hide DecodeAll;
    hide EncodeAll;
    if packets == [] {
      EncodeNone(rest, DecodeAll(rest, ending).packets);
    } else {
      var first, others := packets[0], packets[1..];
      var after := EncodeAll(others) + rest;
      ConcatenatedPacketsDecode(others, rest, ending);
      EncodeAllStep(packets, rest);
      DecodeAllStep(first, after, ending);
      hide Encode;
      hide EncodeAll;
      hide DecodeAll;
      HeadPlusRest(packets, DecodeAll(rest, ending).packets);
    }
  }

  lemma EncodeNone(rest: seq<byte>, packets: seq<Packet>)
    ensures EncodeAll([]) + rest == rest && [] + packets == packets
  {
  }

  lemma EncodeAllStep(packets: seq<Packet>, rest: seq<byte>)
    requires packets != [] && forall p <- packets :: Encode(p).Ok?
    ensures EncodeAll(packets) + rest == Encode(packets[0]).value + (EncodeAll(packets[1..]) + rest)
  {
  }

  lemma HeadPlusRest<T>(s: seq<T>, tail: seq<T>)
    requires s != []
    ensures [s[0]] + (s[1..] + tail) == s + tail
  {
  }

  /** A closed connection whose last packet is whole ends in a plain EOF. */
  lemma WholePacketsEndInEof(packets: seq<Packet>)
    requires forall p <- packets :: Encode(p).Ok?
    ensures DecodeAll(EncodeAll(packets), Closed) == Stream(packets, Eof)
  {
    ConcatenatedPacketsDecode(packets, [], Closed);
    assert EncodeAll(packets) + [] == EncodeAll(packets) && packets + [] == packets;
  }

  /** `encodeRCONPacket`: a buffer filled field by field; the two closing NULs are the zeroes it was made of. */
  method EncodePacket(p: Packet) returns (r: Result<seq<byte>, EncodeError>)
    ensures r == Encode(p)
    ensures r.Ok? ==> forall rest, ending :: Decode(r.value + rest, ending) == Ok(Decoded(p, rest))
  {
    var n := |p.payload|;
    if 0 in p.payload {
      return Err(PayloadHasNul);
    }
    if n + 10 > MAX_PACKET {
      return Err(PacketTooLarge);
    }
    var buf := new byte[n + 14](i => 0);
    PutAt(buf, 0, PutInt32(n + 10));
    PutAt(buf, 4, PutInt32(p.id));
    PutAt(buf, 8, PutInt32(p.kind));
    PutAt(buf, 12, p.payload);
    assert buf[12..12 + n] == p.payload && buf[..4] == PutInt32(n + 10) && buf[4..8] == PutInt32(p.id)
           && buf[8..12] == PutInt32(p.kind);
    PartsFrame(p, buf[..]);
    assert buf[..] == Frame(p);
    forall rest, ending ensures Decode(buf[..] + rest, ending) == Ok(Decoded(p, rest)) {
      DecodeInvertsEncode(p, rest, ending);
    }
    r := Ok(buf[..]);
  }

  /** `copy(buf[at:], data)` */
  method PutAt(buf: array<byte>, at: nat, data: seq<byte>)
    requires at + |data| <= buf.Length
    modifies buf
    ensures forall k :: 0 <= k < buf.Length ==> buf[k] == if at <= k < at + |data| then data[k - at] else old(buf[k])
  {
    for i := 0 to |data|
      invariant forall k :: 0 <= k < buf.Length ==> buf[k] == if at <= k < at + i then data[k - at] else old(buf[k])
    {
      buf[at + i] := data[i];
    }
  }

  // ---------- writing in pieces ----------

  /** What the writer does with the bytes it is offered: it takes at most `bytes` of them. */
  datatype SocketWrite = Took(bytes: nat) | FailedAfter(bytes: nat)

  datatype WriteError = Unencodable(error: EncodeError) | ShortWrite | WriterFailed

  datatype Sent = Sent(bytes: nat, error: Option<WriteError>)

  /** How many of `n` bytes are sent when the writer answers `writes(i)`, `writes(i + 1)`, ... */
  function Sending(n: nat, writes: nat -> SocketWrite, i: nat): (r: Sent)
    ensures r.bytes <= n && (r.error == None ==> r.bytes == n)
    decreases n
  {
    if n == 0 then Sent(0, None)
    else match writes(i)
      case FailedAfter(k) => Sent(Min(k, n), Some(WriterFailed))
      case Took(k) =>
        if k == 0 then Sent(0, Some(ShortWrite))
        else
          var more := Sending(n - Min(k, n), writes, i + 1);
          more.(bytes := Min(k, n) + more.bytes)
  }

  class Connection {
    ghost var sent: seq<byte>
    var calls: nat
    const writes: nat -> SocketWrite

    constructor (writes: nat -> SocketWrite)
      ensures this.writes == writes && sent == [] && calls == 0
    {
      this.writes := writes;
      sent, calls := [], 0;
    }

    /** `writer.Write(data)` */
    method Write(data: seq<byte>) returns (taken: nat, failed: bool)
      modifies this
      ensures calls == old(calls) + 1
      ensures failed == writes(old(calls)).FailedAfter? && taken == Min(writes(old(calls)).bytes, |data|)
      ensures sent == old(sent) + data[..taken]
    {
      failed := writes(calls).FailedAfter?;
      taken := Min(writes(calls).bytes, |data|);
      sent := sent + data[..taken];
      calls := calls + 1;
    }

    /** `writeRCONPacket` */
    method WritePacket(p: Packet) returns (error: Option<WriteError>)
      modifies this
      ensures match Encode(p)
              case Err(e) => error == Some(Unencodable(e)) && sent == old(sent)
              case Ok(frame) =>
                var done := Sending(|frame|, writes, old(calls));
                error == done.error && sent == old(sent) + frame[..done.bytes]
      ensures error == None ==> Encode(p).Ok? && sent == old(sent) + Encode(p).value
    {
      var encoded := EncodePacket(p);
      if encoded.Err? {
        return Some(Unencodable(encoded.error));
      }
      error := WriteAll(encoded.value);
    }

    /** The loop of `writeRCONPacket`. */
    method WriteAll(frame: seq<byte>) returns (error: Option<WriteError>)
      modifies this
      ensures var done := Sending(|frame|, writes, old(calls));
              error == done.error && sent == old(sent) + frame[..done.bytes]
    {
      var data := frame;
      ghost var at := 0;
      ghost var goal := Sending(|frame|, writes, calls);
      while data != []
        invariant 0 <= at <= |frame| && data == frame[at..]
        invariant sent == old(sent) + frame[..at]
        invariant goal.bytes == at + Sending(|data|, writes, calls).bytes
        invariant goal.error == Sending(|data|, writes, calls).error
        decreases |data|
      {
        var written, failed := Write(data);
        assert frame[..at] + data[..written] == frame[..at + written];
        at := at + written;
        if failed {
          return Some(WriterFailed);
        }
        if written == 0 {
          return Some(ShortWrite);
        }
        data := data[written..];
      }
      error := None;
    }
  }

  /** However the writer splits the packet, all of it is sent as long as every write takes something. */
  lemma {:induction false} AnySplitSendsAll(n: nat, writes: nat -> SocketWrite, i: nat)
    requires forall j :: j >= i ==> writes(j).Took? && writes(j).bytes > 0
    ensures Sending(n, writes, i) == Sent(n, None)
    decreases n
  {
    if n > 0 {
      AnySplitSendsAll(n - Min(writes(i).bytes, n), writes, i + 1);
    }
  }

  // ---------- output cut at a limit ----------

  datatype Capped = Capped(text: seq<byte>, truncated: bool)

  function Accept(c: Capped, data: seq<byte>, limit: int): Capped {
    var remaining := limit - |c.text|;
    if remaining <= 0 then c.(truncated := true)
    else if |data| > remaining then Capped(c.text + data[..remaining], true)
    else c.(text := c.text + data)
  }

  function AcceptAll(chunks: seq<seq<byte>>, limit: int): Capped {
    if chunks == [] then Capped([], false)
    else Accept(AcceptAll(chunks[..|chunks| - 1], limit), chunks[|chunks| - 1], limit)
  }

  function Concat(chunks: seq<seq<byte>>): seq<byte> {
    if chunks == [] then [] else Concat(chunks[..|chunks| - 1]) + chunks[|chunks| - 1]
  }

  function Room(limit: int): nat {
    if limit < 0 then 0 else limit
  }

  /** An empty chunk came when the buffer was full already. */
  ghost predicate EmptyWhenFull(chunks: seq<seq<byte>>, limit: int) {
    exists i :: 0 <= i < |chunks| && chunks[i] == [] && limit <= |Concat(chunks[..i])|
  }

  /** Whatever the chunks, the kept text is the first `limit` bytes of all output. */
  lemma {:induction false} KeptText(chunks: seq<seq<byte>>, limit: int)
    ensures var all := Concat(chunks); AcceptAll(chunks, limit).text == all[..Min(|all|, Room(limit))]
  {
    if chunks != [] {
      KeptText(chunks[..|chunks| - 1], limit);
    }
  }

  lemma EmptyWhenFullStep(chunks: seq<seq<byte>>, last: seq<byte>, limit: int)
    ensures EmptyWhenFull(chunks + [last], limit) <==>
            EmptyWhenFull(chunks, limit) || (last == [] && limit <= |Concat(chunks)|)
  {
    var all, n := chunks + [last], |chunks|;
    assert all[n] == last && all[..n] == chunks;
    assert forall i :: 0 <= i < n ==> all[i] == chunks[i] && all[..i] == chunks[..i];
    if EmptyWhenFull(chunks, limit) {
      var i :| 0 <= i < n && chunks[i] == [] && limit <= |Concat(chunks[..i])|;
      assert all[i] == [] && limit <= |Concat(all[..i])|;
    }
    if last == [] && limit <= |Concat(chunks)| {
      assert all[n] == [] && limit <= |Concat(all[..n])|;
    }
  }

  /** It is reported as truncated exactly when output was lost or an empty chunk came to a full buffer. */
  lemma {:induction false} TruncatedExactlyWhen(chunks: seq<seq<byte>>, limit: int)
    ensures AcceptAll(chunks, limit).truncated <==> |Concat(chunks)| > Room(limit) || EmptyWhenFull(chunks, limit)
  {
    if chunks != [] {
      var front, last := chunks[..|chunks| - 1], chunks[|chunks| - 1];
      TruncatedExactlyWhen(front, limit);
      KeptText(front, limit);
      assert chunks == front + [last];
      EmptyWhenFullStep(front, last, limit);
    }
  }

  /** So complete output can be reported as truncated. */
  lemma CompleteButMarked()
    ensures exists chunks: seq<seq<byte>>, limit: nat ::
              AcceptAll(chunks, limit) == Capped(Concat(chunks), true)
  {
    var one: seq<seq<byte>> := [[65]];
    var chunks: seq<seq<byte>> := [[65], []];
    assert chunks[..1] == one && one[..0] == [];
    assert Concat(one) == [65] && AcceptAll(one, 1) == Capped([65], false);
    assert AcceptAll(chunks, 1) == Capped(Concat(chunks), true);
  }

  /** "\n[output truncated]" */
  const NOTICE: seq<byte> := [10, 91, 111, 117, 116, 112, 117, 116, 32, 116, 114, 117, 110, 99, 97, 116, 101, 100, 93]

  /** The text an output is reported as. */
  function Reported(c: Capped): seq<byte> {
    if c.truncated then c.text + NOTICE else c.text
  }

  /** The reported text is the output exactly when nothing is marked, or when what was lost happens to read
      like the notice. */
  lemma ReportedIsOutputExactlyWhen(chunks: seq<seq<byte>>, limit: int)
    ensures var all := Concat(chunks);
            Reported(AcceptAll(chunks, limit)) == all <==>
              (|all| <= Room(limit) && !EmptyWhenFull(chunks, limit)) || all[Min(|all|, Room(limit))..] == NOTICE
  {
    var all := Concat(chunks);
    var kept := Min(|all|, Room(limit));
    KeptText(chunks, limit);
    TruncatedExactlyWhen(chunks, limit);
    hide Concat;
    hide AcceptAll;
    hide EmptyWhenFull;
    assert all == all[..kept] + all[kept..];
    assert (all[..kept] + NOTICE)[kept..] == NOTICE;
  }

  /** `limitedBuffer` */
  class LimitedBuffer {
    var buf: seq<byte>
    const limit: int
    var truncated: bool
    ghost var chunks: seq<seq<byte>>

    constructor (limit: int)
      ensures this.limit == limit && chunks == [] && Valid()
    {
      this.limit := limit;
      buf, truncated, chunks := [], false, [];
    }

    ghost predicate Valid()
      reads this
    {
      Capped(buf, truncated) == AcceptAll(chunks, limit)
    }

    method Text() returns (text: seq<byte>)
      requires Valid()
      ensures text == Reported(AcceptAll(chunks, limit))
    {
      text := if truncated then buf + NOTICE else buf;
    }

    /** Always reports everything as written. */
    method Write(data: seq<byte>) returns (written: nat)
      requires Valid()
      modifies this
      ensures Valid() && chunks == old(chunks) + [data] && written == |data|
      ensures buf == Concat(chunks)[..Min(|Concat(chunks)|, Room(limit))]
    {
      written := |data|;
      chunks := chunks + [data];
      assert chunks[..|chunks| - 1] == old(chunks);
      KeptText(chunks, limit);
      var remaining := limit - |buf|;
      if remaining <= 0 {
        truncated := true;
        return;
      }
      var kept := data;
      if |kept| > remaining {
        kept := kept[..remaining];
        truncated := true;
      }
      buf := buf + kept;
    }
  }

  // ---------- the response of a command ----------

  predicate IsResponse(p: Packet) {
    p.id == 2 && p.kind == 0
  }

  function Responses(packets: seq<Packet>): seq<seq<byte>> {
    if packets == [] then []
    else
      var last := packets[|packets| - 1];
      Responses(packets[..|packets| - 1]) + if IsResponse(last) then [last.payload] else []
  }

  /** The answers among the packets, in order: the payloads of those with id 2 and type 0, nothing else. */
  lemma {:induction false} ResponsesExactly(a: seq<Packet>, b: seq<Packet>, p: Packet)
    ensures Responses([]) == [] && Responses([p]) == if p.id == 2 && p.kind == 0 then [p.payload] else []
    ensures Responses(a + b) == Responses(a) + Responses(b)
    decreases |b|
  {
    if b == [] {
      assert a + b == a;
    } else {
      var front, last := b[..|b| - 1], b[|b| - 1];
      ResponsesExactly(a, front, p);
      assert (a + b)[..|a + b| - 1] == a + front;
      assert [p][..0] == [];
    }
  }

  lemma {:induction false} SomeResponse(packets: seq<Packet>)
    ensures Responses(packets) != [] <==> exists p <- packets :: p.id == 2 && p.kind == 0
  {
    if packets != [] {
      SomeResponse(packets[..|packets| - 1]);
      assert packets == packets[..|packets| - 1] + [packets[|packets| - 1]];
    }
  }

  predicate EndsQuietly(e: ReadError) {
    e.Timeout? || e.Eof? || e.UnexpectedEof?
  }

  /** The loop of `executeRCON` after the command was sent: it answers with the response payloads up to the
      limit once the connection falls quiet or closes, and fails when nothing was received before that or
      when the connection breaks or carries a malformed packet. */
  method ReadResponse(bytes: seq<byte>, ending: Ending, limit: int) returns (r: Result<seq<byte>, ReadError>)
    ensures var all := DecodeAll(bytes, ending);
            r == if (exists p <- all.packets :: p.id == 2 && p.kind == 0)
                    && (all.error == Timeout || all.error == Eof || all.error == UnexpectedEof)
                 then Ok(Reported(AcceptAll(Responses(all.packets), limit)))
                 else Err(all.error)
  {
    var output, truncated, received := [], false, false;
    var rest := bytes;
    ghost var seen: seq<Packet> := [];
    ReadNothing(bytes, ending, limit);
    hide DecodeAll;
    hide Decode;
    hide Responses;
    hide AcceptAll;
    hide ReadSoFar;
    while true
      invariant ReadSoFar(bytes, ending, seen, rest)
      invariant Capped(output, truncated) == AcceptAll(Responses(seen), limit)
      invariant received == (Responses(seen) != [])
      decreases |rest|
    {
      var next := Decode(rest, ending);
      if next.Err? {
        ReadNone(bytes, ending, seen, rest);
        SomeResponse(seen);
        if received && EndsQuietly(next.error) {
          break;
        }
        return Err(next.error);
      }
      var packet := next.value.packet;
      ReadOne(bytes, ending, seen, rest, limit);
      rest := next.value.rest;
      seen := seen + [packet];
      if !IsResponse(packet) {
        continue;
      }
      received := true;
      var remaining := limit - |output|;
      if remaining <= 0 {
        truncated := true;
        continue;
      }
      if |packet.payload| > remaining {
        output := output + packet.payload[..remaining];
        truncated := true;
      } else {
        output := output + packet.payload;
      }
    }
    if truncated {
      output := output + NOTICE;
    }
    r := Ok(output);
  }

  /** The packets of `bytes` are those seen and those still to come. */
  ghost predicate ReadSoFar(bytes: seq<byte>, ending: Ending, seen: seq<Packet>, rest: seq<byte>) {
    var more := DecodeAll(rest, ending);
    DecodeAll(bytes, ending) == Stream(seen + more.packets, more.error)
  }

  lemma ReadNothing(bytes: seq<byte>, ending: Ending, limit: int)
    ensures ReadSoFar(bytes, ending, [], bytes)
    ensures Responses([]) == [] && AcceptAll([], limit) == Capped([], false)
  {
    var packets := DecodeAll(bytes, ending).packets;
    assert [] + packets == packets;
  }

  lemma ReadNone(bytes: seq<byte>, ending: Ending, seen: seq<Packet>, rest: seq<byte>)
    requires ReadSoFar(bytes, ending, seen, rest) && Decode(rest, ending).Err?
    ensures DecodeAll(bytes, ending) == Stream(seen, Decode(rest, ending).error)
  {
    assert seen + [] == seen;
  }

  /** What reading one more packet adds. */
  lemma ReadOne(bytes: seq<byte>, ending: Ending, seen: seq<Packet>, rest: seq<byte>, limit: int)
    requires ReadSoFar(bytes, ending, seen, rest) && Decode(rest, ending).Ok?
    ensures var packet := Decode(rest, ending).value.packet;
            var after := seen + [packet];
            && ReadSoFar(bytes, ending, after, Decode(rest, ending).value.rest)
            && (IsResponse(packet) ==> Responses(after) != [])
            && (IsResponse(packet) ==>
                  AcceptAll(Responses(after), limit) == Accept(AcceptAll(Responses(seen), limit), packet.payload,
                                                               limit))
            && (!IsResponse(packet) ==> Responses(after) == Responses(seen))
  {
    var packet := Decode(rest, ending).value.packet;
    var more := DecodeAll(Decode(rest, ending).value.rest, ending);
    assert (seen + [packet])[..|seen|] == seen;
    assert DecodeAll(rest, ending) == Stream([packet] + more.packets, more.error);
    hide Decode;
    hide DecodeAll;
    assert seen + ([packet] + more.packets) == (seen + [packet]) + more.packets;
    if IsResponse(packet) {
      var chunks := Responses(seen) + [packet.payload];
      assert Responses(seen + [packet]) == chunks;
      assert chunks[..|chunks| - 1] == Responses(seen);
    }
  }

  /** Any NUL-free answers, sent as packets of any size among other packets, come back as their
      concatenation cut at the limit. */
  lemma SentAnswersAreRead(packets: seq<Packet>, limit: int)
    requires (forall p <- packets :: Encode(p).Ok?) && Responses(packets) != []
    ensures var all := DecodeAll(EncodeAll(packets), Closed);
            && all.packets == packets && EndsQuietly(all.error)
            && AcceptAll(Responses(all.packets), limit).text
               == Concat(Responses(packets))[..Min(|Concat(Responses(packets))|, Room(limit))]
  {
    WholePacketsEndInEof(packets);
    KeptText(Responses(packets), limit);
  }
}
