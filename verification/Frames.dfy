/** Length-prefixed JSON frames, and reading one from a byte stream cut into arbitrary chunks. */
module Frames {
  import opened Basics
  import opened Json
  import opened JsonText
  import opened Protocol

  /* ---------- header ---------- */

  const LIMIT := 0x1_0000_0000

  // struct.Struct(">I")
  function Header(n: int): (h: Bytes)
    requires 0 <= n < LIMIT
    ensures |h| == 4
  {
    [n / 0x1000000, n / 0x10000 % 256, n / 0x100 % 256, n % 256]
  }

  function Unheader(h: Bytes): (n: int)
    requires |h| == 4
    ensures 0 <= n < LIMIT
  {
    var (a: int, b: int, c: int, d: int) := (h[0], h[1], h[2], h[3]);
    a * 0x1000000 + b * 0x10000 + c * 0x100 + d
  }

  lemma UnheaderHeader(n: int)
    requires 0 <= n < LIMIT
    ensures Unheader(Header(n)) == n
  {
    assert n / 0x100 == n / 0x10000 * 0x100 + n / 0x100 % 256 by { assert n / 0x100 / 0x100 == n / 0x10000; }
    assert n / 0x10000 == n / 0x1000000 * 0x100 + n / 0x10000 % 256 by { assert n / 0x10000 / 0x100 == n / 0x1000000; }
  }

  /* ---------- text and bytes ---------- */

  // `str.encode("utf-8")` on the ASCII text json.dumps produces.
  function ToBytes(t: Text): (b: Bytes)
    requires Ascii(t)
    ensures |b| == |t| && forall i :: 0 <= i < |t| ==> b[i] == t[i]
  {
    seq(|t|, i requires 0 <= i < |t| => t[i])
  }

  predicate Continuation(b: int) { 0x80 <= b < 0xC0 }

  // The six payload bits of a continuation byte.
  function Bits(b: int): int { b - 0x80 }

  /** `bytes.decode("utf-8")`: overlong forms, surrogates and anything past U+10FFFF are refused. */
  function Utf8(b: Bytes): Option<Text>
    decreases |b|
  {
    if b == [] then Some([])
    else if b[0] < 0x80 then Prepend(b[0], Utf8(b[1..]))
    else if 0xC2 <= b[0] < 0xE0 && |b| >= 2 && Continuation(b[1]) then
      Prepend(Bits(b[0] - 0x40) * 64 + Bits(b[1]), Utf8(b[2..]))
    else if 0xE0 <= b[0] < 0xF0 && |b| >= 3 && Continuation(b[1]) && Continuation(b[2]) then
      var c := Bits(b[0] - 0x60) * 4096 + Bits(b[1]) * 64 + Bits(b[2]);
      if c < 0x800 || High(c) || Low(c) then None else Prepend(c, Utf8(b[3..]))
    else if 0xF0 <= b[0] < 0xF5 && |b| >= 4 && Continuation(b[1]) && Continuation(b[2]) && Continuation(b[3]) then
      var c := Bits(b[0] - 0x70) * 262144 + Bits(b[1]) * 4096 + Bits(b[2]) * 64 + Bits(b[3]);
      if c < 0x10000 || c >= 0x110000 then None else Prepend(c, Utf8(b[4..]))
    else None
  }

  function Prepend(c: CodePoint, t: Option<Text>): Option<Text> {
    if t.None? then None else Some([c] + t.value)
  }

  lemma {:induction false} Utf8Ascii(t: Text)
    requires Ascii(t)
    ensures Utf8(ToBytes(t)) == Some(t)
  {
    if t != [] {
      Utf8Ascii(t[1..]);
      assert ToBytes(t)[1..] == ToBytes(t[1..]);
      HeadTail(t);
    }
  }

  /* ---------- json.dumps is printable ASCII ---------- */

  ghost predicate Printable(t: Text) { forall i :: 0 <= i < |t| ==> 32 <= t[i] < 127 }

  lemma {:induction false} PrintPrintable(j: Json)
    ensures Printable(Print(j))
    decreases j, 1
  {
    match j
    case JObj(ms) => MembersPrintable(ms);
    case _ =>
  }

  lemma {:induction false} MembersPrintable(ms: seq<Member>)
    ensures Printable(PrintMembers(ms))
    decreases ms, 0
  {
    if ms != [] {
      PrintPrintable(ms[0].value);
      hide Print, Escape;
      assert Printable(PrintMember(ms[0]));
      MembersPrintable(ms[1..]);
    }
  }

  lemma DumpsAscii(j: Json)
    ensures Ascii(Dumps(j))
  {
    PrintPrintable(SortKeys(j));
  }

  /* ---------- encode_json_frame / decode_json_frame ---------- */

  function Payload(j: Json): (b: Bytes)
    ensures |b| == |Dumps(j)| > 0
  {
    DumpsAscii(j);
    ToBytes(Dumps(j))
  }

  function EncodeFrame(j: Json, maximum: int): (r: Result<Bytes, BrokerErrorCode>)
    requires maximum < LIMIT
    ensures r.Ok? <==> |Dumps(j)| <= maximum
    ensures r.Ok? ==> |r.value| == 4 + |Dumps(j)| && r.value == Header(|Payload(j)|) + Payload(j)
    ensures r.Err? ==> r.error == MalformedClientRequest
  {
    if |Payload(j)| > maximum then Err(MalformedClientRequest)
    else Ok(Header(|Payload(j)|) + Payload(j))
  }

  // The members of the one JSON object in a frame; None is FramingError.
  function DecodeFrame(frame: Bytes, maximum: int): (r: Option<seq<Member>>)
    ensures r.Some? ==> 4 < |frame| <= 4 + maximum && Unheader(frame[..4]) == |frame| - 4
  {
    if |frame| < 4 then None
    else
      var length := Unheader(frame[..4]);
      if length == 0 || length > maximum || |frame| != 4 + length then None
      else
        match Utf8(frame[4..])
        case None => None
        case Some(text) =>
          match Loads(text)
          case None => None
          case Some(j) => if j.JObj? then Some(j.members) else None
  }

  // What a dict becomes between `encode_json_frame` and `decode_json_frame`.
  function Received(ms: seq<Member>): seq<Member> { JoinMembers(Sort(SortEach(ms))) }

  /** A frame that fits is decoded to the dict it was made from. */
  lemma DecodeEncodeFrame(ms: seq<Member>, maximum: int)
    requires maximum < LIMIT && Sound(JObj(ms)) && EncodeFrame(JObj(ms), maximum).Ok?
    ensures DecodeFrame(EncodeFrame(JObj(ms), maximum).value, maximum) == Some(Received(ms))
  {
    var j := JObj(ms);
    var payload := Payload(j);
    var frame := EncodeFrame(j, maximum).value;
    DumpsAscii(j);
    Utf8Ascii(Dumps(j));
    LoadsDumps(j);
    UnheaderHeader(|payload|);
    assert SortKeys(j) == JObj(Sort(SortEach(ms)));
    assert JoinJson(SortKeys(j)) == JObj(Received(ms));
    hide Loads, Dumps, Utf8, Unheader, Header, Received, SortKeys, JoinJson;
    assert frame[..4] == Header(|payload|) && frame[4..] == payload;
  }

  lemma FindMapped(a: seq<Member>, b: seq<Member>, key: Text, f: Json -> Json)
    requires |a| == |b| && forall i :: 0 <= i < |a| ==> b[i] == Member(a[i].key, f(a[i].value))
    ensures Find(b, key) == if Find(a, key).Some? then Some(f(Find(a, key).value)) else None
    ensures Keys(a) == Keys(b)
    ensures Distinct(a) <==> Distinct(b)
  {
    if a != [] && a[0].key != key { FindMapped(a[1..], b[1..], key, f); }
    forall k ensures k in Keys(a) <==> k in Keys(b) {
      if m :| m in a && m.key == k { var i :| 0 <= i < |a| && a[i] == m; assert b[i] in b; }
      if m :| m in b && m.key == k { var i :| 0 <= i < |b| && b[i] == m; assert a[i] in a; }
    }
  }

  /** Key by key, the dict that arrives holds the values that were sent, texts joined. */
  lemma ReceivedFind(ms: seq<Member>, key: Text)
    requires Sound(JObj(ms))
    ensures Find(Received(ms), key) ==
            if Find(ms, key).Some? then Some(JoinJson(SortKeys(Find(ms, key).value))) else None
    ensures Keys(Received(ms)) == Keys(ms) && Distinct(Received(ms))
  {
    SortSound(JObj(ms));
    var each := SortEach(ms);
    FindMapped(ms, each, key, SortKeys);
    SortDistinct(each);
    JoinKeys(Sort(each));
    FindMapped(Sort(each), Received(ms), key, JoinJson);
  }

  /* ---------- reading a frame from a socket ---------- */

  datatype ReadFault = EndOfStream | BadLength | TimedOut | Broken

  // What comes after the last byte to arrive: the peer closed, nothing more until the timeout, or an OSError.
  datatype Ending = Closed | Silent | Reset

  function EndingFault(e: Ending): ReadFault {
    match e
    case Closed => EndOfStream
    case Silent => TimedOut
    case Reset => Broken
  }

  // How a send can fail.
  datatype SendFault = SendTimedOut | SendBroken

  // What a complete read of `size` bytes gives on a stream that then ends.
  function ReadSpec(stream: Bytes, size: nat): Option<(Bytes, Bytes)> {
    if |stream| < size then None else Some((stream[..size], stream[size..]))
  }

  function ReceiveSpec(stream: Bytes, maximum: int): (r: Result<(Bytes, Bytes), ReadFault>)
    ensures r.Err? ==> r.error.EndOfStream? || r.error.BadLength?
  {
    match ReadSpec(stream, 4)
    case None => Err(EndOfStream)
    case Some((header, rest)) =>
      var size := Unheader(header);
      if size == 0 || size > maximum then Err(BadLength)
      else
        match ReadSpec(rest, size)
        case None => Err(EndOfStream)
        case Some((payload, left)) => Ok((header + payload, left))
  }

  /** A frame followed by anything is received whole, and nothing after it is consumed. */
  lemma ReceiveFrame(frame: Bytes, rest: Bytes, maximum: int)
    requires 4 < |frame| <= 4 + maximum && Unheader(frame[..4]) == |frame| - 4
    ensures ReceiveSpec(frame + rest, maximum) == Ok((frame, rest))
  {
    hide Unheader;
    assert (frame + rest)[..4] == frame[..4];
    assert (frame + rest)[4..][..|frame| - 4] == frame[4..];
    assert (frame + rest)[4..][|frame| - 4..] == rest;
    assert frame[..4] + frame[4..] == frame;
  }

  /** What is received is exactly a leading frame of an allowed length; the length is refused exactly when its four bytes are there
      and say nothing or too much; otherwise the stream ends too early. */
  lemma ReceiveIff(stream: Bytes, maximum: int)
    ensures forall frame, rest :: ReceiveSpec(stream, maximum) == Ok((frame, rest)) <==>
              stream == frame + rest && 4 < |frame| <= 4 + maximum && Unheader(frame[..4]) == |frame| - 4
    ensures ReceiveSpec(stream, maximum) == Err(BadLength) <==>
            |stream| >= 4 && (Unheader(stream[..4]) == 0 || Unheader(stream[..4]) > maximum)
    ensures ReceiveSpec(stream, maximum).Err? && ReceiveSpec(stream, maximum).error != BadLength ==>
              ReceiveSpec(stream, maximum).error == EndOfStream
  {
    hide Unheader;
    forall frame: Bytes, rest: Bytes | stream == frame + rest && 4 < |frame| <= 4 + maximum && Unheader(frame[..4]) == |frame| - 4
      ensures ReceiveSpec(stream, maximum) == Ok((frame, rest))
    {
      ReceiveFrame(frame, rest, maximum);
    }
    if ReceiveSpec(stream, maximum).Ok? { ReceivedLeads(stream, maximum); }
  }

  lemma ReceivedLeads(stream: Bytes, maximum: int)
    requires ReceiveSpec(stream, maximum).Ok?
    ensures var (frame, rest) := ReceiveSpec(stream, maximum).value;
            stream == frame + rest && 4 < |frame| <= 4 + maximum && Unheader(frame[..4]) == |frame| - 4
  {
    hide Unheader;
    var size := Unheader(stream[..4]);
    var payload := stream[4..][..size];
    assert stream == stream[..4] + (payload + stream[4..][size..]);
    assert (stream[..4] + payload)[..4] == stream[..4];
    Associate(stream[..4], payload, stream[4..][size..]);
  }

  // Whether a send of n bytes fails.
  function SendSpec(room: Option<(nat, SendFault)>, n: nat): Option<SendFault> {
    if room.Some? && room.value.0 < n then Some(room.value.1) else None
  }

  /** A stream that breaks off inside a frame never yields one. */
  lemma TruncatedFrame(frame: Bytes, k: nat, maximum: int)
    requires 4 < |frame| <= 4 + maximum && Unheader(frame[..4]) == |frame| - 4 && k < |frame|
    ensures ReceiveSpec(frame[..k], maximum) == Err(EndOfStream)
  {
    hide Unheader;
    if k >= 4 { assert frame[..k][..4] == frame[..4]; }
  }

  function Flatten(chunks: seq<Bytes>): Bytes {
    if chunks == [] then [] else chunks[0] + Flatten(chunks[1..])
  }

  /** One end of a socket: the chunks still to arrive and what follows them, what this end has sent, and how much more it
      can send before a send fails. */
  class Connection {
    var chunks: seq<Bytes>
    const ending: Ending
    var sent: Bytes
    var room: Option<(nat, SendFault)>

    ghost predicate Valid()
      reads this
    {
      forall i :: 0 <= i < |chunks| ==> chunks[i] != []
    }

    ghost function Stream(): Bytes
      reads this
    {
      Flatten(chunks)
    }

    constructor (incoming: seq<Bytes>, ending: Ending, room: Option<(nat, SendFault)>)
      requires forall i :: 0 <= i < |incoming| ==> incoming[i] != []
      ensures Valid() && chunks == incoming && this.ending == ending && sent == [] && this.room == room
    {
      chunks, this.ending, sent, this.room := incoming, ending, [], room;
    }

    /** `recv(limit)`: at most `limit` bytes of the next chunk; after the last one, empty bytes or an exception. */
    method Recv(limit: nat) returns (chunk: Bytes, fault: Option<ReadFault>)
      requires Valid() && limit > 0
      modifies this`chunks
      ensures Valid()
      ensures chunk == [] <==> old(Stream()) == []
      ensures |chunk| <= limit && old(Stream()) == chunk + Stream()
      ensures fault == if chunk == [] && !ending.Closed? then Some(EndingFault(ending)) else None
    {
      fault := None;
      if chunks == [] {
        chunk := [];
        fault := if ending.Closed? then None else Some(EndingFault(ending));
      } else if |chunks[0]| <= limit {
        chunk := chunks[0];
        chunks := chunks[1..];
      } else {
        chunk := chunks[0][..limit];
        ghost var tail := Flatten(chunks[1..]);
        assert chunks[0] + tail == chunk + (chunks[0][limit..] + tail);
        assert ([chunks[0][limit..]] + chunks[1..])[1..] == chunks[1..];
        chunks := [chunks[0][limit..]] + chunks[1..];
      }
    }

    /** `sendall(data)`: everything, or a first part and then an exception. */
    method SendAll(data: Bytes) returns (fault: Option<SendFault>)
      modifies this`sent, this`room
      ensures fault == SendSpec(old(room), |data|)
      ensures fault.None? ==> sent == old(sent) + data
      ensures fault.Some? ==> old(room).Some? && old(room).value.0 < |data| && sent == old(sent) + data[..old(room).value.0]
    {
      match room
      case None =>
        sent, fault := sent + data, None;
      case Some((left, f)) =>
        if |data| <= left {
          sent, room, fault := sent + data, Some((left - |data|, f)), None;
        } else {
          sent, room, fault := sent + data[..left], Some((0, f)), Some(f);
        }
    }

    /** `_read_exact`: the loop gives what the stream holds, however it was cut. */
    method ReadExact(size: nat) returns (r: Result<Bytes, ReadFault>)
      requires Valid()
      modifies this`chunks
      ensures Valid()
      ensures r.Ok? <==> ReadSpec(old(Stream()), size).Some?
      ensures r.Ok? ==> ReadSpec(old(Stream()), size) == Some((r.value, Stream()))
      ensures r.Err? ==> r.error == EndingFault(ending)
    {
      var data: Bytes := [];
      var remaining := size;
      while remaining > 0
        invariant Valid() && remaining >= 0 && |data| + remaining == size
        invariant old(Stream()) == data + Stream()
      {
        var chunk, fault := Recv(remaining);
        if fault.Some? { return Err(fault.value); }
        if chunk == [] { return Err(EndOfStream); }
        assert data + (chunk + Stream()) == (data + chunk) + Stream();
        data := data + chunk;
        remaining := remaining - |chunk|;
      }
      TakeDrop(data, Stream());
      return Ok(data);
    }

    /** `_receive_frame`. */
    method ReceiveFrame(maximum: int) returns (r: Result<Bytes, ReadFault>)
      requires Valid()
      modifies this`chunks
      ensures Valid()
      ensures match ReceiveSpec(old(Stream()), maximum)
              case Ok((frame, left)) => r == Ok(frame) && Stream() == left
              case Err(EndOfStream) => r == Err(EndingFault(ending))
              case Err(e) => r == Err(e)
    {
      var header := ReadExact(4);
      if header.Err? { return Err(header.error); }
      var size := Unheader(header.value);
      if size == 0 || size > maximum { return Err(BadLength); }
      var payload := ReadExact(size);
      if payload.Err? { return Err(payload.error); }
      return Ok(header.value + payload.value);
    }
  }
}
