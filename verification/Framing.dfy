/**
 Stream openings (wire/src/lib.rs, waserver/src/protocol.rs): the type byte, the
 length-prefixed preamble, and what the host reads of them however the bytes arrive.
 JSON is an abstract encoding that decoding undoes.
 */
module Framing {
  import opened Prelude

  const MAX_MESSAGE_LEN: nat := 65536

  datatype Json<!M> = Json(encode: M -> seq<byte>, decode: seq<byte> -> Option<M>)

  ghost predicate Invertible<M(!new)>(json: Json<M>) {
    forall m :: json.decode(json.encode(m)) == Some(m)
  }

  datatype FrameError = UnexpectedEof | TooLong(length: nat) | NotJson

  /** The codecs of the two preambles: an app id, and a host with a port. */
  datatype Codecs = Codecs(app: Json<string>, tunnel: Json<(string, nat)>)

  /** What a guest opens a stream for. */
  datatype Opening = Control | ToApp(appId: string) | ToTarget(host: string, port: nat)

  /** What the host makes of the first bytes of a stream. */
  datatype Reading =
    | NoByte
    | UnknownType(raw: byte)
    | ControlStream
    | AppStream(preamble: Result<string, FrameError>)
    | TunnelStream(target: Result<(string, nat), FrameError>)

  //-- Specification on the whole byte sequence -------------------------------------

  function BigEndian(n: nat): (r: seq<byte>)
    requires n < 0x1_0000_0000
    ensures |r| == 4
  {
    [n / 0x100_0000, n / 0x1_0000 % 256, n / 256 % 256, n % 256]
  }

  function FromBigEndian(b: seq<byte>): (n: nat)
    requires |b| == 4
  {
    var hi: int, mid: int, low: int, last: int := b[0], b[1], b[2], b[3];
    hi * 0x100_0000 + mid * 0x1_0000 + low * 256 + last
  }

  function Framed(body: seq<byte>): (r: seq<byte>)
    requires |body| < 0x1_0000_0000
  {
    BigEndian(|body|) + body
  }

  /** The message at the front of `all` and what is left unread after it. */
  function MessageIn<M>(json: Json<M>, all: seq<byte>): (r: (Result<M, FrameError>, seq<byte>)) {
    if |all| < 4 then (Err(UnexpectedEof), [])
    else
      var length := FromBigEndian(all[..4]);
      if length > MAX_MESSAGE_LEN then (Err(TooLong(length)), all[4..])
      else if |all| < 4 + length then (Err(UnexpectedEof), [])
      else
        (match json.decode(all[4..4 + length])
         case Some(m) => Ok(m)
         case None => Err(NotJson), all[4 + length..])
  }

  function ReadingOf(c: Codecs, all: seq<byte>): (r: (Reading, seq<byte>)) {
    if all == [] then (NoByte, [])
    else if all[0] == 0 then
      var m := MessageIn(c.app, all[1..]);
      (AppStream(m.0), m.1)
    else if all[0] == 1 then (ControlStream, all[1..])
    else if all[0] == 2 then
      var m := MessageIn(c.tunnel, all[1..]);
      (TunnelStream(m.0), m.1)
    else (UnknownType(all[0]), all[1..])
  }

  function TypeByte(o: Opening): byte {
    match o
    case ToApp(_) => 0
    case Control => 1
    case ToTarget(_, _) => 2
  }

  /** The preamble's JSON bytes. */
  function Body(c: Codecs, o: Opening): seq<byte> {
    match o
    case Control => []
    case ToApp(appId) => c.app.encode(appId)
    case ToTarget(host, port) => c.tunnel.encode((host, port))
  }

  function Written(c: Codecs, o: Opening): (r: seq<byte>)
    requires |Body(c, o)| < 0x1_0000_0000
  {
    [TypeByte(o)] + (if o.Control? then [] else Framed(Body(c, o)))
  }

  lemma BigEndianRoundTrip(n: nat)
    requires n < 0x1_0000_0000
    ensures FromBigEndian(BigEndian(n)) == n
  {
    assert n / 0x1_0000 == n / 256 / 256 && n / 0x100_0000 == n / 0x1_0000 / 256;
  }

  lemma FramedReads<M(!new)>(json: Json<M>, m: M, raw: seq<byte>)
    requires Invertible(json) && |json.encode(m)| < 0x1_0000_0000
    ensures MessageIn(json, Framed(json.encode(m)) + raw) ==
            if |json.encode(m)| <= MAX_MESSAGE_LEN then (Ok(m), raw)
            else (Err(TooLong(|json.encode(m)|)), json.encode(m) + raw)
  {
    var body := json.encode(m);
    var all := Framed(body) + raw;
    BigEndianRoundTrip(|body|);
    hide BigEndian, FromBigEndian;
    assert all[..4] == BigEndian(|body|);
    assert all[4..] == body + raw;
    if |body| <= MAX_MESSAGE_LEN {
      assert all[4..4 + |body|] == body && all[4 + |body|..] == raw;
    }
  }

  /** What the host reads when the preamble fits. */
  function Understood(o: Opening): Reading {
    match o
    case Control => ControlStream
    case ToApp(appId) => AppStream(Ok(appId))
    case ToTarget(host, port) => TunnelStream(Ok((host, port)))
  }

  /**
   An opening followed by any raw bytes is read as itself, leaving exactly those bytes,
   exactly if its preamble takes at most 65536 bytes; a longer one is refused unread.
   */
  lemma OpeningRoundTrip(c: Codecs, o: Opening, raw: seq<byte>)
    requires Invertible(c.app) && Invertible(c.tunnel) && |Body(c, o)| < 0x1_0000_0000
    ensures ReadingOf(c, Written(c, o) + raw) == (Understood(o), raw) <==> |Body(c, o)| <= MAX_MESSAGE_LEN
    ensures |Body(c, o)| > MAX_MESSAGE_LEN ==>
              var r := ReadingOf(c, Written(c, o) + raw);
              && r.1 == Body(c, o) + raw
              && (r.0 == AppStream(Err(TooLong(|Body(c, o)|))) || r.0 == TunnelStream(Err(TooLong(|Body(c, o)|))))
  {
    hide MessageIn, Framed, Invertible;
    var all := Written(c, o) + raw;
    match o {
      case Control =>
        assert all[1..] == raw;
      case ToApp(appId) =>
        assert all[1..] == Framed(Body(c, o)) + raw;
        FramedReads(c.app, appId, raw);
      case ToTarget(host, port) =>
        assert all[1..] == Framed(Body(c, o)) + raw;
        FramedReads(c.tunnel, (host, port), raw);
    }
  }

  /** The bytes on the wire: the stream's type, then the length, most significant byte first, then the JSON. */
  lemma OnTheWire(c: Codecs, appId: string, host: string, port: nat)
    requires |Body(c, ToApp(appId))| == 0x01020304 && |Body(c, ToTarget(host, port))| == 5
    ensures Written(c, Control) == [0x01]
    ensures Written(c, ToApp(appId)) == [0x00, 1, 2, 3, 4] + c.app.encode(appId)
    ensures Written(c, ToTarget(host, port)) == [0x02, 0, 0, 0, 5] + c.tunnel.encode((host, port))
  {
    assert BigEndian(0x01020304) == [1, 2, 3, 4] && BigEndian(5) == [0, 0, 0, 5];
  }

  //-- The guest's side ----------------------------------------------------------------

  class Sink {
    var written: seq<byte>

    method WriteAll(bytes: seq<byte>)
      modifies this
      ensures written == old(written) + bytes
    {
      written := written + bytes;
    }

    method WriteMessage<M>(json: Json<M>, m: M)
      requires |json.encode(m)| < 0x1_0000_0000
      modifies this
      ensures written == old(written) + Framed(json.encode(m))
    {
      var bytes := json.encode(m);
      WriteAll(BigEndian(|bytes|));
      WriteAll(bytes);
    }

    method Open(c: Codecs, o: Opening)
      requires |Body(c, o)| < 0x1_0000_0000
      modifies this
      ensures written == old(written) + Written(c, o)
    {
      hide Framed;
      WriteAll([TypeByte(o)]);
      match o {
        case Control =>
        case ToApp(appId) => WriteMessage(c.app, appId);
        case ToTarget(host, port) => WriteMessage(c.tunnel, (host, port));
      }
    }
  }

  //-- The host's side -----------------------------------------------------------------

  /** A stream whose bytes arrive in chunks of any size. */
  class Source {
    var chunks: seq<seq<byte>>

    function Left(): seq<byte>
      reads this
    {
      Flatten(chunks)
    }

    /** `read_exact`: `None` at the end of the stream, with everything consumed. */
    method ReadExact(n: nat) returns (r: Option<seq<byte>>)
      modifies this
      ensures |old(Left())| >= n ==> r == Some(old(Left())[..n]) && Left() == old(Left())[n..]
      ensures |old(Left())| < n ==> r.None? && Left() == []
    {
      ghost var all := Left();
      var buffer: seq<byte> := [];
      while |buffer| < n && chunks != []
        invariant |buffer| <= n
        invariant buffer + Left() == all
        decreases |chunks|, if chunks == [] then 0 else |chunks[0]|
      {
        var head, need := chunks[0], n - |buffer|;
        assert Left() == head + Flatten(chunks[1..]);
        if |head| <= need {
          buffer := buffer + head;
          chunks := chunks[1..];
        } else {
          buffer := buffer + head[..need];
          chunks := [head[need..]] + chunks[1..];
          assert Left() == head[need..] + Flatten(chunks[1..]);
        }
      }
      if |buffer| < n {
        return None;
      }
      assert all[..n] == buffer && all[n..] == Left();
      r := Some(buffer);
    }

    method ReadMessage<M>(json: Json<M>) returns (r: Result<M, FrameError>)
      modifies this
      ensures (r, Left()) == MessageIn(json, old(Left()))
    {
      hide FromBigEndian;
      ghost var all := Left();
      var header := ReadExact(4);
      if header.None? {
        return Err(UnexpectedEof);
      }
      var length := FromBigEndian(header.value);
      if length > MAX_MESSAGE_LEN {
        return Err(TooLong(length));
      }
      var body := ReadExact(length);
      if body.None? {
        return Err(UnexpectedEof);
      }
      assert all[4..][..length] == all[4..4 + length] && all[4..][length..] == all[4 + length..];
      match json.decode(body.value)
      case Some(m) => r := Ok(m);
      case None => r := Err(NotJson);
    }

    /** What the stream opens with, the same for every chunking of its bytes. */
    method ReadOpening(c: Codecs) returns (r: Reading)
      modifies this
      ensures (r, Left()) == ReadingOf(c, old(Left()))
    {
      hide MessageIn;
      var first := ReadExact(1);
      if first.None? {
        return NoByte;
      }
      var b := first.value[0];
      if b == 0 {
        var preamble := ReadMessage(c.app);
        r := AppStream(preamble);
      } else if b == 1 {
        r := ControlStream;
      } else if b == 2 {
        var target := ReadMessage(c.tunnel);
        r := TunnelStream(target);
      } else {
        r := UnknownType(b);
      }
    }
  }
}
