/** Frames of the Source RCON protocol as the delivery function builds and
    reads them: a little-endian int32 size (4 + 4 + body length + 2), a
    little-endian int32 request id, a little-endian int32 packet type, the
    body bytes, and two NUL bytes. */
module RconCodec {
  import opened Common
  import opened Text

  const ServerDataAuth := 3
  const ServerDataExecCommand := 2

  /** The id a server answers an authentication request with when it refuses the password. */
  const AuthFailedId := -1

  const Two31 := 0x8000_0000
  const Two32 := 0x1_0000_0000

  predicate IsInt32(v: int)
  {
    -Two31 <= v < Two31
  }

  /** ECMAScript ToInt32: the value modulo 2^32, read back as a signed 32-bit number. */
  function WrapInt32(v: int): (r: int)
    ensures IsInt32(r)
    ensures (v - r) % Two32 == 0
    ensures IsInt32(v) ==> r == v
  {
    var u := v % Two32;
    if u >= Two31 then u - Two32 else u
  }

  /** The four bytes DataView.setInt32(offset, v, true) stores, least significant first. */
  function Int32Le(v: int): (r: seq<byte>)
    ensures |r| == 4
  {
    var u := v % Two32;
    var q1 := u / 256;
    var q2 := q1 / 256;
    var q3 := q2 / 256;
    [(u % 256) as byte, (q1 % 256) as byte, (q2 % 256) as byte, q3 as byte]
  }

  /** DataView.getInt32(offset, true). */
  function GetInt32Le(b: seq<byte>, offset: nat): int
    requires offset + 4 <= |b|
  {
    var u := b[offset] as int + 256 * (b[offset + 1] as int + 256 * (b[offset + 2] as int + 256 * b[offset + 3] as int));
    if u >= Two31 then u - Two32 else u
  }

  lemma Int32LeRoundTrip(v: int, b: seq<byte>, offset: nat)
    requires offset + 4 <= |b| && b[offset..offset + 4] == Int32Le(v)
    ensures GetInt32Le(b, offset) == WrapInt32(v)
  {
    var u := v % Two32;
    var q1 := u / 256;
    var q2 := q1 / 256;
    var q3 := q2 / 256;
    assert b[offset] == Int32Le(v)[0] && b[offset + 1] == Int32Le(v)[1];
    assert b[offset + 2] == Int32Le(v)[2] && b[offset + 3] == Int32Le(v)[3];
    assert u == u % 256 + 256 * q1;
    assert q1 == q1 % 256 + 256 * q2;
    assert q2 == q2 % 256 + 256 * q3;
  }

  /** The bytes of a frame with the given id, type and body. */
  function Frame(id: int, kind: int, body: seq<byte>): seq<byte>
  {
    Int32Le(10 + |body|) + Int32Le(id) + Int32Le(kind) + body + [0, 0]
  }

  /** Where each field of a frame sits. */
  lemma FrameLayout(id: int, kind: int, body: seq<byte>)
    requires 10 + |body| < Two31
    ensures var f := Frame(id, kind, body);
      && |f| == 14 + |body|
      && GetInt32Le(f, 0) == 10 + |body|
      && GetInt32Le(f, 4) == WrapInt32(id)
      && GetInt32Le(f, 8) == WrapInt32(kind)
      && f[12..12 + |body|] == body
      && f[|f| - 2] == 0 && f[|f| - 1] == 0
  {
    var f := Frame(id, kind, body);
    assert f[0..4] == Int32Le(10 + |body|);
    assert f[4..8] == Int32Le(id);
    assert f[8..12] == Int32Le(kind);
    Int32LeRoundTrip(10 + |body|, f, 0);
    Int32LeRoundTrip(id, f, 4);
    Int32LeRoundTrip(kind, f, 8);
  }

  // ------------------------------------------------------------- encoding

  /** DataView.setInt32(offset, v, true) on a buffer. */
  method SetInt32(buffer: array<byte>, offset: nat, v: int)
    requires offset + 4 <= buffer.Length
    modifies buffer
    ensures buffer[offset..offset + 4] == Int32Le(v)
    ensures forall k :: 0 <= k < buffer.Length && !(offset <= k < offset + 4) ==> buffer[k] == old(buffer[k])
  {
    var bytes := Int32Le(v);
    buffer[offset] := bytes[0];
    buffer[offset + 1] := bytes[1];
    buffer[offset + 2] := bytes[2];
    buffer[offset + 3] := bytes[3];
  }

  /** The three setInt32 calls of createPacket: size, id and type. */
  method WriteHeader(buffer: array<byte>, size: int, id: int, kind: int)
    requires 12 <= buffer.Length
    modifies buffer
    ensures buffer[..12] == Int32Le(size) + Int32Le(id) + Int32Le(kind)
    ensures buffer[12..] == old(buffer[12..])
  {
    SetInt32(buffer, 0, size);
    ghost var first := buffer[0..4];
    SetInt32(buffer, 4, id);
    assert buffer[0..4] == first;
    ghost var second := buffer[4..8];
    SetInt32(buffer, 8, kind);
    assert buffer[0..4] == first && buffer[4..8] == second;
    assert buffer[..12] == buffer[0..4] + buffer[4..8] + buffer[8..12];
  }

  /** The copy loop of createPacket: the body bytes go in after the header. */
  method CopyBody(buffer: array<byte>, bodyBytes: seq<byte>)
    requires buffer.Length == 12 + |bodyBytes|
    modifies buffer
    ensures buffer[..12] == old(buffer[..12])
    ensures buffer[12..] == bodyBytes
  {
    var i := 0;
    while i < |bodyBytes|
      invariant 0 <= i <= |bodyBytes|
      invariant buffer[..12] == old(buffer[..12])
      invariant buffer[12..12 + i] == bodyBytes[..i]
    {
      buffer[12 + i] := bodyBytes[i];
      i := i + 1;
      assert buffer[12..12 + i] == buffer[12..12 + i - 1] + [bodyBytes[i - 1]];
    }
    assert buffer[12..] == buffer[12..12 + i];
  }

  /** createPacket: fills a zeroed buffer with the size, id and type
      fields and copies in the UTF-8 bytes of the body followed by two NULs. */
  method CreatePacket(id: int, kind: int, body: string) returns (buffer: array<byte>)
    ensures buffer[..] == Frame(id, kind, Utf8(body))
  {
    var bodyBytes := Utf8(body + "\0\0");
    Utf8Append(body, "\0\0");
    assert bodyBytes == Utf8(body) + [0, 0];
    var size := 4 + 4 + |bodyBytes|;
    buffer := new byte[4 + size](_ => 0);
    WriteHeader(buffer, size, id, kind);
    CopyBody(buffer, bodyBytes);
    assert buffer[..] == buffer[..12] + buffer[12..];
    assert size == 10 + |Utf8(body)|;
  }

  // ------------------------------------------------------------- decoding

  datatype Packet = Packet(id: int, kind: int, body: seq<byte>)

  /** Why reading a frame threw. */
  datatype ReadError =
    | NegativeLength   // new Uint8Array(size) with a negative size
    | StreamEnded      // the peer sent fewer bytes than the frame needs
    | ShortPacket      // getInt32 beyond a packet of fewer than 8 bytes

  /** readPacket on the bytes the peer sends: it reads the size, then that
      many bytes, takes the id and type from the first eight, and the body
      from the rest minus the last two bytes (slice(8, -2)). Returns the
      packet and the bytes that follow it. */
  function ReadPacket(stream: seq<byte>): (r: Result<(Packet, seq<byte>), ReadError>)
    ensures r.Ok? ==> |r.value.1| + 12 <= |stream| && r.value.1 == stream[|stream| - |r.value.1|..]
  {
    if |stream| < 4 then Err(StreamEnded)
    else
      var size := GetInt32Le(stream, 0);
      if size < 0 then Err(NegativeLength)
      else if |stream| - 4 < size then Err(StreamEnded)
      else if size < 8 then Err(ShortPacket)
      else
        var p := stream[4..4 + size];
        var body := if size >= 10 then p[8..size - 2] else [];
        Ok((Packet(GetInt32Le(p, 0), GetInt32Le(p, 4), body), stream[4 + size..]))
  }

  /** Decoding an encoded frame gives back its id, type and body, and leaves
      whatever the peer sent after it. */
  lemma {:induction false} FrameRoundTrip(id: int, kind: int, body: seq<byte>, rest: seq<byte>)
    requires IsInt32(id) && IsInt32(kind) && 10 + |body| < Two31
    ensures ReadPacket(Frame(id, kind, body) + rest) == Ok((Packet(id, kind, body), rest))
  {
    var f := Frame(id, kind, body);
    var s := f + rest;
    FrameLayout(id, kind, body);
    var size := 10 + |body|;
    assert s[0..4] == f[0..4];
    Int32LeRoundTrip(size, s, 0);
    var p := s[4..4 + size];
    assert p == f[4..];
    assert p[0..4] == Int32Le(id);
    assert p[4..8] == Int32Le(kind);
    Int32LeRoundTrip(id, p, 0);
    Int32LeRoundTrip(kind, p, 4);
    assert p[8..size - 2] == body;
    assert s[4 + size..] == rest;
  }

  /** A frame whose size field is 8 or 9 decodes to an empty body: slice(8, -2)
      clamps to nothing rather than failing. */
  lemma ShortBodyIsEmpty(stream: seq<byte>)
    requires |stream| >= 4
    requires GetInt32Le(stream, 0) in {8, 9} && |stream| >= 4 + GetInt32Le(stream, 0)
    ensures ReadPacket(stream).Ok? && ReadPacket(stream).value.0.body == []
  {
  }
}
