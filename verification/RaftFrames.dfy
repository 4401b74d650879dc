/** Length-prefixed frames: four bytes of magic, four of size and eight of
    sequence, big-endian, then the manifest digest and the payload. */
module RaftFrames {
  import opened Prelude

  // ---------------------------------------------------- big-endian integers

  function Pow256(n: nat): (p: nat)
    ensures p >= 1
  {
    if n == 0 then 1 else 256 * Pow256(n - 1)
  }

  function Big(n: nat, width: nat): (bytes: seq<Byte>)
    ensures |bytes| == width
  {
    if width == 0 then [] else Big(n / 256, width - 1) + [n % 256]
  }

  function ReadBig(bytes: seq<Byte>): nat {
    if bytes == [] then 0 else 256 * ReadBig(bytes[..|bytes| - 1]) + bytes[|bytes| - 1]
  }

  lemma {:induction false} ReadOfBig(n: nat, width: nat)
    requires n < Pow256(width)
    ensures ReadBig(Big(n, width)) == n
    decreases width
  {
    if width > 0 {
      var bytes := Big(n, width);
      assert bytes[..width - 1] == Big(n / 256, width - 1);
      ReadOfBig(n / 256, width - 1);
    }
  }

  lemma {:induction false} BigOfRead(bytes: seq<Byte>)
    ensures ReadBig(bytes) < Pow256(|bytes|) && Big(ReadBig(bytes), |bytes|) == bytes
    decreases |bytes|
  {
    if bytes != [] {
      var front, last := bytes[..|bytes| - 1], bytes[|bytes| - 1];
      BigOfRead(front);
      assert ReadBig(bytes) / 256 == ReadBig(front) && ReadBig(bytes) % 256 == last;
      assert bytes == front + [last];
    }
  }

  /** What four and eight bytes can hold. */
  lemma Widths()
    ensures Pow256(4) == 0x1_0000_0000 && Pow256(8) == 0x1_0000_0000_0000_0000
  {
    assert Pow256(4) == 256 * Pow256(3) == 65536 * Pow256(2) == 16777216 * Pow256(1);
    assert Pow256(8) == 256 * Pow256(7) == 65536 * Pow256(6) == 16777216 * Pow256(5) == 0x1_0000_0000 * Pow256(4);
  }

  // ------------------------------------------------------------ the manifest

  predicate AllAscii(text: string) {
    forall i :: 0 <= i < |text| ==> text[i] as int < 128
  }

  function AsciiBytes(text: string): (bytes: seq<Byte>)
    requires AllAscii(text)
    ensures |bytes| == |text|
  {
    seq(|text|, i requires 0 <= i < |text| => text[i] as int)
  }

  /** Reading bytes as ASCII; bytes outside it are skipped. */
  function AsciiOf(bytes: seq<Byte>): (text: string)
    ensures |text| <= |bytes|
  {
    if bytes == [] then ""
    else AsciiOf(bytes[..|bytes| - 1]) + if bytes[|bytes| - 1] < 128 then [bytes[|bytes| - 1] as char] else ""
  }

  /** Skipping shortens the text, so a text as long as the bytes pins them all. */
  lemma {:induction false} AsciiPins(bytes: seq<Byte>, text: string)
    requires AllAscii(text) && |bytes| <= |text|
    ensures AsciiOf(bytes) == text <==> bytes == AsciiBytes(text)
    decreases |bytes|
  {
    if bytes != [] {
      var n := |bytes| - 1;
      var front := text[..|text| - 1];
      AsciiPins(bytes[..n], front);
      assert text == front + [text[|text| - 1]];
      assert bytes == bytes[..n] + [bytes[n]];
      assert AsciiBytes(text) == AsciiBytes(front) + [text[|text| - 1] as int];
      if AsciiOf(bytes) == text {
        assert |AsciiOf(bytes[..n])| <= n;
        assert AsciiOf(bytes)[..|text| - 1] == AsciiOf(bytes[..n]);
      }
      if bytes == AsciiBytes(text) {
        assert bytes[..n] == AsciiBytes(front);
      }
    }
  }

  // ------------------------------------------------------------------ frames

  datatype Fault = NotAscii | NotADigest | TooBig | DoesNotFit | Truncated | InvalidFrame | ManifestMismatch

  datatype Frame = Frame(sequence: int, payload: seq<Byte>)

  const Magic: seq<Byte> := [78, 80, 82, 49]
  const HeaderSize: nat := 16

  function Header(size: nat, sequence: nat): (bytes: seq<Byte>)
    ensures |bytes| == HeaderSize
  {
    Magic + Big(size, 4) + Big(sequence, 8)
  }

  function Encode(f: Frame, manifest: string, maxBytes: int): Result<seq<Byte>, Fault> {
    if !AllAscii(manifest) then Err(NotAscii)
    else if |manifest| != 64 then Err(NotADigest)
    else
      var body := AsciiBytes(manifest) + f.payload;
      if |body| > maxBytes then Err(TooBig)
      else if |body| >= 0x1_0000_0000 || f.sequence < 0 || f.sequence >= 0x1_0000_0000_0000_0000 then Err(DoesNotFit)
      else Ok(Header(|body|, f.sequence) + body)
  }

  function SizeIn(bytes: seq<Byte>): nat
    requires |bytes| >= HeaderSize
  {
    ReadBig(bytes[4..8])
  }

  function SequenceIn(bytes: seq<Byte>): nat
    requires |bytes| >= HeaderSize
  {
    ReadBig(bytes[8..16])
  }

  function Take(bytes: seq<Byte>, n: nat): seq<Byte> {
    if |bytes| <= n then bytes else bytes[..n]
  }

  function Decode(frame: seq<Byte>, manifest: string, maxBytes: int): Result<Frame, Fault> {
    if |frame| < HeaderSize then Err(Truncated)
    else if frame[..4] != Magic || SizeIn(frame) > maxBytes || |frame| != HeaderSize + SizeIn(frame) then Err(InvalidFrame)
    else
      var body := frame[HeaderSize..];
      if AsciiOf(Take(body, 64)) != manifest then Err(ManifestMismatch)
      else Ok(Frame(SequenceIn(frame), body[|Take(body, 64)|..]))
  }

  ghost predicate IsDigest(manifest: string) {
    AllAscii(manifest) && |manifest| == 64
  }

  lemma HeaderReads(bytes: seq<Byte>, size: nat, sequence: nat)
    requires |bytes| >= HeaderSize && size < 0x1_0000_0000 && sequence < 0x1_0000_0000_0000_0000
    ensures bytes[..HeaderSize] == Header(size, sequence) <==> bytes[..4] == Magic && SizeIn(bytes) == size && SequenceIn(bytes) == sequence
  {
    var h := Header(size, sequence);
    Widths();
    assert h[..4] == Magic && h[4..8] == Big(size, 4) && h[8..16] == Big(sequence, 8);
    ReadOfBig(size, 4);
    ReadOfBig(sequence, 8);
    BigOfRead(bytes[4..8]);
    BigOfRead(bytes[8..16]);
    assert bytes[..16] == bytes[..4] + bytes[4..8] + bytes[8..16];
    assert bytes[..16][..4] == bytes[..4] && bytes[..16][4..8] == bytes[4..8] && bytes[..16][8..16] == bytes[8..16];
  }

  lemma EncodedDecodes(f: Frame, manifest: string, maxBytes: int)
    requires Encode(f, manifest, maxBytes).Ok?
    ensures Decode(Encode(f, manifest, maxBytes).value, manifest, maxBytes) == Ok(f)
  {
    var body := AsciiBytes(manifest) + f.payload;
    var frame := Encode(f, manifest, maxBytes).value;
    assert frame[..HeaderSize] == Header(|body|, f.sequence) && frame[HeaderSize..] == body;
    HeaderReads(frame, |body|, f.sequence);
    assert Take(body, 64) == AsciiBytes(manifest);
    AsciiPins(Take(body, 64), manifest);
    assert body[64..] == f.payload;
  }

  lemma DecodedEncodes(frame: seq<Byte>, manifest: string, maxBytes: int)
    requires IsDigest(manifest) && Decode(frame, manifest, maxBytes).Ok?
    ensures Encode(Decode(frame, manifest, maxBytes).value, manifest, maxBytes) == Ok(frame)
  {
    var f := Decode(frame, manifest, maxBytes).value;
    var body := frame[HeaderSize..];
    AsciiPins(Take(body, 64), manifest);
    assert Take(body, 64) == AsciiBytes(manifest);
    assert body == AsciiBytes(manifest) + f.payload;
    Widths();
    BigOfRead(frame[4..8]);
    BigOfRead(frame[8..16]);
    HeaderReads(frame, |body|, f.sequence);
    assert frame == frame[..HeaderSize] + body;
  }

  /** For a digest of 64 ASCII characters, decoding accepts a byte string as a
      frame exactly when encoding that frame produces it. */
  lemma DecodeIffEncode(bytes: seq<Byte>, f: Frame, manifest: string, maxBytes: int)
    requires IsDigest(manifest)
    ensures Decode(bytes, manifest, maxBytes) == Ok(f) <==> Encode(f, manifest, maxBytes) == Ok(bytes)
  {
    if Decode(bytes, manifest, maxBytes) == Ok(f) { DecodedEncodes(bytes, manifest, maxBytes); }
    if Encode(f, manifest, maxBytes) == Ok(bytes) { EncodedDecodes(f, manifest, maxBytes); }
  }

  // ------------------------------------------------------------------ streams

  /** The frames at the front of a stream, one after the other. */
  function FramesIn(bytes: seq<Byte>, manifest: string, maxBytes: int): seq<Frame>
    decreases |bytes|
  {
    if |bytes| < HeaderSize || |bytes| < HeaderSize + SizeIn(bytes) then []
    else
      var n := HeaderSize + SizeIn(bytes);
      match Decode(bytes[..n], manifest, maxBytes)
      case Err(_) => []
      case Ok(f) => [f] + FramesIn(bytes[n..], manifest, maxBytes)
  }

  ghost predicate Sendable(fs: seq<Frame>, manifest: string, maxBytes: int) {
    forall i :: 0 <= i < |fs| ==> Encode(fs[i], manifest, maxBytes).Ok?
  }

  function Wire(fs: seq<Frame>, manifest: string, maxBytes: int): seq<Byte>
    requires Sendable(fs, manifest, maxBytes)
  {
    if fs == [] then [] else Encode(fs[0], manifest, maxBytes).value + Wire(fs[1..], manifest, maxBytes)
  }

  ghost predicate Starts(bytes: seq<Byte>, fs: seq<Frame>, manifest: string, maxBytes: int) {
    Sendable(fs, manifest, maxBytes) && Wire(fs, manifest, maxBytes) <= bytes
  }

  /** An encoded frame in front of a stream is read off it whole. */
  lemma EncodedIsFirst(f: Frame, rest: seq<Byte>, manifest: string, maxBytes: int)
    requires Encode(f, manifest, maxBytes).Ok?
    ensures var e := Encode(f, manifest, maxBytes).value;
            FramesIn(e + rest, manifest, maxBytes) == [f] + FramesIn(rest, manifest, maxBytes)
  {
    var e := Encode(f, manifest, maxBytes).value;
    EncodedDecodes(f, manifest, maxBytes);
    var bytes := e + rest;
    assert bytes[4..8] == e[4..8];
    assert bytes[..|e|] == e && bytes[|e|..] == rest;
  }

  lemma {:induction false} FramesAreSent(bytes: seq<Byte>, manifest: string, maxBytes: int)
    requires IsDigest(manifest)
    ensures Starts(bytes, FramesIn(bytes, manifest, maxBytes), manifest, maxBytes)
    decreases |bytes|
  {
    var fs := FramesIn(bytes, manifest, maxBytes);
    if fs != [] {
      var n := HeaderSize + SizeIn(bytes);
      DecodedEncodes(bytes[..n], manifest, maxBytes);
      FramesAreSent(bytes[n..], manifest, maxBytes);
      assert fs[1..] == FramesIn(bytes[n..], manifest, maxBytes);
      assert bytes == bytes[..n] + bytes[n..];
    }
  }

  lemma {:induction false} SentAreFrames(bytes: seq<Byte>, fs: seq<Frame>, manifest: string, maxBytes: int)
    requires Starts(bytes, fs, manifest, maxBytes)
    ensures fs <= FramesIn(bytes, manifest, maxBytes)
    decreases |fs|
  {
    if fs != [] {
      var e := Encode(fs[0], manifest, maxBytes).value;
      var rest := bytes[|e|..];
      var wire := Wire(fs, manifest, maxBytes);
      assert bytes[..|wire|] == wire && wire[..|e|] == e;
      assert bytes == e + rest;
      assert wire == e + Wire(fs[1..], manifest, maxBytes);
      assert Wire(fs[1..], manifest, maxBytes) <= rest;
      SentAreFrames(rest, fs[1..], manifest, maxBytes);
      EncodedIsFirst(fs[0], rest, manifest, maxBytes);
    }
  }

  /** What is read off a stream is its longest prefix of well-formed frames: it
      is such a prefix, and every such prefix is part of it. */
  lemma LongestFramePrefix(bytes: seq<Byte>, fs: seq<Frame>, manifest: string, maxBytes: int)
    requires IsDigest(manifest)
    ensures Starts(bytes, FramesIn(bytes, manifest, maxBytes), manifest, maxBytes)
    ensures Starts(bytes, fs, manifest, maxBytes) ==> fs <= FramesIn(bytes, manifest, maxBytes)
  {
    FramesAreSent(bytes, manifest, maxBytes);
    if Starts(bytes, fs, manifest, maxBytes) { SentAreFrames(bytes, fs, manifest, maxBytes); }
  }

  // ------------------------------------------------------------- the receiver

  /** A connected socket: the bytes still to come, and how many of them each
      call of `recv` happens to find. */
  class Socket {
    var incoming: seq<Byte>
    var arrivals: seq<nat>

    constructor (incoming: seq<Byte>, arrivals: seq<nat>)
      ensures this.incoming == incoming
    {
      this.incoming, this.arrivals := incoming, arrivals;
    }

    /** At least one byte and at most `size`, or nothing at the end of the stream. */
    method Receive(size: nat) returns (chunk: seq<Byte>)
      modifies this
      ensures old(incoming) == chunk + incoming && |chunk| <= size
      ensures size > 0 && old(incoming) != [] ==> chunk != []
    {
      var n := if arrivals == [] || arrivals[0] == 0 then 1 else arrivals[0];
      arrivals := if arrivals == [] then [] else arrivals[1..];
      n := if n > size then size else n;
      n := if n > |incoming| then |incoming| else n;
      chunk := incoming[..n];
      incoming := incoming[n..];
    }

    /** Exactly `size` bytes, or None if the stream ends before; independent of the chunks. */
    method ReadExact(size: nat) returns (data: Option<seq<Byte>>)
      modifies this
      ensures data.Some? <==> size <= |old(incoming)|
      ensures data.Some? ==> data.value == old(incoming)[..size] && incoming == old(incoming)[size..]
      ensures data.None? ==> incoming == []
    {
      var got: seq<Byte> := [];
      while |got| < size
        invariant |got| <= size && got + incoming == old(incoming)
        decreases size - |got|
      {
        var chunk := Receive(size - |got|);
        if chunk == [] { return None; }
        got := got + chunk;
      }
      return Some(got);
    }
  }

  /** Serves one connection until it ends, a frame is refused, or the server is
      told to stop after `stopAfter` frames. */
  method Connection(socket: Socket, manifest: string, maxBytes: int, stopAfter: Option<nat>) returns (delivered: seq<Frame>)
    modifies socket
    ensures var all := FramesIn(old(socket.incoming), manifest, maxBytes);
            delivered == if stopAfter.Some? && stopAfter.value < |all| then all[..stopAfter.value] else all
  {
    delivered := [];
    ghost var all := FramesIn(socket.incoming, manifest, maxBytes);
    while stopAfter.None? || |delivered| < stopAfter.value
      invariant delivered + FramesIn(socket.incoming, manifest, maxBytes) == all
      invariant stopAfter.Some? ==> |delivered| <= stopAfter.value
      decreases |socket.incoming|
    {
      ghost var rest := socket.incoming;
      var header := socket.ReadExact(HeaderSize);
      if header.None? { break; }
      var size := SizeIn(header.value);
      assert rest[4..8] == header.value[4..8];
      var body := socket.ReadExact(size);
      if body.None? { break; }
      assert header.value + body.value == rest[..HeaderSize + size];
      assert rest[HeaderSize..][size..] == rest[HeaderSize + size..];
      var frame := Decode(header.value + body.value, manifest, maxBytes);
      if frame.Err? { break; }
      delivered := delivered + [frame.value];
    }
  }
}
