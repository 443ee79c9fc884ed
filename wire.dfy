/**
 * The frame codec: an 8-byte header (opcode word, then payload-length word),
 * both sent little-endian whatever the host's own byte order.
 */
module Wire {

  /** An unsigned 8-bit value (`AL::uint8`). */
  type Byte = x: int | 0 <= x < 0x100
  /** An unsigned 32-bit value (`AL::uint32`). */
  type Word = x: int | 0 <= x < 0x1_0000_0000

  /** Opcode ordinals (the enum `OPCodes`). A received opcode may be any word. */
  const OpHandshake: Word := 0
  const OpFrame: Word := 1
  const OpClose: Word := 2
  const OpPing: Word := 3
  const OpPong: Word := 4

  const HeaderSize: nat := 8

  datatype PacketHeader = PacketHeader(opcode: Word, length: Word)

  /** The byte order of the machine the client runs on. */
  datatype Endianness = LittleEndian | BigEndian

  // ---- the wire contract, independent of any host ----

  /** The four bytes of `w`, least significant first. */
  function LittleEndianBytes(w: Word): (b: seq<Byte>)
    ensures |b| == 4
  {
    var q1 := w / 0x100;
    var q2 := q1 / 0x100;
    [w % 0x100, q1 % 0x100, q2 % 0x100, q2 / 0x100]
  }

  function LittleEndianWord(b: seq<Byte>): Word
    requires |b| == 4
  {
    b[0] as int + 0x100 * (b[1] as int + 0x100 * (b[2] as int + 0x100 * b[3] as int))
  }

  function EncodeHeader(h: PacketHeader): (b: seq<Byte>)
    ensures |b| == HeaderSize
  {
    LittleEndianBytes(h.opcode) + LittleEndianBytes(h.length)
  }

  function DecodeHeader(b: seq<Byte>): PacketHeader
    requires |b| == HeaderSize
  {
    PacketHeader(LittleEndianWord(b[..4]), LittleEndianWord(b[4..]))
  }

  lemma WordRoundTrip(w: Word)
    ensures LittleEndianWord(LittleEndianBytes(w)) == w
  {
    var q1 := w / 0x100;
    var q2 := q1 / 0x100;
    assert w == w % 0x100 + 0x100 * q1;
    assert q1 == q1 % 0x100 + 0x100 * q2;
    assert q2 == q2 % 0x100 + 0x100 * (q2 / 0x100);
  }

  lemma BytesRoundTrip(b: seq<Byte>)
    requires |b| == 4
    ensures LittleEndianBytes(LittleEndianWord(b)) == b
  {
    var q2 := b[2] as int + 0x100 * b[3] as int;
    var q1 := b[1] as int + 0x100 * q2;
    var w := b[0] as int + 0x100 * q1;
    assert w == LittleEndianWord(b);
    assert w / 0x100 == q1 && w % 0x100 == b[0];
    assert q1 / 0x100 == q2 && q1 % 0x100 == b[1];
    assert q2 / 0x100 == b[3] && q2 % 0x100 == b[2];
  }

  /** Decoding an encoded header gives back the same opcode and length. */
  lemma HeaderRoundTrip(h: PacketHeader)
    ensures DecodeHeader(EncodeHeader(h)) == h
  {
    var b := EncodeHeader(h);
    assert b[..4] == LittleEndianBytes(h.opcode);
    assert b[4..] == LittleEndianBytes(h.length);
    WordRoundTrip(h.opcode);
    WordRoundTrip(h.length);
  }

  /** Every 8 bytes are the encoding of the header they decode to. */
  lemma HeaderBytesRoundTrip(b: seq<Byte>)
    requires |b| == HeaderSize
    ensures EncodeHeader(DecodeHeader(b)) == b
  {
    BytesRoundTrip(b[..4]);
    BytesRoundTrip(b[4..]);
    assert b == b[..4] + b[4..];
  }

  // ---- what the C++ code does on a host of either byte order ----

  function Reverse4(b: seq<Byte>): (r: seq<Byte>)
    requires |b| == 4
    ensures |r| == 4
  {
    [b[3], b[2], b[1], b[0]]
  }

  /** Exchanges the first and last byte, and the two middle bytes, of a word. */
  function ByteSwap(w: Word): Word {
    LittleEndianWord(Reverse4(LittleEndianBytes(w)))
  }

  /** How a 32-bit word is laid out in memory on host `e`. */
  function HostBytes(e: Endianness, w: Word): (b: seq<Byte>)
    ensures |b| == 4
  {
    match e
    case LittleEndian => LittleEndianBytes(w)
    case BigEndian => Reverse4(LittleEndianBytes(w))
  }

  /** The word that 4 bytes of memory hold on host `e`. */
  function HostWord(e: Endianness, b: seq<Byte>): Word
    requires |b| == 4
  {
    match e
    case LittleEndian => LittleEndianWord(b)
    case BigEndian => LittleEndianWord(Reverse4(b))
  }

  /** `AL::BitConverter::ToLittleEndian`: identity on a little-endian host, a swap otherwise; either way the word's memory image is the little-endian encoding. */
  function ToLittleEndian(e: Endianness, w: Word): (r: Word)
    ensures HostBytes(e, r) == LittleEndianBytes(w)
  {
    if e == LittleEndian then w
    else
      var b := LittleEndianBytes(w);
      BytesRoundTrip(Reverse4(b));
      assert Reverse4(Reverse4(b)) == b;
      ByteSwap(w)
  }

  /** `AL::BitConverter::FromLittleEndian`: the value the word's memory image has when read as little-endian. */
  function FromLittleEndian(e: Endianness, w: Word): (r: Word)
    ensures r == LittleEndianWord(HostBytes(e, w))
  {
    if e == LittleEndian then WordRoundTrip(w); w else ByteSwap(w)
  }

  /** The memory image of the header struct the sender fills (DiscordRPC.hpp:482-486). */
  function HostHeaderBytes(e: Endianness, h: PacketHeader): (b: seq<Byte>)
    ensures |b| == HeaderSize
  {
    HostBytes(e, ToLittleEndian(e, h.opcode)) + HostBytes(e, ToLittleEndian(e, h.length))
  }

  /** The header the receiver reads out of 8 received bytes (DiscordRPC.hpp:537-538). */
  function HostHeader(e: Endianness, b: seq<Byte>): PacketHeader
    requires |b| == HeaderSize
  {
    PacketHeader(FromLittleEndian(e, HostWord(e, b[..4])), FromLittleEndian(e, HostWord(e, b[4..])))
  }

  lemma HostBytesWord(e: Endianness, b: seq<Byte>)
    requires |b| == 4
    ensures FromLittleEndian(e, HostWord(e, b)) == LittleEndianWord(b)
  {
    if e == BigEndian {
      var r := Reverse4(b);
      BytesRoundTrip(r);
      assert Reverse4(r) == b;
    }
  }

  /** On either host, the bytes put on the wire are the little-endian encoding. */
  lemma SendIsLittleEndian(e: Endianness, h: PacketHeader)
    ensures HostHeaderBytes(e, h) == EncodeHeader(h)
  {
  }

  /** On either host, the header read from the wire is the little-endian decoding. */
  lemma ReceiveIsLittleEndian(e: Endianness, b: seq<Byte>)
    requires |b| == HeaderSize
    ensures HostHeader(e, b) == DecodeHeader(b)
  {
    HostBytesWord(e, b[..4]);
    HostBytesWord(e, b[4..]);
  }

  /** A header sent from one host is read back unchanged by any host. */
  lemma HostRoundTrip(sender: Endianness, receiver: Endianness, h: PacketHeader)
    ensures HostHeader(receiver, HostHeaderBytes(sender, h)) == h
  {
    SendIsLittleEndian(sender, h);
    ReceiveIsLittleEndian(receiver, EncodeHeader(h));
    HeaderRoundTrip(h);
  }

  /** A payload length as the `AL::uint32 size` parameter receives it: truncated. */
  function TruncateToWord(n: nat): (w: Word)
    ensures n < 0x1_0000_0000 ==> w == n
    ensures w <= n && (n - w) % 0x1_0000_0000 == 0
  {
    n % 0x1_0000_0000
  }

  // ---- frames and byte streams ----

  datatype Frame = Frame(header: PacketHeader, payload: seq<Byte>)

  predicate WellFormed(f: Frame) {
    |f.payload| == f.header.length
  }

  function FrameBytes(f: Frame): seq<Byte> {
    EncodeHeader(f.header) + f.payload
  }

  /** The byte stream that carries the frames `fs`, one after the other. */
  function Stream(fs: seq<Frame>): seq<Byte>
    decreases |fs|
  {
    if fs == [] then [] else FrameBytes(fs[0]) + Stream(fs[1..])
  }

  /** The complete frames at the front of a byte stream, in order. */
  function SplitFrames(s: seq<Byte>): seq<Frame>
    decreases |s|
  {
    if |s| < HeaderSize then []
    else
      var h := DecodeHeader(s[..HeaderSize]);
      if |s| - HeaderSize < h.length then []
      else [Frame(h, s[HeaderSize..HeaderSize + h.length])] + SplitFrames(s[HeaderSize + h.length..])
  }

  /** A well-formed frame at the front of a stream is split off whole. */
  lemma SplitFront(f: Frame, tail: seq<Byte>)
    requires WellFormed(f)
    ensures SplitFrames(FrameBytes(f) + tail) == [f] + SplitFrames(tail)
  {
    var s := FrameBytes(f) + tail;
    var n := f.header.length;
    assert s[..HeaderSize] == EncodeHeader(f.header);
    HeaderRoundTrip(f.header);
    assert s[HeaderSize..HeaderSize + n] == f.payload;
    assert s[HeaderSize + n..] == tail;
  }

  /** Splitting a stream recovers the well-formed frames it was built from, in order. */
  lemma {:induction false} SplitStream(fs: seq<Frame>, rest: seq<Byte>)
    requires forall i :: 0 <= i < |fs| ==> WellFormed(fs[i])
    ensures SplitFrames(Stream(fs) + rest) == fs + SplitFrames(rest)
    decreases |fs|
  {
    if fs == [] {
      assert Stream(fs) + rest == rest;
    } else {
      var f, more := fs[0], fs[1..];
      var tail := Stream(more) + rest;
      assert FrameBytes(f) + Stream(more) + rest == FrameBytes(f) + tail;
      SplitFront(f, tail);
      assert forall i :: 0 <= i < |more| ==> WellFormed(more[i]) by {
        forall i | 0 <= i < |more| ensures WellFormed(more[i]) {
          assert more[i] == fs[i + 1];
        }
      }
      SplitStream(more, rest);
      assert [f] + (more + SplitFrames(rest)) == [f] + more + SplitFrames(rest);
      assert [f] + more == fs;
    }
  }
}
