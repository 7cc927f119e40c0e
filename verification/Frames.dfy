/** ByteWriter and ByteReader: the loops behind the little-endian primitives. */
module Buffers {
  import opened Foundation
  import opened Wire

  const MAX_WRITER: nat := 0x1000_0000

  /** A right shift by whole bytes. */
  function Shifted(v: nat, bytes: nat): nat { if bytes == 0 then v else Shifted(v / 256, bytes - 1) }

  lemma {:induction false} LELast(n: nat, v: nat)
    ensures LE(n + 1, v) == LE(n, v) + [Shifted(v, n) % 256] && |LE(n, v)| == n
  {
    if n > 0 { LELast(n - 1, v / 256); }
  }

  lemma {:induction false} FromLELast(s: seq<byte>, b: byte)
    ensures FromLE(s + [b]) == FromLE(s) + b * Pow256(|s|)
  {
    if s == [] {
      assert s + [b] == [b];
      assert FromLE([b]) == b + 256 * FromLE([b][1..]);
    } else {
      FromLELast(s[1..], b);
      assert (s + [b])[1..] == s[1..] + [b];
      assert 256 * (b * Pow256(|s| - 1)) == b * (256 * Pow256(|s| - 1));
    }
  }

  /** Bounded little-endian writer; the first failure sticks. */
  class ByteWriter {
    var data: seq<byte>
    var ok: bool

    constructor ()
      ensures data == [] && ok
    {
      data, ok := [], true;
    }

    method U8(value: byte)
      modifies this
      ensures ok == (old(ok) && |old(data)| + 1 <= MAX_WRITER)
      ensures ok ==> data == old(data) + [value]
    {
      if !ok { return; }
      if |data| + 1 > MAX_WRITER {
        ok := false;
        return;
      }
      data := data + [value];
    }

    /** u16, u32 and u64 differ only in width. */
    method Number(width: nat, value: nat)
      requires width > 0
      modifies this
      ensures ok == (old(ok) && |old(data)| + width <= MAX_WRITER)
      ensures ok ==> data == old(data) + LE(width, value)
    {
      for index := 0 to width
        invariant index > 0 ==> ok == (old(ok) && |old(data)| + index <= MAX_WRITER)
        invariant index == 0 ==> ok == old(ok)
        invariant ok ==> data == old(data) + LE(index, value) && |data| == |old(data)| + index
      {
        LELast(index, value);
        U8(Shifted(value, index) % 256);
      }
    }

    method Text(value: Text)
      modifies this
      ensures ok == (old(ok) && |value| <= MAX_TEXT && |old(data)| + 4 + |value| <= MAX_WRITER)
      ensures ok ==> Some(data) == Prepend(old(data), PutText(value, Some([])))
    {
      if !ok { return; }
      if |value| > MAX_TEXT {
        ok := false;
        return;
      }
      Number(4, |value|);
      LELast(4, |value|);
      hide LE;
      assert old(data) + LE(4, |value|) + value == old(data) + (LE(4, |value|) + (value + []));
      assert value == [] ==> data + value == data;
      if !ok || value == [] { return; }
      if |data| + |value| > MAX_WRITER {
        ok := false;
        return;
      }
      data := data + value;
    }
  }

  /** A read either takes what the specification takes or fails for good. */
  predicate Follows<T(==)>(was: bool, expected: Read<T>, result: Option<T>, ok: bool, rest: seq<byte>) {
    if was && expected.Got? then result == Some(expected.value) && ok && rest == expected.rest
    else result.None? && !ok
  }

  class ByteReader {
    const data: seq<byte>
    var position: nat
    var ok: bool

    ghost predicate Valid()
      reads this
    {
      position <= |data|
    }

    function Rest(): seq<byte>
      requires Valid()
      reads this
    {
      data[position..]
    }

    constructor (bytes: seq<byte>)
      ensures Valid() && ok && data == bytes && position == 0
    {
      data, position, ok := bytes, 0, true;
    }

    method U8() returns (r: Option<byte>)
      requires Valid()
      modifies this
      ensures Valid() && Follows(old(ok), GetU8(old(Rest())), r, ok, Rest())
      ensures ok ==> position == old(position) + 1
    {
      if !ok || position == |data| {
        ok := false;
        return None;
      }
      r := Some(data[position]);
      position := position + 1;
    }

    /** Bytes are shifted into disjoint positions, so the source's bitwise or is an addition. */
    method Number(width: nat) returns (r: Option<nat>)
      requires Valid() && width > 0
      modifies this
      ensures Valid() && Follows(old(ok), GetLE(width, old(Rest())), r, ok, Rest())
      ensures ok ==> position == old(position) + width
    {
      var value := 0;
      for index := 0 to width
        invariant Valid() && ok == old(ok) && (index > 0 ==> ok)
        invariant ok ==> position == old(position) + index && value == FromLE(data[old(position)..position])
      {
        var b := U8();
        if b.None? { return None; }
        FromLELast(data[old(position)..position - 1], b.value);
        assert data[old(position)..position] == data[old(position)..position - 1] + [b.value];
        value := value + b.value * Pow256(index);
      }
      r := Some(value);
      assert old(Rest())[..width] == data[old(position)..position];
    }

    method Text() returns (r: Option<Text>)
      requires Valid()
      modifies this
      ensures Valid() && Follows(old(ok), GetText(old(Rest())), r, ok, Rest())
    {
      var length := Number(4);
      if length.None? { return None; }
      Widths();
      LEIsOnto(data[old(position)..position]);
      assert old(Rest())[..4] == data[old(position)..position];
      hide FromLE; hide LE; hide Pow256;
      ghost var rest := Rest();
      assert GetU32(old(Rest())) == Got(length.value, rest);
      if length.value > MAX_TEXT || length.value > |data| - position {
        ok := false;
        return None;
      }
      r := Some(data[position..position + length.value]);
      assert data[position..position + length.value] == rest[..length.value];
      position := position + length.value;
      assert Rest() == rest[length.value..];
    }
  }
}

/** Length-delimited frames with a checksum over the header and the payload. */
module Frames {
  import opened Foundation
  import opened Wire
  import opened Octets
  import opened Crc
  import opened Buffers

  const MAGIC: u32 := 0x31465043
  const VERSION: nat := 1
  const HEADER: nat := 28
  const MAX_TYPE: nat := 16
  const ABSOLUTE_MAX: nat := 0x100_0000

  type u16 = n: nat | n < 0x1_0000

  datatype Frame = Frame(kind: u16, flags: u32, sequence: u64, payload: seq<byte>)

  datatype Status =
    | TruncatedHeader | BadMagic | UnsupportedVersion | UnknownMessage | OversizedFrame | TruncatedPayload
    | ChecksumMismatch

  datatype Delivery = Delivered(frame: Frame, consumed: nat) | Bad(status: Status)

  function Bound(max: u32): nat { if max > ABSOLUTE_MAX then ABSOLUTE_MAX else max }

  /** The type is narrowed to eight bits before it is compared. */
  predicate TypePasses(kind: nat) { kind % 256 <= MAX_TYPE }

  /** The 24 bytes in front of the checksum. */
  function Head(f: Frame): seq<byte> {
    LE(4, MAGIC) + LE(2, VERSION) + LE(2, f.kind) + LE(4, f.flags) + LE(8, f.sequence) + LE(4, |f.payload|)
  }

  function EncodeFrame(f: Frame, max: u32): seq<byte> {
    if |f.payload| > Bound(max) then [] else Head(f) + Bytes(Checksum(Head(f) + f.payload)) + f.payload
  }

  function Sum(b: seq<byte>, length: nat): bv32
    requires HEADER + length <= |b|
  {
    Xor(Fold(Fold(0xFFFFFFFF, b[..24]), b[HEADER..HEADER + length]), 0xFFFFFFFF)
  }

  function DecodeFrame(b: seq<byte>, max: u32): Delivery {
    if |b| < HEADER then Bad(TruncatedHeader)
    else if FromLE(b[..4]) != MAGIC then Bad(BadMagic)
    else if FromLE(b[4..6]) != VERSION then Bad(UnsupportedVersion)
    else if !TypePasses(FromLE(b[6..8])) then Bad(UnknownMessage)
    else
      var length := FromLE(b[20..24]);
      if length > Bound(max) then Bad(OversizedFrame)
      else if length > |b| - HEADER then Bad(TruncatedPayload)
      else if Sum(b, length) != Word(b[24..HEADER]) then Bad(ChecksumMismatch)
      else
        HeaderRanges(b);
        Delivered(
          Frame(FromLE(b[6..8]), FromLE(b[8..12]), FromLE(b[12..20]), b[HEADER..HEADER + length]), HEADER + length)
  }

  lemma HeaderRanges(b: seq<byte>)
    requires |b| >= HEADER
    ensures FromLE(b[6..8]) < 0x1_0000 && FromLE(b[8..12]) <= MAX_U32 && FromLE(b[12..20]) <= MAX_U64
  {
    Widths();
    hide FromLE; hide LE; hide Pow256;
    LEIsOnto(b[6..8]); LEIsOnto(b[8..12]); LEIsOnto(b[12..20]);
  }

  // ---- round trip ------------------------------------------------------------------------

  lemma HeadFields(f: Frame)
    requires |f.payload| <= ABSOLUTE_MAX
    ensures var h := Head(f);
      && |h| == 24 && FromLE(h[..4]) == MAGIC && FromLE(h[4..6]) == VERSION && FromLE(h[6..8]) == f.kind
      && FromLE(h[8..12]) == f.flags && FromLE(h[12..20]) == f.sequence && FromLE(h[20..24]) == |f.payload|
  {
    Widths();
    hide LE; hide FromLE; hide Pow256;
    LEInverts(4, MAGIC); LEInverts(2, VERSION); LEInverts(2, f.kind);
    LEInverts(4, f.flags); LEInverts(8, f.sequence); LEInverts(4, |f.payload|);
    var h := Head(f);
    assert h[..4] == LE(4, MAGIC) && h[4..6] == LE(2, VERSION) && h[6..8] == LE(2, f.kind);
    assert h[8..12] == LE(4, f.flags) && h[12..20] == LE(8, f.sequence) && h[20..24] == LE(4, |f.payload|);
  }

  lemma EncodedSum(f: Frame, max: u32, rest: seq<byte>)
    requires |f.payload| <= Bound(max) && |Head(f)| == 24
    ensures var b := EncodeFrame(f, max) + rest;
      && |b| == HEADER + |f.payload| + |rest| && b[..24] == Head(f)
      && b[HEADER..HEADER + |f.payload|] == f.payload && b[HEADER + |f.payload|..] == rest
      && Sum(b, |f.payload|) == Word(b[24..HEADER])
  {
    hide Fold; hide Word; hide Bytes; hide Xor; hide Head;
    var b := EncodeFrame(f, max) + rest;
    var sum := Bytes(Checksum(Head(f) + f.payload));
    assert b[..24] == Head(f) && b[24..HEADER] == sum && b[HEADER..HEADER + |f.payload|] == f.payload;
    assert b[HEADER + |f.payload|..] == rest;
    WordOfBytes(Checksum(Head(f) + f.payload));
    FoldConcat(0xFFFFFFFF, Head(f), f.payload);
  }

  lemma SlicesOfHead(b: seq<byte>, h: seq<byte>)
    requires |b| >= 24 && b[..24] == h
    ensures b[..4] == h[..4] && b[4..6] == h[4..6] && b[6..8] == h[6..8]
    ensures b[8..12] == h[8..12] && b[12..20] == h[12..20] && b[20..24] == h[20..24]
  {}

  /** A frame in front of anything is delivered unchanged, if and only if its type passes the truncated test. */
  lemma FrameRoundTrip(f: Frame, max: u32, rest: seq<byte>)
    requires |f.payload| <= Bound(max)
    ensures DecodeFrame(EncodeFrame(f, max) + rest, max)
      == if TypePasses(f.kind) then Delivered(f, HEADER + |f.payload|) else Bad(UnknownMessage)
  {
    HeadFields(f);
    hide LE; hide FromLE; hide Word; hide Head; hide Sum; hide EncodeFrame; hide TypePasses;
    EncodedSum(f, max, rest);
    SlicesOfHead(EncodeFrame(f, max) + rest, Head(f));
  }

  /** Every frame begins with "CPF1" and version 1. */
  lemma FrameBegins(f: Frame)
    ensures |Head(f)| >= 6 && Head(f)[..6] == [0x43, 0x50, 0x46, 0x31, 1, 0]
  {
    assert LE(4, MAGIC) == [0x43, 0x50, 0x46, 0x31] by {
      assert LE(3, 0x314650) == [0x50, 0x46, 0x31] by { assert LE(2, 0x3146) == [0x46, 0x31]; }
    }
    assert LE(2, VERSION) == [1, 0];
  }

  lemma LowByte(b: seq<byte>)
    requires |b| == 2
    ensures FromLE(b) % 256 == b[0]
  {
    assert FromLE(b) == b[0] + 256 * FromLE(b[1..]);
  }

  /** Each rejection says what is wrong with the bytes; what has no fault is delivered. */
  lemma RejectionsAreTruthful(b: seq<byte>, max: u32)
    requires DecodeFrame(b, max).Bad?
    ensures var length := if |b| < 28 then 0 else FromLE(b[20..24]);
      match DecodeFrame(b, max).status
      case TruncatedHeader => |b| < 28
      case BadMagic => |b| >= 28 && FromLE(b[..4]) != 0x31465043
      case UnsupportedVersion => |b| >= 28 && FromLE(b[4..6]) != 1
      case UnknownMessage => |b| >= 28 && b[6] > 16
      case OversizedFrame => |b| >= 28 && (length > 0x100_0000 || length > max)
      case TruncatedPayload => |b| >= 28 && |b| < 28 + length
      case ChecksumMismatch =>
        |b| >= 28 + length && Bytes(Checksum(b[..24] + b[28..28 + length])) != b[24..28]
  {
    hide FromLE; hide Word; hide Bytes; hide Fold; hide Xor;
    if |b| >= 28 {
      LowByte(b[6..8]);
      var length := FromLE(b[20..24]);
      if 28 + length <= |b| {
        FoldConcat(0xFFFFFFFF, b[..24], b[28..28 + length]);
        WordOfBytes(Checksum(b[..24] + b[28..28 + length]));
      }
    }
  }

  /** A frame of an undeclared type is let through exactly if the low byte of its type is declared. */
  lemma UndeclaredTypePasses(f: Frame, max: u32)
    requires f.kind > MAX_TYPE && |f.payload| <= Bound(max)
    ensures DecodeFrame(EncodeFrame(f, max), max) == Delivered(f, HEADER + |f.payload|) <==> f.kind % 256 <= MAX_TYPE
    ensures DecodeFrame(EncodeFrame(f, max), max) != Delivered(f, HEADER + |f.payload|) ==>
      DecodeFrame(EncodeFrame(f, max), max) == Bad(UnknownMessage)
  {
    hide EncodeFrame; hide DecodeFrame;
    FrameRoundTrip(f, max, []);
    assert EncodeFrame(f, max) + [] == EncodeFrame(f, max);
  }

  // ---- streams ---------------------------------------------------------------------------

  predicate Sendable(f: Frame, max: u32) { |f.payload| <= Bound(max) && TypePasses(f.kind) }

  function Stream(frames: seq<Frame>, max: u32): seq<byte> {
    if frames == [] then [] else EncodeFrame(frames[0], max) + Stream(frames[1..], max)
  }

  /** Decodes n frames one after the other, each from where the one before it ended. */
  function Receive(b: seq<byte>, n: nat, max: u32): Option<(seq<Frame>, seq<byte>)>
    decreases n
  {
    if n == 0 then Some(([], b))
    else
      match DecodeFrame(b, max)
      case Bad(_) => None
      case Delivered(f, consumed) =>
        match Receive(b[consumed..], n - 1, max)
        case None => None
        case Some(more) => Some(([f] + more.0, more.1))
  }

  lemma {:induction false} StreamRoundTrip(frames: seq<Frame>, max: u32, rest: seq<byte>)
    requires forall f | f in frames :: Sendable(f, max)
    ensures Receive(Stream(frames, max) + rest, |frames|, max) == Some((frames, rest))
  {
    if frames == [] {
      assert Stream(frames, max) + rest == rest;
    } else {
      hide EncodeFrame; hide DecodeFrame; hide TypePasses;
      var f, later := frames[0], Stream(frames[1..], max) + rest;
      Associates(EncodeFrame(f, max), Stream(frames[1..], max), rest);
      assert Sendable(f, max);
      StreamRoundTrip(frames[1..], max, rest);
      hide Stream; hide Sendable;
      assert frames == [f] + frames[1..];
      FrameThenMore(f, max, later, |frames|);
    }
  }

  lemma Associates(a: seq<byte>, b: seq<byte>, c: seq<byte>)
    ensures (a + b) + c == a + (b + c) && a + [] == a
  {}

  lemma FrameThenMore(f: Frame, max: u32, later: seq<byte>, n: nat)
    requires Sendable(f, max) && n > 0 && Receive(later, n - 1, max).Some?
    ensures Receive(EncodeFrame(f, max) + later, n, max)
      == Some(([f] + Receive(later, n - 1, max).value.0, Receive(later, n - 1, max).value.1))
  {
    hide EncodeFrame; hide DecodeFrame; hide TypePasses;
    FrameRoundTrip(f, max, later);
    Consumed(f, max, later);
  }

  lemma Consumed(f: Frame, max: u32, later: seq<byte>)
    requires |f.payload| <= Bound(max)
    ensures |EncodeFrame(f, max)| == HEADER + |f.payload|
    ensures (EncodeFrame(f, max) + later)[HEADER + |f.payload|..] == later
  {
    HeadFields(f);
    hide LE; hide FromLE; hide Bytes; hide Head;
  }

  // ---- corruption ------------------------------------------------------------------------

  lemma HeadDiffers(b: seq<byte>, at: nat, value: byte, length: nat)
    requires HEADER + length <= |b| && at < 24 && b[at] != value
    ensures Sum(b, length) != Sum(b[at := value], length)
  {
    hide Fold; hide Xor;
    var c := b[at := value];
    assert c[..24] == b[..24][at := value] && c[HEADER..HEADER + length] == b[HEADER..HEADER + length];
    ReplacedByteShows(0xFFFFFFFF, b[..24], at, value);
    var x, y := Fold(0xFFFFFFFF, b[..24]), Fold(0xFFFFFFFF, c[..24]);
    if Sum(b, length) == Sum(c, length) {
      XorCancelsRight(Fold(x, b[HEADER..HEADER + length]), Fold(y, b[HEADER..HEADER + length]), 0xFFFFFFFF);
      FoldIsInjective(x, y, b[HEADER..HEADER + length]);
    }
  }

  lemma PayloadDiffers(b: seq<byte>, at: nat, value: byte, length: nat)
    requires HEADER <= at < HEADER + length <= |b| && b[at] != value
    ensures Sum(b, length) != Sum(b[at := value], length)
  {
    hide Fold; hide Xor;
    var c := b[at := value];
    var p := b[HEADER..HEADER + length];
    assert c[..24] == b[..24] && c[HEADER..HEADER + length] == p[at - HEADER := value];
    var x := Fold(0xFFFFFFFF, b[..24]);
    ReplacedByteShows(x, p, at - HEADER, value);
    if Sum(b, length) == Sum(c, length) {
      XorCancelsRight(Fold(x, p), Fold(x, c[HEADER..HEADER + length]), 0xFFFFFFFF);
    }
  }

  lemma SumFieldDiffers(b: seq<byte>, at: nat, value: byte, length: nat)
    requires 24 <= at < HEADER && HEADER + length <= |b| && b[at] != value
    ensures Sum(b, length) == Sum(b[at := value], length)
    ensures Word(b[24..HEADER]) != Word(b[at := value][24..HEADER])
  {
    hide Fold; hide Xor; hide Word;
    var c := b[at := value];
    assert c[..24] == b[..24] && c[HEADER..HEADER + length] == b[HEADER..HEADER + length];
    assert b[24..HEADER][at - 24] != c[24..HEADER][at - 24];
    if Word(b[24..HEADER]) == Word(c[24..HEADER]) { WordIsInjective(b[24..HEADER], c[24..HEADER]); }
  }

  /** A one-byte change of a deliverable frame, outside its length field, is always rejected. */
  lemma CorruptFrameIsRejected(b: seq<byte>, max: u32, at: nat, value: byte)
    requires DecodeFrame(b, max).Delivered? && at < DecodeFrame(b, max).consumed
    requires b[at] != value && !(20 <= at < 24)
    ensures DecodeFrame(b[at := value], max).Bad?
  {
    hide FromLE; hide Sum; hide Word;
    var c := b[at := value];
    var length := FromLE(b[20..24]);
    assert c[20..24] == b[20..24];
    if at < 24 {
      HeadDiffers(b, at, value, length);
      assert c[24..HEADER] == b[24..HEADER];
    } else if at < HEADER {
      SumFieldDiffers(b, at, value, length);
    } else {
      PayloadDiffers(b, at, value, length);
      assert c[24..HEADER] == b[24..HEADER];
    }
  }

  // ---- the loops -------------------------------------------------------------------------

  method WriteHead(f: Frame) returns (head: seq<byte>)
    requires |f.payload| <= ABSOLUTE_MAX
    ensures head == Head(f)
  {
    LELast(4, MAGIC); LELast(2, VERSION); LELast(2, f.kind);
    LELast(4, f.flags); LELast(8, f.sequence); LELast(4, |f.payload|);
    hide LE;
    var header := new ByteWriter();
    header.Number(4, MAGIC);
    assert header.data == LE(4, MAGIC);
    header.Number(2, VERSION);
    header.Number(2, f.kind);
    assert header.ok && |header.data| == 8;
    header.Number(4, f.flags);
    header.Number(8, f.sequence);
    assert header.ok && |header.data| == 20;
    header.Number(4, |f.payload|);
    head := header.data;
  }

  /** encode_frame: the checksum is inserted between the header and the payload. */
  method WriteFrame(table: array<bv32>, f: Frame, max: u32) returns (frame: seq<byte>)
    requires IsTable(table)
    ensures frame == EncodeFrame(f, max)
  {
    if |f.payload| > Bound(max) { return []; }
    HeadFields(f);
    hide LE; hide FromLE; hide Checksum; hide Bytes; hide Head; hide IsTable;
    var head := WriteHead(f);
    frame := head + f.payload;
    var checksum := Crc32(table, frame);
    assert frame[..HEADER - 4] == head && frame[HEADER - 4..] == f.payload;
    frame := frame[..HEADER - 4] + Bytes(checksum) + frame[HEADER - 4..];
  }

  /** One header field; the length was checked before. */
  method Field(reader: ByteReader, width: nat) returns (v: nat)
    requires reader.Valid() && reader.ok && 0 < width <= |reader.data| - reader.position
    modifies reader
    ensures reader.Valid() && reader.ok && reader.position == old(reader.position) + width
    ensures v == FromLE(reader.data[old(reader.position)..reader.position])
  {
    hide FromLE;
    ghost var at := reader.position;
    assert reader.data[at..][..width] == reader.data[at..at + width];
    var r := reader.Number(width);
    v := r.value;
  }

  datatype Fields = Fields(
    magic: nat, version: nat, kind: nat, flags: nat, sequence: nat, length: nat, position: nat)

  /** The header fields, read in order; the checksum is compared as the word its four bytes form. */
  method ReadHead(bytes: seq<byte>) returns (f: Fields)
    requires |bytes| >= HEADER
    ensures f.magic == FromLE(bytes[0..4]) && f.version == FromLE(bytes[4..6]) && f.kind == FromLE(bytes[6..8])
    ensures f.flags == FromLE(bytes[8..12]) && f.sequence == FromLE(bytes[12..20]) && f.length == FromLE(bytes[20..24])
    ensures f.position == HEADER
  {
    hide FromLE;
    var reader := new ByteReader(bytes);
    var magic := Field(reader, 4);
    var version := Field(reader, 2);
    var kind := Field(reader, 2);
    var flags := Field(reader, 4);
    var sequence := Field(reader, 8);
    var length := Field(reader, 4);
    var _ := Field(reader, 4);
    f := Fields(magic, version, kind, flags, sequence, length, reader.position);
  }

  method ReadFrame(table: array<bv32>, bytes: seq<byte>, max: u32) returns (r: Delivery)
    requires IsTable(table)
    ensures r == DecodeFrame(bytes, max)
  {
    hide FromLE; hide Fold; hide Word; hide Xor; hide TypePasses; hide IsTable;
    if |bytes| < HEADER { return Bad(TruncatedHeader); }
    var f := ReadHead(bytes);
    assert bytes[0..4] == bytes[..4];
    if f.magic != MAGIC { return Bad(BadMagic); }
    if f.version != VERSION { return Bad(UnsupportedVersion); }
    if !TypePasses(f.kind) { return Bad(UnknownMessage); }
    if f.length > Bound(max) { return Bad(OversizedFrame); }
    if f.length > |bytes| - f.position { return Bad(TruncatedPayload); }
    var computed := Extend(table, 0xFFFFFFFF, bytes[..HEADER - 4]);
    computed := Extend(table, computed, bytes[HEADER..HEADER + f.length]);
    if Xor(computed, 0xFFFFFFFF) != Word(bytes[HEADER - 4..HEADER]) { return Bad(ChecksumMismatch); }
    HeaderRanges(bytes);
    r := Delivered(Frame(f.kind, f.flags, f.sequence, bytes[HEADER..HEADER + f.length]), HEADER + f.length);
  }
}
