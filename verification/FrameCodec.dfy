/** The WebSocket frame codec: sections 5.2, 5.3 and 5.5.1 of RFC 6455. */
module FrameCodec {
  import opened Octets
  import opened Optional
  import opened Sizes

  datatype FrameType = Text | Binary | Close | Ping | Pong

  datatype Frame = Frame(kind: FrameType, final: bool, masked: bool, payload: seq<byte>)

  type MaskKey = key: seq<byte> | |key| == 4 witness [0, 0, 0, 0]

  const LIMIT: nat := 0x8000_0000_0000_0000

  function Opcode(kind: FrameType): (code: byte)
    ensures code < 16 && KindOf(code) == Some(kind)
  {
    match kind
    case Text => 0x01
    case Binary => 0x02
    case Close => 0x08
    case Ping => 0x09
    case Pong => 0x0A
  }

  function KindOf(opcode: byte): (kind: Option<FrameType>)
  {
    if opcode == 0x01 then Some(Text)
    else if opcode == 0x02 then Some(Binary)
    else if opcode == 0x08 then Some(Close)
    else if opcode == 0x09 then Some(Ping)
    else if opcode == 0x0A then Some(Pong)
    else None
  }

  predicate IsControl(kind: FrameType) {
    kind == Close || kind == Ping || kind == Pong
  }

  /** `isValidClosePayload` */
  predicate ValidClosePayload(payload: seq<byte>) {
    if payload == [] then true
    else if |payload| == 1 then false
    else
      var code := FromBigEndian(payload[..2]);
      && code >= 1000
      && code !in {1004, 1005, 1006, 1015}
      && !(1016 <= code <= 2999)
  }

  // ---------------------------------------------------------------- encoding

  /** The seven-bit length, or the marker for an extended length. */
  function Marker(n: nat): (m: nat)
    ensures m < 128
  {
    if n < 126 then n else if n <= 0xFFFF then 126 else 127
  }

  function Extension(n: nat): seq<byte> {
    if n < 126 then [] else if n <= 0xFFFF then BigEndian(n, 2) else BigEndian(n, 8)
  }

  function MaskBit(masked: bool): byte {
    if masked then 0x80 else 0x00
  }

  /** The seven low bits of a byte, which hold the reserved bits and the opcode, or the length. */
  function Low(b: byte): (n: nat)
    ensures n < 128
  {
    if b >= 0x80 then b - 0x80 else b
  }

  function Applied(payload: seq<byte>, key: MaskKey): (r: seq<byte>)
    ensures |r| == |payload| && forall i :: 0 <= i < |r| ==> r[i] == Xor(payload[i], key[i % 4])
  {
    seq(|payload|, i requires 0 <= i < |payload| => Xor(payload[i], key[i % 4]))
  }

  function Body(payload: seq<byte>, mask: Option<MaskKey>): seq<byte> {
    match mask
    case None => payload
    case Some(key) => key + Applied(payload, key)
  }

  function Head(kind: FrameType, n: nat, masked: bool): seq<byte> {
    [0x80 + Opcode(kind), MaskBit(masked) + Marker(n)] + Extension(n)
  }

  /** The bytes of a final frame. */
  function Encode(payload: seq<byte>, kind: FrameType, mask: Option<MaskKey>): seq<byte> {
    Head(kind, |payload|, mask.Some?) + Body(payload, mask)
  }

  /** `frameHeaderSize` */
  function HeaderSize(n: nat, masked: bool): nat {
    2 + (if 126 <= n <= 0xFFFF then 2 else if n > 0xFFFF then 8 else 0) + (if masked then 4 else 0)
  }

  lemma EncodedSize(payload: seq<byte>, kind: FrameType, mask: Option<MaskKey>)
    ensures |Encode(payload, kind, mask)| == HeaderSize(|payload|, mask.Some?) + |payload|
  {
  }

  // ---------------------------------------------------------------- decoding

  /** Payload length and the offset behind the length field, with no check of the value; `None` if cut short. */
  function ReadLength(data: seq<byte>): (r: Option<(nat, nat)>)
    requires |data| >= 2
    ensures r.Some? ==> 2 <= r.value.1 <= |data| && r.value.1 <= 10
  {
    var marker := Low(data[1]);
    if marker == 126 then
      if |data| < 4 then None else Some((FromBigEndian(data[2..4]), 4))
    else if marker == 127 then
      if |data| < 10 then None else Some((FromBigEndian(data[2..10]), 10))
    else Some((marker, 2))
  }

  predicate IsMasked(data: seq<byte>)
    requires |data| >= 2
  {
    data[1] >= 0x80
  }

  /** Where the payload begins. */
  function HeaderSizeOf(data: seq<byte>): nat
    requires |data| >= 2 && ReadLength(data).Some?
  {
    ReadLength(data).value.1 + if IsMasked(data) then 4 else 0
  }

  /** `getFrameSize`: the size of the first frame, a 64-bit sum, or zero while the frame is incomplete. */
  function FrameSize(data: seq<byte>): (size: nat)
    ensures size <= |data|
  {
    if |data| < 2 || ReadLength(data).None? then 0
    else
      var size := Sum64(HeaderSizeOf(data), ReadLength(data).value.0);
      if |data| < size then 0 else size
  }

  /** The length field exceeds a 64-bit size together with the header. */
  predicate SizeWraps(data: seq<byte>) {
    |data| >= 2 && ReadLength(data).Some? && HeaderSizeOf(data) + ReadLength(data).value.0 >= WORD
  }

  /** The extended forms must be needed for the length, which must be below 2^63. */
  predicate Minimal(marker: nat, n: nat) {
    && (marker == 126 ==> n >= 126)
    && (marker == 127 ==> 0xFFFF < n < LIMIT)
  }

  /** `decodeFrame` */
  function Decode(data: seq<byte>): Option<Frame> {
    if |data| < 2 then None
    else
      var final := data[0] >= 0x80;
      // Below 16 no reserved bit is set and the seven low bits are the opcode.
      var kind := KindOf(Low(data[0]));
      if Low(data[0]) >= 16 || kind.None? || ReadLength(data).None? then None
      else
        var (n, offset) := ReadLength(data).value;
        var body := offset + if IsMasked(data) then 4 else 0;
        if !Minimal(Low(data[1]), n) || (IsControl(kind.value) && (!final || n > 125)) || |data| < body ||
          n > |data| - body then None
        else
          var raw := data[body..body + n];
          var payload := if IsMasked(data) then Applied(raw, data[offset..body]) else raw;
          if kind.value == Close && !ValidClosePayload(payload) then None
          else Some(Frame(kind.value, final, IsMasked(data), payload))
  }

  // ---------------------------------------------------------------- the length field

  lemma Powers()
    ensures Pow256(2) == 0x1_0000 && Pow256(8) == 0x1_0000_0000_0000_0000
  {
    assert Pow256(4) == 0x1_0000_0000;
    assert Pow256(8) == 256 * Pow256(7) && Pow256(7) == 256 * Pow256(6) && Pow256(6) == 256 * Pow256(5);
  }

  /** Data that starts with a frame head, as far as the length is concerned. */
  lemma ReadLengthOf(data: seq<byte>, kind: FrameType, n: nat, masked: bool)
    requires n < LIMIT && Head(kind, n, masked) <= data
    ensures ReadLength(data) == Some((n, 2 + |Extension(n)|))
    ensures IsMasked(data) == masked && Minimal(Low(data[1]), n)
    ensures data[0] == 0x80 + Opcode(kind)
  {
    var head := Head(kind, n, masked);
    Powers();
    assert data[0] == head[0] && data[1] == head[1];
    assert data[2..2 + |Extension(n)|] == Extension(n);
    hide Pow256; hide BigEndian; hide FromBigEndian;
    if n >= 126 {
      BigEndianRoundTrip(n, |Extension(n)|);
    }
  }

  /** A minimal length was written by the encoder's length field. */
  lemma ReadLengthBack(data: seq<byte>)
    requires |data| >= 2 && ReadLength(data).Some? && Minimal(Low(data[1]), ReadLength(data).value.0)
    ensures var (n, offset) := ReadLength(data).value;
      n < LIMIT && data[2..offset] == Extension(n) && data[1] == MaskBit(IsMasked(data)) + Marker(n)
  {
    Powers();
    FromBigEndianRoundTrip(data[2..ReadLength(data).value.1]);
    hide Pow256; hide BigEndian; hide FromBigEndian;
  }

  lemma AppliedTwice(payload: seq<byte>, key: MaskKey)
    ensures Applied(Applied(payload, key), key) == payload
  {
    var twice := Applied(Applied(payload, key), key);
    forall i | 0 <= i < |payload| ensures twice[i] == payload[i] {
      XorTwice(payload[i], key[i % 4]);
    }
  }

  // ---------------------------------------------------------------- the codec is a two-sided inverse

  /** What the protocol lets a final frame carry. */
  predicate Encodable(payload: seq<byte>, kind: FrameType) {
    && |payload| < LIMIT
    && (IsControl(kind) ==> |payload| <= 125)
    && (kind == Close ==> ValidClosePayload(payload))
  }

  lemma HeadAndBody(payload: seq<byte>, kind: FrameType, mask: Option<MaskKey>, rest: seq<byte>)
    requires |payload| < LIMIT
    ensures var data, n := Encode(payload, kind, mask) + rest, |payload|;
      && Head(kind, n, mask.Some?) <= data && |data| >= 2
      && ReadLength(data) == Some((n, 2 + |Extension(n)|)) && IsMasked(data) == mask.Some? && Minimal(Low(data[1]), n)
      && data[0] == 0x80 + Opcode(kind)
      && var offset := 2 + |Extension(n)|;
         var body := offset + if mask.Some? then 4 else 0;
         body + n == |Encode(payload, kind, mask)|
         && (mask.Some? ==> data[offset..body] == mask.value && data[body..body + n] == Applied(payload, mask.value))
         && (mask.None? ==> data[body..body + n] == payload)
  {
    var data, n := Encode(payload, kind, mask) + rest, |payload|;
    var head := Head(kind, n, mask.Some?);
    assert data == head + (Body(payload, mask) + rest);
    ReadLengthOf(data, kind, n, mask.Some?);
    assert |head| == 2 + |Extension(n)|;
    hide ReadLength; hide Head; hide Extension; hide Applied; hide IsMasked; hide Minimal; hide Low; hide Opcode;
    BodySlices(head, payload, mask, rest);
  }

  lemma BodySlices(head: seq<byte>, payload: seq<byte>, mask: Option<MaskKey>, rest: seq<byte>)
    ensures var data, offset := head + (Body(payload, mask) + rest), |head|;
      var body := offset + if mask.Some? then 4 else 0;
      body + |payload| == |head + Body(payload, mask)|
      && (mask.Some? ==> data[offset..body] == mask.value)
      && (mask.Some? ==> data[body..body + |payload|] == Applied(payload, mask.value))
      && (mask.None? ==> data[body..body + |payload|] == payload)
  {
    hide Applied;
    var data := head + (Body(payload, mask) + rest);
    assert data[|head|..] == Body(payload, mask) + rest;
  }

  /**
   Decoding an encoded frame, whatever follows it, gives back kind, mask flag and payload, for every
   mask key. It succeeds exactly for what the protocol lets a frame carry.
   */
  lemma DecodeEncode(payload: seq<byte>, kind: FrameType, mask: Option<MaskKey>, rest: seq<byte>)
    requires |payload| < LIMIT
    ensures Decode(Encode(payload, kind, mask) + rest)
         == if Encodable(payload, kind) then Some(Frame(kind, true, mask.Some?, payload)) else None
  {
    hide ReadLength; hide Head; hide Encode; hide Extension; hide Applied; hide ValidClosePayload;
    HeadAndBody(payload, kind, mask, rest);
    EncodedSize(payload, kind, mask);
    if mask.Some? {
      AppliedTwice(payload, mask.value);
    }
  }

  /** The mask key a frame carries. */
  function KeyOf(data: seq<byte>): Option<MaskKey>
    requires |data| >= 2 && ReadLength(data).Some? && HeaderSizeOf(data) <= |data|
  {
    var offset := ReadLength(data).value.1;
    if IsMasked(data) then Some(data[offset..offset + 4]) else None
  }

  /** What is decoded is a complete frame at the front of the data. */
  lemma DecodeNeedsFrame(data: seq<byte>)
    requires Decode(data).Some?
    ensures FrameSize(data) != 0 && !SizeWraps(data)
    ensures FrameSize(data) == HeaderSizeOf(data) + |Decode(data).value.payload|
  {
    LengthFits(data);
    SumFits(HeaderSizeOf(data), ReadLength(data).value.0);
    hide ReadLength; hide Sum64;
  }

  lemma LengthFits(data: seq<byte>)
    requires |data| >= 2 && ReadLength(data).Some?
    ensures ReadLength(data).value.0 <= SIZE_MAX
    ensures Minimal(Low(data[1]), ReadLength(data).value.0) ==> ReadLength(data).value.0 < LIMIT
    ensures SizeWraps(data) ==> ReadLength(data).value.1 == 10 && Low(data[1]) == 127
  {
    Powers();
    hide Pow256; hide FromBigEndian;
  }

  /**
   Encoding an accepted final frame again, with its own mask key, gives back exactly the bytes it was decoded
   from.
   */
  lemma EncodeDecode(data: seq<byte>)
    requires Decode(data).Some? && Decode(data).value.final
    ensures |data| >= 2 && ReadLength(data).Some? && HeaderSizeOf(data) <= |data|
    ensures var f := Decode(data).value;
      Encodable(f.payload, f.kind) && Encode(f.payload, f.kind, KeyOf(data)) == data[..FrameSize(data)]
  {
    DecodeNeedsFrame(data);
    ReadLengthBack(data);
    var f := Decode(data).value;
    var (n, offset) := ReadLength(data).value;
    var body := HeaderSizeOf(data);
    var raw := data[body..body + n];
    assert FrameSize(data) == body + n;
    assert f.payload == if IsMasked(data) then Applied(raw, data[offset..body]) else raw;
    assert data[0] == 0x80 + Opcode(f.kind);
    assert Encodable(f.payload, f.kind);
    hide Decode; hide ReadLength; hide MaskBit; hide Opcode; hide Applied; hide Marker; hide Low; hide Extension;
    hide IsMasked;
    HeadFrom(data, f.kind, n, offset);
    BodyFrom(data, offset, body, n, f.payload);
    assert data[..offset] + data[offset..body + n] == data[..body + n];
  }

  lemma HeadFrom(data: seq<byte>, kind: FrameType, n: nat, offset: nat)
    requires 2 <= offset <= |data| && data[2..offset] == Extension(n)
    requires data[0] == 0x80 + Opcode(kind) && data[1] == MaskBit(IsMasked(data)) + Marker(n)
    ensures Head(kind, n, IsMasked(data)) == data[..offset]
  {
    hide MaskBit; hide Opcode; hide Marker; hide Extension; hide IsMasked;
    assert data[..offset] == [data[0], data[1]] + data[2..offset];
  }

  lemma BodyFrom(data: seq<byte>, offset: nat, body: nat, n: nat, payload: seq<byte>)
    requires 2 <= offset <= body && body + n <= |data| && body == offset + if IsMasked(data) then 4 else 0
    requires var raw := data[body..body + n]; payload == if IsMasked(data) then Applied(raw, data[offset..body])
      else raw
    ensures Body(payload, if IsMasked(data) then Some(data[offset..offset + 4]) else None) == data[offset..body + n]
  {
    hide IsMasked;
    if IsMasked(data) {
      AppliedTwice(data[body..body + n], data[offset..body]);
      assert data[offset..body] + data[body..body + n] == data[offset..body + n];
    }
  }

  // ---------------------------------------------------------------- frame sizes

  /**
   A size once given is not changed by what arrives later. What it cuts off has that size itself if and only if
   the length field lies within it.
   */
  lemma SizeIsStable(data: seq<byte>, rest: seq<byte>)
    requires FrameSize(data) != 0
    ensures FrameSize(data + rest) == FrameSize(data)
    ensures FrameSize(data[..FrameSize(data)]) == FrameSize(data) <==> ReadLength(data).value.1 <= FrameSize(data)
  {
    var size := FrameSize(data);
    SameLengthUp(data, data + rest);
    if ReadLength(data).value.1 <= size {
      SameLength(data[..size], data);
    } else if size >= 2 && ReadLength(data[..size]).Some? {
      SameLengthUp(data[..size], data);
    }
    hide ReadLength; hide Sum64;
  }

  /**
   A frame whose size wraps around is refused as soon as its head has arrived, or waited for without end if the
   size wraps around to zero.
   */
  lemma WrappedFrame(data: seq<byte>)
    requires SizeWraps(data) && |data| >= HeaderSizeOf(data)
    ensures FrameSize(data) < HeaderSizeOf(data)
    ensures FrameSize(data) == 0 <==> HeaderSizeOf(data) + ReadLength(data).value.0 == WORD
    ensures Decode(data[..FrameSize(data)]) == None
  {
    LengthFits(data);
    SumFits(HeaderSizeOf(data), ReadLength(data).value.0);
    var front := data[..FrameSize(data)];
    if |front| >= 2 && ReadLength(front).Some? {
      SameLengthUp(front, data);
    }
    hide ReadLength; hide Sum64; hide Applied; hide ValidClosePayload;
  }

  lemma SameLength(a: seq<byte>, b: seq<byte>)
    requires |a| >= 2 && a <= b && ReadLength(b).Some? && ReadLength(b).value.1 <= |a|
    ensures ReadLength(a) == ReadLength(b) && IsMasked(a) == IsMasked(b)
  {
    var offset := ReadLength(b).value.1;
    assert a[1] == b[1] && a[2..offset] == b[2..offset];
  }

  lemma SameLengthUp(a: seq<byte>, b: seq<byte>)
    requires |a| >= 2 && a <= b && ReadLength(a).Some?
    ensures ReadLength(a) == ReadLength(b) && IsMasked(a) == IsMasked(b)
  {
    var offset := ReadLength(a).value.1;
    assert a[1] == b[1] && a[2..offset] == b[2..offset];
  }

  /** The size of an encoded frame is its length, with anything behind it, and zero on every proper part of it. */
  lemma SizeOfEncoded(payload: seq<byte>, kind: FrameType, mask: Option<MaskKey>, rest: seq<byte>, k: nat)
    requires |payload| < LIMIT && k < |Encode(payload, kind, mask)|
    ensures FrameSize(Encode(payload, kind, mask) + rest) == |Encode(payload, kind, mask)|
    ensures FrameSize(Encode(payload, kind, mask)[..k]) == 0
  {
    hide Encode; hide Extension; hide Head;
    var e := Encode(payload, kind, mask);
    HeadAndBody(payload, kind, mask, rest);
    HeadAndBody(payload, kind, mask, []);
    SumFits(2 + |Extension(|payload|)| + if mask.Some? then 4 else 0, |payload|);
    assert e + [] == e;
    if |e[..k]| >= 2 && ReadLength(e[..k]).Some? {
      SameLengthUp(e[..k], e);
    }
  }

  // ---------------------------------------------------------------- filling and reading buffers

  /** A number shifted right by `k` bytes. */
  function Shifted(n: nat, k: nat): nat {
    if k == 0 then n else Shifted(n / 256, k - 1)
  }

  lemma {:induction false} BigEndianAt(n: nat, width: nat, i: nat)
    requires i < width
    ensures BigEndian(n, width)[i] == Shifted(n, width - 1 - i) % 256
  {
    if i < width - 1 {
      BigEndianAt(n / 256, width - 1, i);
    }
  }

  /** `writePayloadLength`: fills in the length field and says how many bytes it took. */
  method WritePayloadLength(destination: array<byte>, start: nat, n: nat, masked: bool) returns (written: nat)
    requires start + 1 + |Extension(n)| <= destination.Length
    modifies destination
    ensures written == 1 + |Extension(n)|
    ensures destination[..start + written] == old(destination[..start]) + [MaskBit(masked) + Marker(n)] + Extension(n)
  {
    destination[start] := MaskBit(masked) + Marker(n);
    ghost var front := old(destination[..start]) + [MaskBit(masked) + Marker(n)];
    assert destination[..start + 1] == front;
    written := 1;
    if n >= 126 {
      var width := if n <= 0xFFFF then 2 else 8;
      assert Extension(n) == BigEndian(n, width);
      hide Extension; hide Marker; hide MaskBit;
      WriteBigEndian(destination, start + 1, n, width);
      written := 1 + width;
    }
  }

  /** The bytes of a number from the highest shift down to zero. */
  method WriteBigEndian(destination: array<byte>, start: nat, n: nat, width: nat)
    requires start + width <= destination.Length
    modifies destination
    ensures destination[..start + width] == old(destination[..start]) + BigEndian(n, width)
  {
    ghost var bytes := BigEndian(n, width);
    var i := 0;
    while i < width
      invariant 0 <= i <= width
      invariant destination[..start + i] == old(destination[..start]) + bytes[..i]
    {
      BigEndianAt(n, width, i);
      hide BigEndian; hide Shifted;
      destination[start + i] := Shifted(n, width - 1 - i) % 256;
      i := i + 1;
    }
    assert bytes[..i] == bytes;
  }

  /** `encodeFrame`, with the mask key as an input. */
  method EncodeFrame(payload: seq<byte>, kind: FrameType, mask: Option<MaskKey>) returns (frame: array<byte>)
    ensures fresh(frame) && frame[..] == Encode(payload, kind, mask)
  {
    EncodedSize(payload, kind, mask);
    ghost var head := Head(kind, |payload|, mask.Some?);
    var size := HeaderSize(|payload|, mask.Some?) + |payload|;
    frame := new byte[size](i => 0);
    assert |head| <= size;
    hide Head; hide Applied;
    var offset := WriteHead(frame, kind, |payload|, mask.Some?);
    if mask.Some? {
      CopyInto(frame, offset, mask.value);
      offset := offset + 4;
      var body := Unmask(payload, mask.value);
      CopyInto(frame, offset, body);
      assert head + mask.value + body == head + (mask.value + body);
    } else {
      CopyInto(frame, offset, payload);
    }
    assert frame[..] == frame[..frame.Length];
  }

  method WriteHead(frame: array<byte>, kind: FrameType, n: nat, masked: bool) returns (offset: nat)
    requires |Head(kind, n, masked)| <= frame.Length
    modifies frame
    ensures offset == |Head(kind, n, masked)| && frame[..offset] == Head(kind, n, masked)
  {
    frame[0] := 0x80 + Opcode(kind);
    ghost var first := frame[..1];
    assert first == [0x80 + Opcode(kind)];
    hide Extension; hide Opcode; hide Marker; hide MaskBit;
    var written := WritePayloadLength(frame, 1, n, masked);
    offset := 1 + written;
  }

  method CopyInto(destination: array<byte>, start: nat, data: seq<byte>)
    requires start + |data| <= destination.Length
    modifies destination
    ensures destination[..start + |data|] == old(destination[..start]) + data
  {
    var i := 0;
    while i < |data|
      invariant 0 <= i <= |data|
      invariant destination[..start + i] == old(destination[..start]) + data[..i]
    {
      destination[start + i] := data[i];
      i := i + 1;
    }
  }

  method ReadBigEndian(bs: seq<byte>) returns (n: nat)
    ensures n == FromBigEndian(bs)
  {
    n := 0;
    var i := 0;
    while i < |bs|
      invariant 0 <= i <= |bs| && n == FromBigEndian(bs[..i])
    {
      assert bs[..i + 1][..i] == bs[..i];
      n := n * 256 + bs[i];
      i := i + 1;
    }
    assert bs[..i] == bs;
  }

  /** Masking and unmasking are the same loop. */
  method Unmask(data: seq<byte>, key: MaskKey) returns (payload: seq<byte>)
    ensures payload == Applied(data, key)
  {
    payload := [];
    var i := 0;
    while i < |data|
      invariant 0 <= i <= |data| && payload == Applied(data, key)[..i]
    {
      payload := payload + [Xor(data[i], key[i % 4])];
      i := i + 1;
    }
  }

  /** The length field, refused when it is cut short or not minimal. */
  method ParseLength(data: seq<byte>) returns (r: Option<(nat, nat)>)
    requires |data| >= 2
    ensures r == if ReadLength(data).Some? && Minimal(Low(data[1]), ReadLength(data).value.0) then ReadLength(data)
      else None
  {
    var n := Low(data[1]);
    if n == 126 {
      if |data| < 4 {
        return None;
      }
      n := ReadBigEndian(data[2..4]);
      return if n < 126 then None else Some((n, 4));
    }
    if n == 127 {
      if |data| < 10 {
        return None;
      }
      n := ReadBigEndian(data[2..10]);
      return if n <= 0xFFFF || n >= LIMIT then None else Some((n, 10));
    }
    return Some((n, 2));
  }

  /** `decodeFrame` step by step. */
  method DecodeFrame(data: seq<byte>) returns (frame: Option<Frame>)
    ensures frame == Decode(data)
  {
    hide ReadLength; hide Minimal; hide ValidClosePayload; hide Applied; hide KindOf; hide Low; hide IsControl;
    if |data| < 2 {
      return None;
    }
    var final := data[0] >= 0x80;
    var kind := KindOf(Low(data[0]));
    if Low(data[0]) >= 16 || kind.None? {
      return None;
    }
    var length := ParseLength(data);
    if length.None? {
      return None;
    }
    var (n, offset) := length.value;
    if IsControl(kind.value) && (!final || n > 125) {
      return None;
    }
    var masked := data[1] >= 0x80;
    var payload := TakePayload(data, offset, n, masked);
    if payload.None? || (kind.value == Close && !ValidClosePayload(payload.value)) {
      return None;
    }
    return Some(Frame(kind.value, final, masked, payload.value));
  }

  /** The part of `decodeFrame` behind the head: the payload, with its mask taken off, if all of it is there. */
  method TakePayload(data: seq<byte>, offset: nat, n: nat, masked: bool) returns (payload: Option<seq<byte>>)
    ensures var body := offset + if masked then 4 else 0;
      payload ==
        if |data| < body || n > |data| - body then None
        else if masked then Some(Applied(data[body..body + n], data[offset..body]))
        else Some(data[body..body + n])
  {
    hide Applied;
    var body := if masked then offset + 4 else offset;
    if body > |data| || n > |data| - body {
      return None;
    }
    var raw := data[body..body + n];
    if masked {
      raw := Unmask(raw, data[offset..body]);
    }
    return Some(raw);
  }
}
