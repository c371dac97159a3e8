/** Base64 (section 4 of RFC 4648): encoding, and decoding that skips white space. */
module Base64 {
  import opened Octets
  import opened Optional
  import Text

  type sextet = n: int | 0 <= n < 64

  // ---------------------------------------------------------------- the alphabet

  /** Upper-case letters, lower-case letters, digits, plus and slash. */
  function Symbol(i: sextet): (c: char)
    ensures IsSymbol(c)
  {
    if i < 26 then ('A' as int + i) as char
    else if i < 52 then ('a' as int + (i - 26)) as char
    else if i < 62 then ('0' as int + (i - 52)) as char
    else if i == 62 then '+' else '/'
  }

  predicate IsSymbol(c: char) {
    'A' <= c <= 'Z' || 'a' <= c <= 'z' || '0' <= c <= '9' || c == '+' || c == '/'
  }

  function Index(c: char): sextet
    requires IsSymbol(c)
  {
    if 'A' <= c <= 'Z' then c as int - 'A' as int
    else if 'a' <= c <= 'z' then c as int - 'a' as int + 26
    else if '0' <= c <= '9' then c as int - '0' as int + 52
    else if c == '+' then 62 else 63
  }

  lemma IndexOfSymbol(i: sextet)
    ensures Index(Symbol(i)) == i
  {
  }

  lemma SymbolOfIndex(c: char)
    requires IsSymbol(c)
    ensures Symbol(Index(c)) == c
  {
  }

  // ---------------------------------------------------------------- encoding

  /** The four symbols of three bytes, the last ones replaced by padding when there are fewer. */
  function Quartet(a: byte, b: byte, c: byte, count: nat): (q: string)
    ensures |q| == 4
  {
    var triple := a * 65536 + b * 256 + c;
    [Symbol(triple / 262144), Symbol(triple / 4096 % 64),
     if count > 1 then Symbol(triple / 64 % 64) else '=',
     if count > 2 then Symbol(triple % 64) else '=']
  }

  function Encode(d: seq<byte>): string {
    if d == [] then []
    else if |d| == 1 then Quartet(d[0], 0, 0, 1)
    else if |d| == 2 then Quartet(d[0], d[1], 0, 2)
    else Quartet(d[0], d[1], d[2], 3) + Encode(d[3..])
  }

  lemma {:induction false} EncodedLength(d: seq<byte>)
    ensures |Encode(d)| % 4 == 0 && (Encode(d) == [] <==> d == [])
  {
    hide Quartet;
    if |d| >= 3 {
      EncodedLength(d[3..]);
    }
  }

  /** `encodeBytes` */
  method EncodeBytes(d: seq<byte>) returns (text: string)
    ensures text == Encode(d)
  {
    hide Quartet; hide Encode;
    text := [];
    var offset := 0;
    assert d[0..] == d && [] + Encode(d) == Encode(d);
    while offset < |d|
      invariant 0 <= offset <= |d| && text + Encode(d[offset..]) == Encode(d)
    {
      var remaining := |d| - offset;
      var a := d[offset];
      var b := if remaining > 1 then d[offset + 1] else 0;
      var c := if remaining > 2 then d[offset + 2] else 0;
      var next := if remaining > 3 then offset + 3 else |d|;
      EncodeFrom(d, offset, a, b, c, next);
      ghost var q, rest := Quartet(a, b, c, remaining), Encode(d[next..]);
      assert text + (q + rest) == text + q + rest;
      text := text + Quartet(a, b, c, remaining);
      offset := next;
    }
    EncodeNothing(d[offset..]);
  }

  lemma EncodeNothing(d: seq<byte>)
    requires d == []
    ensures Encode(d) == []
  {
  }

  lemma EncodeFrom(d: seq<byte>, offset: nat, a: byte, b: byte, c: byte, next: nat)
    requires offset < |d| && a == d[offset] && b == (if |d| - offset > 1 then d[offset + 1] else 0)
    requires c == (if |d| - offset > 2 then d[offset + 2] else 0) &&
      next == if |d| - offset > 3 then offset + 3 else |d|
    ensures Encode(d[offset..]) == Quartet(a, b, c, |d| - offset) + Encode(d[next..])
  {
    hide Quartet;
    QuartetCount(a, b, c, |d| - offset);
    var rest := d[offset..];
    if |rest| >= 3 {
      assert rest[3..] == d[next..];
    } else {
      assert d[next..] == [] && Quartet(a, b, c, |rest|) + [] == Quartet(a, b, c, |rest|);
    }
  }

  lemma QuartetCount(a: byte, b: byte, c: byte, count: nat)
    ensures count > 3 ==> Quartet(a, b, c, count) == Quartet(a, b, c, 3)
  {
  }

  // ---------------------------------------------------------------- decoding

  /** The text without white space. */
  function Stripped(text: string): string {
    if text == [] then []
    else
      var last := |text| - 1;
      Stripped(text[..last]) + if Text.IsSpace(text[last]) then [] else [text[last]]
  }

  predicate Plain(text: string) {
    forall c :: c in text ==> c == '=' || IsSymbol(c)
  }

  /** The three bytes that four sextets make up. */
  function First(v0: sextet, v1: sextet): byte { (v0 as int) * 4 + v1 / 16 }
  function Second(v1: sextet, v2: sextet): byte { ((v1 % 16) as int) * 16 + v2 / 4 }
  function Third(v2: sextet, v3: sextet): byte { ((v2 % 4) as int) * 64 + v3 }

  /** The bytes of four symbols, of which the last quartet's last two may be padding. */
  function DecodeQuartet(q: string, last: bool): Option<seq<byte>>
    requires |q| == 4 && Plain(q)
  {
    if q[0] == '=' || q[1] == '=' || (!last && (q[2] == '=' || q[3] == '=')) then None
    else
      var v0, v1 := Index(q[0]), Index(q[1]);
      if q[2] == '=' then if q[3] != '=' then None else Some([First(v0, v1)])
      else
        var v2 := Index(q[2]);
        if q[3] == '=' then Some([First(v0, v1), Second(v1, v2)])
        else Some([First(v0, v1), Second(v1, v2), Third(v2, Index(q[3]))])
  }

  function DecodeQuartets(n: string): Option<seq<byte>>
    requires |n| % 4 == 0 && Plain(n)
  {
    if n == [] then Some([])
    else
      var front := DecodeQuartet(n[..4], |n| == 4);
      var rest := DecodeQuartets(n[4..]);
      if front.None? then None else Behind(front.value, rest)
  }

  /** `tryBase64Decode` */
  function Decode(text: string): Option<seq<byte>> {
    var n := Stripped(text);
    if !Plain(n) || |n| % 4 != 0 then None else DecodeQuartets(n)
  }

  method Normalize(text: string) returns (n: Option<string>)
    ensures n == if Plain(Stripped(text)) then Some(Stripped(text)) else None
  {
    var kept := "";
    var i := 0;
    while i < |text|
      invariant 0 <= i <= |text| && kept == Stripped(text[..i]) && Plain(kept)
    {
      assert text[..i + 1][..i] == text[..i];
      if !Text.IsSpace(text[i]) {
        if text[i] != '=' && !IsSymbol(text[i]) {
          StrippedPrefix(text, i);
          return None;
        }
        kept := kept + [text[i]];
      }
      i := i + 1;
    }
    assert text[..i] == text;
    return Some(kept);
  }

  lemma {:induction false} StrippedPrefix(text: string, i: nat)
    requires i < |text| && !Text.IsSpace(text[i])
    ensures text[i] in Stripped(text)
  {
    var last := |text| - 1;
    if i < last {
      StrippedPrefix(text[..last], i);
    }
  }

  method TryDecode(text: string) returns (output: Option<seq<byte>>)
    ensures output == Decode(text)
  {
    var normalized := Normalize(text);
    if normalized.None? || |normalized.value| % 4 != 0 {
      return None;
    }
    output := DecodeNormalized(normalized.value);
  }

  /** The quartets one after the other. */
  method DecodeNormalized(n: string) returns (output: Option<seq<byte>>)
    requires |n| % 4 == 0 && Plain(n)
    ensures output == DecodeQuartets(n)
  {
    hide DecodeQuartet; hide DecodeQuartets; hide Plain;
    var bytes: seq<byte> := [];
    BehindNothing(DecodeQuartets(n));
    var rest := n;
    while rest != []
      invariant |rest| % 4 == 0 && Plain(rest)
      invariant DecodeQuartets(n) == Behind(bytes, DecodeQuartets(rest))
      decreases |rest|
    {
      DecodeStep(rest);
      var front := DecodeQuartet(rest[..4], |rest| == 4);
      if front.None? {
        return None;
      }
      BehindBehind(bytes, front.value, DecodeQuartets(rest[4..]));
      bytes := bytes + front.value;
      rest := rest[4..];
    }
    DecodeEnd(rest);
    assert bytes + [] == bytes;
    return Some(bytes);
  }

  lemma DecodeEnd(n: string)
    requires n == [] && Plain(n)
    ensures DecodeQuartets(n) == Some([])
  {
  }

  lemma DecodeStep(n: string)
    requires n != [] && |n| % 4 == 0 && Plain(n)
    ensures |n| >= 4 && Plain(n[..4]) && Plain(n[4..])
    ensures DecodeQuartets(n) ==
      var front := DecodeQuartet(n[..4], |n| == 4);
      if front.None? then None else Behind(front.value, DecodeQuartets(n[4..]))
  {
    hide DecodeQuartet;
  }

  // ---------------------------------------------------------------- bits

  /** The four sextets of three bytes. */
  function Sextet0(a: byte): sextet { a / 4 }
  function Sextet1(a: byte, b: byte): sextet { a % 4 * 16 + b / 16 }
  function Sextet2(b: byte, c: byte): sextet { b % 16 * 4 + c / 64 }
  function Sextet3(c: byte): sextet { c % 64 }

  lemma Quotient(n: nat, d: nat, q: nat, r: nat)
    requires d in {4, 16, 64, 4096, 262144} && r < d && n == d * q + r
    ensures n / d == q && n % d == r
  {
  }

  /** Shifting and masking the triple picks out the sextets. */
  lemma Sextets(a: byte, b: byte, c: byte)
    ensures var triple := (a as int) * 65536 + (b as int) * 256 + c;
      && triple / 262144 == Sextet0(a) && triple / 4096 % 64 == Sextet1(a, b)
      && triple / 64 % 64 == Sextet2(b, c) && triple % 64 == Sextet3(c)
  {
    var v0: int, v1: int, v2: int, v3: int := Sextet0(a), Sextet1(a, b), Sextet2(b, c), Sextet3(c);
    var triple := (a as int) * 65536 + (b as int) * 256 + c;
    assert triple == 262144 * v0 + (4096 * v1 + (64 * v2 + v3));
    Quotient(triple, 262144, v0, 4096 * v1 + (64 * v2 + v3));
    Quotient(triple, 4096, 64 * v0 + v1, 64 * v2 + v3);
    Quotient(64 * v0 + v1, 64, v0, v1);
    Quotient(triple, 64, 64 * (64 * v0 + v1) + v2, v3);
    Quotient(64 * (64 * v0 + v1) + v2, 64, 64 * v0 + v1, v2);
  }

  lemma QuartetIs(a: byte, b: byte, c: byte, count: nat)
    ensures Quartet(a, b, c, count) ==
      [Symbol(Sextet0(a)), Symbol(Sextet1(a, b)),
       if count > 1 then Symbol(Sextet2(b, c)) else '=', if count > 2 then Symbol(Sextet3(c)) else '=']
  {
    Sextets(a, b, c);
    hide Symbol; hide Sextet0; hide Sextet1; hide Sextet2; hide Sextet3;
  }

  /** Three bytes come back from their sextets. */
  lemma BytesBack(a: byte, b: byte, c: byte)
    ensures First(Sextet0(a), Sextet1(a, b)) == a
    ensures Second(Sextet1(a, b), Sextet2(b, c)) == b
    ensures Third(Sextet2(b, c), Sextet3(c)) == c
  {
    Quotient(Sextet1(a, b), 16, a % 4, b / 16);
    Quotient(Sextet2(b, c), 4, b % 16, c / 64);
  }

  /** Four sextets come back from their bytes. */
  lemma SextetsBack(v0: sextet, v1: sextet, v2: sextet, v3: sextet)
    ensures var a, b, c := First(v0, v1), Second(v1, v2), Third(v2, v3);
      Sextet0(a) == v0 && Sextet1(a, b) == v1 && Sextet2(b, c) == v2 && Sextet3(c) == v3
  {
    Quotient(First(v0, v1), 4, v0, v1 / 16);
    Quotient(Second(v1, v2), 16, v1 % 16, v2 / 4);
    Quotient(Third(v2, v3), 64, v2 % 4, v3);
  }

  // ---------------------------------------------------------------- decoding inverts encoding

  lemma QuartetBack(a: byte, b: byte, c: byte, count: nat, last: bool)
    requires 1 <= count <= 3 && (count < 3 ==> last) && (count < 3 ==> c == 0) && (count < 2 ==> b == 0)
    ensures Plain(Quartet(a, b, c, count))
    ensures DecodeQuartet(Quartet(a, b, c, count), last) == Some([a, b, c][..count])
  {
    QuartetIs(a, b, c, count);
    BytesBack(a, b, c);
    IndexOfSymbol(Sextet0(a));
    IndexOfSymbol(Sextet1(a, b));
    IndexOfSymbol(Sextet2(b, c));
    IndexOfSymbol(Sextet3(c));
    hide Symbol; hide Index; hide Quartet; hide First; hide Second; hide Third;
    hide Sextet0; hide Sextet1; hide Sextet2; hide Sextet3;
    assert [a, b, c][..1] == [a] && [a, b, c][..2] == [a, b] && [a, b, c][..3] == [a, b, c];
  }

  lemma {:induction false} EncodedIsPlain(d: seq<byte>)
    ensures Plain(Encode(d))
  {
    hide Quartet;
    if |d| == 1 {
      QuartetBack(d[0], 0, 0, 1, true);
    } else if |d| == 2 {
      QuartetBack(d[0], d[1], 0, 2, true);
    } else if |d| >= 3 {
      QuartetBack(d[0], d[1], d[2], 3, false);
      EncodedIsPlain(d[3..]);
    }
  }

  lemma {:induction false} DecodeEncoded(d: seq<byte>)
    ensures Plain(Encode(d)) && |Encode(d)| % 4 == 0 && DecodeQuartets(Encode(d)) == Some(d)
  {
    EncodedIsPlain(d);
    EncodedLength(d);
    hide Quartet; hide DecodeQuartet;
    var text := Encode(d);
    if |d| == 1 {
      QuartetBack(d[0], 0, 0, 1, true);
      assert text[..4] == text && text[4..] == [] && [d[0], 0, 0][..1] + [] == d;
    } else if |d| == 2 {
      QuartetBack(d[0], d[1], 0, 2, true);
      assert text[..4] == text && text[4..] == [] && [d[0], d[1], 0][..2] + [] == d;
    } else if |d| >= 3 {
      var q := Quartet(d[0], d[1], d[2], 3);
      QuartetBack(d[0], d[1], d[2], 3, |text| == 4);
      DecodeEncoded(d[3..]);
      assert text[..4] == q && text[4..] == Encode(d[3..]);
      assert [d[0], d[1], d[2]][..3] + d[3..] == d;
    }
  }

  /** Whatever white space is put into an encoded text, it decodes to the bytes it encodes. */
  lemma RoundTrip(d: seq<byte>, text: string)
    requires Stripped(text) == Encode(d)
    ensures Decode(text) == Some(d)
  {
    DecodeEncoded(d);
  }

  lemma {:induction false} StrippedPlain(text: string)
    requires Plain(text)
    ensures Stripped(text) == text
  {
    if text != [] {
      var last := |text| - 1;
      StrippedPlain(text[..last]);
      assert text[last] in text && !Text.IsSpace(text[last]);
    }
  }

  // ---------------------------------------------------------------- when encoding inverts decoding

  /** The bits of the last symbol that belong to no byte. */
  function SpareBits(n: string): nat
    requires |n| >= 4 && Plain(n)
  {
    var q := n[|n| - 4..];
    if q[1] == '=' then 0
    else if q[2] == '=' then Index(q[1]) % 16
    else if q[3] == '=' then Index(q[2]) % 4
    else 0
  }

  lemma SameSymbol(i: sextet, c: char)
    requires IsSymbol(c)
    ensures Symbol(i) == c <==> i == Index(c)
  {
    IndexOfSymbol(i);
    SymbolOfIndex(c);
  }

  lemma QuartetForward(q: string, last: bool)
    requires |q| == 4 && Plain(q) && DecodeQuartet(q, last).Some?
    ensures var d := DecodeQuartet(q, last).value;
      1 <= |d| <= 3 && (!last ==> |d| == 3) && (Encode(d) == q <==> SpareBits(q) == 0)
  {
    assert q[|q| - 4..] == q;
    if q[2] == '=' {
      OneByteForward(q);
    } else if q[3] == '=' {
      TwoBytesForward(q);
    } else {
      ThreeBytesForward(q);
    }
  }

  function High(v: sextet): sextet { v / 16 * 16 }

  lemma KeptOne(v0: sextet, v1: sextet, kept: sextet)
    requires kept == High(v1)
    ensures First(v0, v1) == First(v0, kept) && Second(kept, 0) == 0 && Third(0, 0) == 0
    ensures kept == v1 <==> v1 % 16 == 0
  {
    HighBits(v1, kept);
  }

  lemma HighBits(v: sextet, kept: sextet)
    requires kept == v / 16 * 16
    ensures kept % 16 == 0 && kept / 16 == v / 16
    ensures kept == v <==> v % 16 == 0
  {
    assert v / 16 == 0 || v / 16 == 1 || v / 16 == 2 || v / 16 == 3;
    assert kept == 0 || kept == 16 || kept == 32 || kept == 48;
  }

  function Upper(v: sextet): sextet { v / 4 * 4 }

  lemma KeptTwo(v1: sextet, v2: sextet, kept: sextet)
    requires kept == Upper(v2)
    ensures Second(v1, v2) == Second(v1, kept) && Third(kept, 0) == 0
    ensures kept == v2 <==> v2 % 4 == 0
  {
    Quotient(kept, 4, v2 / 4, 0);
  }

  lemma OneByteForward(q: string)
    requires |q| == 4 && IsSymbol(q[0]) && IsSymbol(q[1]) && q[2] == q[3] == '='
    ensures Encode([First(Index(q[0]), Index(q[1]))]) == q <==> Index(q[1]) % 16 == 0
  {
    hide *;
    var v0, v1 := Index(q[0]), Index(q[1]);
    var kept, a := High(v1), First(v0, v1);
    KeptOne(v0, v1, kept);
    SextetsBack(v0, kept, 0, 0);
    QuartetIs(a, 0, 0, 1);
    EncodeOne(a);
    SameSymbol(v0, q[0]);
    SameSymbol(kept, q[1]);
    assert q == [q[0], q[1], '=', '='];
  }

  lemma EncodeOne(a: byte)
    ensures Encode([a]) == Quartet(a, 0, 0, 1)
  {
    hide Quartet;
  }

  lemma TwoBytesForward(q: string)
    requires |q| == 4 && IsSymbol(q[0]) && IsSymbol(q[1]) && IsSymbol(q[2]) && q[3] == '='
    ensures Encode([First(Index(q[0]), Index(q[1])), Second(Index(q[1]), Index(q[2]))]) == q <==> Index(q[2]) % 4 == 0
  {
    hide *;
    var v0, v1, v2 := Index(q[0]), Index(q[1]), Index(q[2]);
    var kept, a, b := Upper(v2), First(v0, v1), Second(v1, v2);
    KeptTwo(v1, v2, kept);
    SextetsBack(v0, v1, kept, 0);
    QuartetIs(a, b, 0, 2);
    EncodeTwo(a, b);
    SameSymbol(v0, q[0]);
    SameSymbol(v1, q[1]);
    SameSymbol(kept, q[2]);
    assert q == [q[0], q[1], q[2], '='];
  }

  lemma EncodeTwo(a: byte, b: byte)
    ensures Encode([a, b]) == Quartet(a, b, 0, 2)
  {
    hide Quartet;
  }

  lemma EncodeThree(a: byte, b: byte, c: byte)
    ensures Encode([a, b, c]) == Quartet(a, b, c, 3)
  {
    hide Quartet;
    assert [a, b, c][3..] == [];
  }

  lemma ThreeBytesForward(q: string)
    requires |q| == 4 && IsSymbol(q[0]) && IsSymbol(q[1]) && IsSymbol(q[2]) && IsSymbol(q[3])
    ensures Encode([First(Index(q[0]), Index(q[1])), Second(Index(q[1]), Index(q[2])),
      Third(Index(q[2]), Index(q[3]))]) == q
  {
    hide *;
    var v0, v1, v2, v3 := Index(q[0]), Index(q[1]), Index(q[2]), Index(q[3]);
    var a, b, c := First(v0, v1), Second(v1, v2), Third(v2, v3);
    SextetsBack(v0, v1, v2, v3);
    QuartetIs(a, b, c, 3);
    EncodeThree(a, b, c);
    SameSymbol(v0, q[0]);
    SameSymbol(v1, q[1]);
    SameSymbol(v2, q[2]);
    SameSymbol(v3, q[3]);
    assert q == [q[0], q[1], q[2], q[3]];
  }

  lemma {:induction false} ReencodeQuartets(n: string)
    requires |n| % 4 == 0 && Plain(n) && n != [] && DecodeQuartets(n).Some?
    ensures Encode(DecodeQuartets(n).value) == n <==> SpareBits(n) == 0
  {
    hide DecodeQuartet; hide SpareBits; hide Encode;
    var q, d := n[..4], DecodeQuartet(n[..4], |n| == 4).value;
    QuartetForward(q, |n| == 4);
    if |n| == 4 {
      assert n[..4] == n && n[4..] == [] && d + [] == d;
    } else {
      var tail := n[4..];
      ReencodeQuartets(tail);
      SpareOfTail(n);
      FrontComplete(q);
      EncodeFront(d, DecodeQuartets(tail).value);
      assert n == q + tail;
    }
  }

  lemma SpareOfTail(n: string)
    requires |n| >= 8 && Plain(n)
    ensures SpareBits(n[4..]) == SpareBits(n)
  {
    assert n[4..][|n[4..]| - 4..] == n[|n| - 4..];
  }

  lemma EncodeFront(d: seq<byte>, rest: seq<byte>)
    requires |d| == 3
    ensures Encode(d + rest) == Encode(d) + Encode(rest) && |Encode(d)| == 4
  {
    hide Quartet;
    assert (d + rest)[3..] == rest && d[3..] == [];
  }

  lemma FrontComplete(q: string)
    requires |q| == 4 && Plain(q) && DecodeQuartet(q, false).Some?
    ensures SpareBits(q) == 0
  {
    assert q[|q| - 4..] == q;
  }

  /** What decodes is given back by encoding, up to white space, exactly when no spare bit is set. */
  lemma Canonical(text: string)
    requires Decode(text).Some? && Stripped(text) != []
    ensures Encode(Decode(text).value) == Stripped(text) <==> SpareBits(Stripped(text)) == 0
  {
    ReencodeQuartets(Stripped(text));
  }

  /** A text that is accepted although encoding never gives it: the unused bits of its second symbol are not zero. */
  lemma NotCanonical()
    ensures Decode("QR==") == Some([65]) && Encode([65]) == "QQ=="
  {
    var d: seq<byte> := [65];
    assert Encode(d) == "QQ==";
    var text := "QR==";
    StrippedPlain(text);
    assert text[..4] == text && text[4..] == [];
    assert Plain(text) by { assert IsSymbol('Q') && IsSymbol('R'); }
    assert Index('Q') == 16 && Index('R') == 17 && First(16, 17) == 65;
    assert DecodeQuartet(text, true) == Some([65]);
    assert DecodeQuartets([]) == Some([]) && [65] + [] == d;
  }
}
