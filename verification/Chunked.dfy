/**
 Chunked transfer coding (section 7.1 of RFC 9112): the one-shot decoder and encoder of the parser, the
 scanner of the streaming client, and how the two agree.
 */
module Chunked {
  import opened Optional
  import opened Sizes
  import opened Text
  import opened Walks
  import opened Incremental

  const BLOCK: nat := 8192

  // ---------------------------------------------------------------- lines

  /** The size in a chunk's first line: extensions and white space are dropped. */
  function ChunkSize(line: string): Option<nat> {
    var trimmed := Trim(line);
    var extension := Find(trimmed, ';');
    var size := Trim(if extension == -1 then trimmed else Trim(trimmed[..extension]));
    Number(size, 16)
  }

  /** What the decoder asks of a trailer line. */
  predicate StrictTrailer(line: string) {
    var colon := Find(line, ':');
    colon != -1 && IsToken(Trim(line[..colon]))
  }

  /** What the streaming client and its size scan ask of a trailer line. */
  predicate LaxTrailer(line: string) {
    Find(line, ':') > 0
  }

  // ---------------------------------------------------------------- where a chunk ends

  /** What a scan for the size of a message answers; `Thrown` is an exception. */
  datatype SizeAnswer = Short | Bad | Thrown | Size(size: nat)

  /**
   Where a chunk of `n` characters ends that begins at an offset, with the 64-bit sums of the source. A place so
   close to the largest size that the line end behind it wraps around lies beyond all data; `substr` throws there.
   */
  function ChunkEnd(data: string, begin: nat, n: nat): (t: Turn<SizeAnswer>)
    ensures t.On? ==> 2 <= t.next <= |data|
  {
    var at, next := Sum64(begin, n), Sum64(begin, n + 2);
    if |data| < next then End(Short)
    else if next < at then End(Thrown)
    else if !CrLfAt(data, at) then End(Bad)
    else On(next)
  }

  /** The same with exact arithmetic. */
  function ExactEnd(data: string, begin: nat, n: nat): Turn<SizeAnswer> {
    if |data| < begin + n + 2 then End(Short)
    else if !CrLfAt(data, begin + n) then End(Bad)
    else On(begin + n + 2)
  }

  /**
   The end of the chunk exceeds a 64-bit size. A chunk of the largest size of which nothing is there yet does no
   harm: its end wraps around to the place behind its beginning.
   */
  predicate EndWraps(data: string, begin: nat, n: nat) {
    begin + n + 2 >= WORD && !(n == SIZE_MAX && begin == |data| < SIZE_MAX)
  }

  lemma SumOfEnd(begin: nat, n: nat)
    requires n <= SIZE_MAX
    ensures begin + n + 2 < WORD ==> Sum64(begin, n) == begin + n && Sum64(begin, n + 2) == begin + n + 2
    ensures begin <= MAX_BYTES && begin + n + 2 >= WORD ==> Sum64(begin, n + 2) == begin + n + 2 - WORD
    ensures begin <= MAX_BYTES && begin + n >= WORD ==> Sum64(begin, n) == begin + n - WORD
    ensures begin <= MAX_BYTES && begin + n < WORD ==> Sum64(begin, n) == begin + n
  {
    SumFits(begin, n);
    SumFits(begin, n + 2);
  }

  /** The end of a chunk is what exact arithmetic gives if and only if it does not wrap around. */
  lemma EndIsExact(data: string, begin: nat, n: nat)
    requires begin <= |data| && n <= SIZE_MAX
    ensures !EndWraps(data, begin, n) ==> ChunkEnd(data, begin, n) == ExactEnd(data, begin, n)
    ensures |data| <= MAX_BYTES && EndWraps(data, begin, n) ==>
      ChunkEnd(data, begin, n) != End(Short) == ExactEnd(data, begin, n)
  {
    SumOfEnd(begin, n);
    SumFits(begin, n + 2);
    hide Sum64;
  }

  /** The end of a chunk may lie before its beginning. */
  lemma EndsBefore(data: string, begin: nat, n: nat, back: nat)
    requires begin <= MAX_BYTES && n <= SIZE_MAX && begin + n + 2 == WORD + back
    requires 2 <= back <= |data| && CrLfAt(data, back - 2)
    ensures ChunkEnd(data, begin, n) == On(back)
  {
    SumOfEnd(begin, n);
    hide Sum64;
  }

  /** With more data the end of a chunk is the same, unless data was lacking. */
  lemma EndStable(data: string, more: string, begin: nat, n: nat)
    requires ChunkEnd(data, begin, n) != End(Short)
    ensures ChunkEnd(data + more, begin, n) == ChunkEnd(data, begin, n)
  {
    SumFits(begin, n);
    var at, next := Sum64(begin, n), Sum64(begin, n + 2);
    assert next >= at ==> next == at + 2;
    hide Sum64;
    assert next == at + 2 ==> (CrLfAt(data + more, at) <==> CrLfAt(data, at));
  }

  // ---------------------------------------------------------------- the one-shot decoder

  /** Whether the rest consists of trailer lines and the empty line, and nothing more. */
  predicate EndsStrictly(s: string)
    decreases |s|
  {
    var k := CrLf(s);
    if k == -1 then false
    else if k == 0 then |s| == 2
    else StrictTrailer(s[..k]) && EndsStrictly(s[k + 2..])
  }

  /** `parseChunked` */
  function Parse(s: string): Option<string>
    decreases |s|
  {
    var k := CrLf(s);
    if k == -1 || ChunkSize(s[..k]).None? then None
    else
      var n, rest := ChunkSize(s[..k]).value, s[k + 2..];
      if n == 0 then if EndsStrictly(rest) then Some([]) else None
      else if |rest| < n + 2 || !CrLfAt(rest, n) then None
      else Behind(rest[..n], Parse(rest[n + 2..]))
  }

  /** The line at an offset, read as the first line of a chunk. */
  datatype SizeLine = NoLine | NoSize | Chunk(n: nat, begin: nat)

  function LineAt(data: string, offset: nat): (line: SizeLine)
    requires offset <= |data|
    ensures line.Chunk? ==> offset + 2 <= line.begin <= |data|
  {
    var k := CrLf(data[offset..]);
    if k == -1 then NoLine
    else
      var n := ChunkSize(data[offset..][..k]);
      if n.None? then NoSize else Chunk(n.value, offset + k + 2)
  }

  lemma LineStable(data: string, more: string, offset: nat)
    requires offset <= |data| && !LineAt(data, offset).NoLine?
    ensures LineAt(data + more, offset) == LineAt(data, offset)
  {
    hide ChunkSize; hide CrLf;
    var rest := data[offset..];
    CrLfStable(rest, more);
    assert (data + more)[offset..] == rest + more && (rest + more)[..CrLf(rest)] == rest[..CrLf(rest)];
  }

  /** The outcome of the decoder; `Overlong` is the exception for appending more than a string can hold. */
  datatype Decoding = Accepted(body: string) | Refused | Overlong

  function Ahead(block: string, d: Decoding): Decoding {
    if d.Accepted? then Accepted(block + d.body) else d
  }

  /** `parseChunked` from an offset on, with 64-bit sums. */
  function DecodeFrom(data: string, offset: nat): Decoding
    requires offset <= |data|
    decreases |data| - offset
  {
    var line := LineAt(data, offset);
    if !line.Chunk? then Refused
    else
      var n, begin := line.n, line.begin;
      if n == 0 then if EndsStrictly(data[begin..]) then Accepted([]) else Refused
      else if |data| < Sum64(begin, n + 2) then Refused
      else if n > |data| - begin then Overlong
      else if !CrLfAt(data, begin + n) then Refused
      else Ahead(data[begin..begin + n], DecodeFrom(data, begin + n + 2))
  }

  function Decode(data: string): Decoding {
    DecodeFrom(data, 0)
  }

  lemma DecodeStep(data: string, offset: nat)
    requires offset <= |data|
    ensures var line := LineAt(data, offset);
      DecodeFrom(data, offset) ==
        if !line.Chunk? then Refused
        else if line.n == 0 then if EndsStrictly(data[line.begin..]) then Accepted([]) else Refused
        else if |data| < Sum64(line.begin, line.n + 2) then Refused
        else if line.n > |data| - line.begin then Overlong
        else if !CrLfAt(data, line.begin + line.n) then Refused
        else Ahead(data[line.begin..line.begin + line.n], DecodeFrom(data, line.begin + line.n + 2))
  {
    hide LineAt; hide EndsStrictly; hide CrLfAt; hide Sum64; hide Ahead;
  }

  /** `parseChunked` with its moving offset. */
  method ParseChunked(data: string) returns (d: Decoding)
    ensures d == Decode(data)
  {
    hide DecodeFrom; hide ChunkSize; hide CrLf; hide Sum64;
    var text, offset := "", 0;
    AheadOfNothing(DecodeFrom(data, 0));
    while offset < |data|
      invariant 0 <= offset <= |data| && Decode(data) == Ahead(text, DecodeFrom(data, offset))
      decreases |data| - offset
    {
      DecodeStep(data, offset);
      var k := CrLf(data[offset..]);
      if k == -1 {
        return Refused;
      }
      var size := ChunkSize(data[offset..][..k]);
      if size.None? {
        return Refused;
      }
      var n := size.value;
      offset := offset + k + 2;
      if n == 0 {
        var ends := OnlyTrailers(data[offset..]);
        assert text + [] == text;
        return if ends then Accepted(text) else Refused;
      }
      if Sum64(offset, n + 2) > |data| {
        return Refused;
      }
      if n > |data| - offset {
        return Overlong;
      }
      if !CrLfAt(data, offset + n) {
        return Refused;
      }
      AheadAhead(text, data[offset..offset + n], DecodeFrom(data, offset + n + 2));
      text := text + data[offset..offset + n];
      offset := offset + n + 2;
    }
    DecodeStep(data, offset);
    NoLineAtEnd(data);
    return Refused;
  }

  lemma AheadOfNothing(d: Decoding)
    ensures Ahead("", d) == d
  {
    if d.Accepted? {
      assert "" + d.body == d.body;
    }
  }

  lemma AheadAhead(a: string, b: string, d: Decoding)
    ensures Ahead(a, Ahead(b, d)) == Ahead(a + b, d)
  {
    if d.Accepted? {
      assert a + (b + d.body) == a + b + d.body;
    }
  }

  lemma NoLineAtEnd(data: string)
    ensures LineAt(data, |data|).NoLine?
  {
    hide ChunkSize;
  }

  // ---------------------------------------------------------------- the decoder and exact arithmetic

  /** The chunk at an offset has an end that wraps around. */
  predicate WrapsAt(data: string, offset: nat)
    requires offset <= |data|
  {
    var line := LineAt(data, offset);
    line.Chunk? && line.n > 0 && EndWraps(data, line.begin, line.n)
  }

  /** Where the chunk behind the one at an offset begins. */
  function NextChunk(data: string, offset: nat): (next: Option<nat>)
    requires offset <= |data|
    ensures next.Some? ==> offset < next.value <= |data|
  {
    var line := LineAt(data, offset);
    if line.Chunk? && line.n > 0 && ExactEnd(data, line.begin, line.n).On? then Some(line.begin + line.n + 2) else None
  }

  /** From an offset on, some chunk has an end that wraps around. */
  predicate WrapsFrom(data: string, offset: nat)
    requires offset <= |data|
    decreases |data| - offset
  {
    WrapsAt(data, offset) ||
    (NextChunk(data, offset).Some? && WrapsFrom(data, NextChunk(data, offset).value))
  }

  lemma WrapsStep(data: string, offset: nat)
    requires offset <= |data|
    ensures var next := NextChunk(data, offset);
      WrapsFrom(data, offset) <==> WrapsAt(data, offset) || (next.Some? && WrapsFrom(data, next.value))
  {
    hide WrapsAt; hide NextChunk;
  }

  lemma SizeFits(line: string)
    ensures ChunkSize(line).Some? ==> ChunkSize(line).value <= SIZE_MAX
  {
    hide Trim; hide Find;
  }

  lemma LineFits(data: string, offset: nat)
    requires offset <= |data|
    ensures LineAt(data, offset).Chunk? ==> LineAt(data, offset).n <= SIZE_MAX
  {
    hide ChunkSize; hide CrLf;
    var k := CrLf(data[offset..]);
    if k != -1 {
      SizeFits(data[offset..][..k]);
    }
  }

  function Plain(body: Option<string>): Decoding {
    if body.Some? then Accepted(body.value) else Refused
  }

  /** The decoder is the one with exact arithmetic if and only if no chunk on the way wraps around; then it throws. */
  lemma {:induction false} DecodeIsParse(data: string, offset: nat)
    requires offset <= |data|
    ensures !WrapsFrom(data, offset) ==> DecodeFrom(data, offset) == Plain(Parse(data[offset..]))
    ensures |data| <= MAX_BYTES && WrapsFrom(data, offset) ==> DecodeFrom(data, offset) == Overlong
    decreases |data| - offset
  {
    hide WrapsFrom; hide DecodeFrom; hide Parse; hide ChunkSize; hide CrLf; hide EndsStrictly; hide Sum64;
    var rest := data[offset..];
    ParseStep(rest);
    DecodeStep(data, offset);
    WrapsStep(data, offset);
    LineFits(data, offset);
    var line := LineAt(data, offset);
    if line.Chunk? {
      var n, begin := line.n, line.begin;
      SumOfEnd(begin, n);
      SumFits(begin, n + 2);
      var k := begin - 2 - offset;
      assert rest[k + 2..] == data[begin..];
      assert CrLfAt(rest[k + 2..], n) <==> CrLfAt(data, begin + n);
      if NextChunk(data, offset).Some? {
        assert data[begin..][n + 2..] == data[begin + n + 2..];
        assert data[begin..][..n] == data[begin..begin + n];
        DecodeIsParse(data, begin + n + 2);
      }
    }
  }

  method OnlyTrailers(s: string) returns (ends: bool)
    ensures ends == EndsStrictly(s)
  {
    var offset := 0;
    assert s[0..] == s;
    while true
      invariant 0 <= offset <= |s| && EndsStrictly(s) == EndsStrictly(s[offset..])
      decreases |s| - offset
    {
      hide StrictTrailer;
      var rest := s[offset..];
      var k := CrLf(rest);
      if k == -1 {
        return false;
      }
      offset := offset + k + 2;
      assert s[offset..] == rest[k + 2..];
      if k == 0 {
        return offset == |s|;
      }
      if !StrictTrailer(rest[..k]) {
        return false;
      }
    }
  }

  lemma ParseStep(s: string)
    ensures var k := CrLf(s);
      Parse(s) ==
        if k == -1 || ChunkSize(s[..k]).None? then None
        else
          var n, rest := ChunkSize(s[..k]).value, s[k + 2..];
          if n == 0 then if EndsStrictly(rest) then Some([]) else None
          else if |rest| < n + 2 || !CrLfAt(rest, n) then None
          else Behind(rest[..n], Parse(rest[n + 2..]))
  {
    hide ChunkSize; hide CrLf; hide CrLfAt; hide EndsStrictly;
  }

  lemma {:induction false} AcceptedNeverWraps(m: string, offset: nat)
    requires offset <= |m| <= MAX_BYTES && Parse(m[offset..]).Some?
    ensures !WrapsFrom(m, offset)
    decreases |m| - offset
  {
    hide WrapsFrom; hide Parse; hide ChunkSize; hide CrLf; hide EndsStrictly;
    var rest := m[offset..];
    ParseStep(rest);
    WrapsStep(m, offset);
    var line := LineAt(m, offset);
    assert rest[line.begin - offset..] == m[line.begin..];
    if line.n > 0 {
      assert m[line.begin..][line.n + 2..] == m[line.begin + line.n + 2..];
      AcceptedNeverWraps(m, line.begin + line.n + 2);
    }
  }

  // ---------------------------------------------------------------- the encoder, and the round trip

  function ChunkOf(block: string): string {
    Digits(|block|, 16) + "\r\n" + block + "\r\n"
  }

  /** `buildChunked` */
  function Build(d: string): string
    decreases |d|
  {
    if d == [] then "0\r\n\r\n"
    else if |d| <= BLOCK then ChunkOf(d) + Build([])
    else ChunkOf(d[..BLOCK]) + Build(d[BLOCK..])
  }

  method BuildChunked(d: string) returns (encoded: string)
    ensures encoded == Build(d)
  {
    hide Build; hide ChunkOf;
    encoded := "";
    var offset := 0;
    assert d[0..] == d && [] + Build(d) == Build(d);
    while offset < |d|
      invariant 0 <= offset <= |d| && encoded + Build(d[offset..]) == Build(d)
    {
      var size := if |d| - offset < BLOCK then |d| - offset else BLOCK;
      var chunk := ChunkOf(d[offset..offset + size]);
      BuildFrom(d, offset, size);
      assert encoded + (chunk + Build(d[offset + size..])) == encoded + chunk + Build(d[offset + size..]);
      encoded := encoded + chunk;
      offset := offset + size;
    }
    BuildNothing(d[offset..]);
    encoded := encoded + "0\r\n\r\n";
  }

  lemma BuildNothing(d: string)
    requires d == []
    ensures Build(d) == "0\r\n\r\n"
  {
  }

  lemma BuildFrom(d: string, offset: nat, size: nat)
    requires offset < |d| && size == if |d| - offset < BLOCK then |d| - offset else BLOCK
    ensures Build(d[offset..]) == ChunkOf(d[offset..offset + size]) + Build(d[offset + size..])
  {
    hide ChunkOf;
    var rest := d[offset..];
    if |rest| <= BLOCK {
      assert d[offset..offset + size] == rest && d[offset + size..] == [];
    } else {
      assert d[offset..offset + size] == rest[..BLOCK] && d[offset + size..] == rest[BLOCK..];
    }
  }

  lemma DigitsAsLine(n: nat, rest: string)
    requires n <= SIZE_MAX
    ensures var s := Digits(n, 16) + "\r\n" + rest;
      var k := CrLf(s);
      k == |Digits(n, 16)| && ChunkSize(s[..k]) == Some(n) && s[k + 2..] == rest
  {
    hide Digits; hide FromDigits; hide Trim; hide CrLf; hide Trimmed;
    var digits := Digits(n, 16);
    var s := digits + "\r\n" + rest;
    DigitsRoundTrip(n, 16);
    SizeOfDigits(n, digits);
    forall i | 0 <= i < |digits| ensures s[i] != '\r' {
      assert s[i] == digits[i] && digits[i] in digits;
    }
    assert CrLfAt(s, |digits|);
    CrLfIs(s, |digits|);
    assert s[..|digits|] == digits && s[|digits| + 2..] == rest;
  }

  lemma SizeOfDigits(n: nat, digits: string)
    requires digits != [] && FromDigits(digits, 16) == Some(n) && forall c :: c in digits ==> IsAlnum(c)
    ensures ChunkSize(digits) == Some(n)
  {
    AlnumTrimmed(digits);
    TrimTrimmed(digits);
    hide FromDigits; hide Trim; hide Trimmed;
    forall i | 0 <= i < |digits| ensures digits[i] != ';' {
      assert digits[i] in digits;
    }
  }

  lemma ParseOne(block: string, rest: string)
    requires 0 < |block| <= SIZE_MAX
    ensures Parse(ChunkOf(block) + rest) == Behind(block, Parse(rest))
  {
    var tail := block + "\r\n" + rest;
    var s := ChunkOf(block) + rest;
    assert s == Digits(|block|, 16) + "\r\n" + tail;
    DigitsAsLine(|block|, tail);
    ParseStep(s);
    hide Digits; hide ChunkSize; hide Parse; hide CrLf; hide ChunkOf;
    assert CrLfAt(tail, |block|) && tail[..|block|] == block && tail[|block| + 2..] == rest;
  }

  lemma ParseLast()
    ensures Parse("0\r\n\r\n") == Some([])
  {
    var s := "0\r\n\r\n";
    assert Digits(0, 16) == "0" && s == Digits(0, 16) + "\r\n" + "\r\n";
    DigitsAsLine(0, "\r\n");
    CrLfIs("\r\n", 0);
  }

  /** Decoding what was encoded gives the data back. */
  lemma RoundTrip(d: string)
    requires |Build(d)| <= MAX_BYTES
    ensures Decode(Build(d)) == Accepted(d)
  {
    hide Decode; hide Parse; hide Build;
    ParseBuilt(d);
    DecodeAccepts(Build(d));
  }

  lemma {:induction false} ParseBuilt(d: string)
    ensures Parse(Build(d)) == Some(d)
    decreases |d|
  {
    hide Parse; hide ChunkOf;
    ParseLast();
    if d != [] {
      var size := if |d| <= BLOCK then |d| else BLOCK;
      ParseBuilt(d[size..]);
      ParseOne(d[..size], Build(d[size..]));
      assert d[..size] + d[size..] == d;
      if |d| <= BLOCK {
        assert d[..size] == d && d[size..] == [];
      }
    }
  }

  /** What the decoder accepts is what exact arithmetic accepts. */
  lemma DecodeAccepts(m: string)
    requires |m| <= MAX_BYTES
    ensures Decode(m).Accepted? <==> Parse(m).Some?
    ensures Parse(m).Some? ==> Decode(m) == Accepted(Parse(m).value)
  {
    hide Parse; hide DecodeFrom; hide WrapsFrom;
    assert m[0..] == m;
    DecodeIsParse(m, 0);
    if Parse(m).Some? {
      AcceptedNeverWraps(m, 0);
    }
  }

  // ---------------------------------------------------------------- the scanner of the stream

  /** The trailer lines behind the last chunk: size including the empty line, or what stops the scan. */
  function ScanTrailers(s: string): (v: Verdict<string>)
    ensures v.Item? ==> 2 <= v.size <= |s| && v.out == [] && v.last
    decreases |s|
  {
    var k := CrLf(s);
    if k == -1 then NeedMore
    else if k == 0 then Item([], 2, true)
    else if !LaxTrailer(s[..k]) then Reject
    else
      var rest := ScanTrailers(s[k + 2..]);
      if rest.Item? then rest.(size := rest.size + k + 2) else rest
  }

  lemma TrailersStep(s: string)
    ensures var k := CrLf(s);
      ScanTrailers(s) ==
        if k == -1 then NeedMore
        else if k == 0 then Item([], 2, true)
        else if !LaxTrailer(s[..k]) then Reject
        else
          var rest := ScanTrailers(s[k + 2..]);
          if rest.Item? then rest.(size := rest.size + k + 2) else rest
  {
    hide LaxTrailer; hide CrLf;
  }

  /** One chunk at the front of the buffer. */
  function Scan(s: string): (v: Verdict<string>)
    ensures v.Item? ==> 0 < v.size <= |s|
  {
    var k := CrLf(s);
    if k == -1 then NeedMore
    else if ChunkSize(s[..k]).None? then Reject
    else
      var n, rest := ChunkSize(s[..k]).value, s[k + 2..];
      if n == 0 then
        var v := ScanTrailers(rest);
        if v.Item? then v.(size := v.size + k + 2) else v
      else if |rest| < n + 2 then NeedMore
      else if !CrLfAt(rest, n) then Reject
      else Item([rest[..n]], k + 2 + n + 2, false)
  }

  lemma {:induction false} TrailersStable(a: string, b: string)
    requires !ScanTrailers(a).NeedMore?
    ensures ScanTrailers(a + b) == ScanTrailers(a)
    decreases |a|
  {
    hide LaxTrailer;
    CrLfStable(a, b);
    var k := CrLf(a);
    assert (a + b)[..k] == a[..k] && (a + b)[k + 2..] == a[k + 2..] + b;
    if k > 0 && LaxTrailer(a[..k]) {
      TrailersStable(a[k + 2..], b);
    }
  }

  lemma ScanStable(a: string, b: string)
    requires !Scan(a).NeedMore?
    ensures Scan(a + b) == Scan(a)
  {
    hide ChunkSize; hide ScanTrailers;
    CrLfStable(a, b);
    var k := CrLf(a);
    var rest := a[k + 2..];
    assert (a + b)[..k] == a[..k] && (a + b)[k + 2..] == rest + b;
    if ChunkSize(a[..k]) == Some(0) {
      TrailersStable(rest, b);
    } else if ChunkSize(a[..k]).Some? {
      var n := ChunkSize(a[..k]).value;
      assert CrLfAt(rest + b, n) <==> CrLfAt(rest, n);
      assert (rest + b)[..n] == rest[..n];
    }
  }

  ghost function Scanner(): (scan: string -> Verdict<string>)
    ensures Lawful(scan)
  {
    var scan := s => Scan(s);
    assert Lawful(scan) by {
      forall a, b | !scan(a).NeedMore? ensures scan(a + b) == scan(a) {
        ScanStable(a, b);
      }
    }
    scan
  }

  /** The outcome of scanning a whole text, and of scanning it read by read. */
  ghost function Drained(s: string): Outcome<char, string> {
    hide Lawful; hide Scanner; Drain(Scanner(), s)
  }

  ghost function Fed(chunks: seq<string>): Outcome<char, string> {
    hide Lawful; hide Scanner; Feed(Scanner(), chunks)
  }

  lemma FedIsDrained(chunks: seq<string>)
    ensures Fed(chunks) == Drained(Flatten(chunks))
  {
    hide Drain; hide Feed; hide Flatten;
    assert Scanner()([]) == Scan([]);
    hide Lawful; hide Scanner;
    SplitIndependent(Scanner(), chunks);
  }

  lemma DrainedAppend(a: string, b: string)
    ensures var o := Drained(a);
      Drained(a + b) ==
        if o.status == Open then var r := Drained(o.rest + b); r.(pieces := o.pieces + r.pieces)
        else o.(rest := o.rest + b)
  {
    hide Drain; hide Lawful; hide Scanner;
    DrainAppend(Scanner(), a, b);
  }

  // ---------------------------------------------------------------- the stream refines the decoder

  lemma StrictIsLax(line: string)
    requires StrictTrailer(line)
    ensures LaxTrailer(line)
  {
  }

  lemma {:induction false} StrictEndScans(s: string)
    requires EndsStrictly(s)
    ensures ScanTrailers(s) == Item([], |s|, true)
    decreases |s|
  {
    hide LaxTrailer; hide StrictTrailer;
    var k := CrLf(s);
    if k > 0 {
      StrictIsLax(s[..k]);
      StrictEndScans(s[k + 2..]);
    }
  }

  lemma DrainStep(s: string)
    ensures Scan(s).NeedMore? ==> Drained(s) == Outcome([], s, Open)
    ensures Scan(s).Reject? ==> Drained(s) == Outcome([], s, Failed)
    ensures Scan(s).Item? && Scan(s).last ==> Drained(s) == Outcome(Scan(s).out, s[Scan(s).size..], Done)
    ensures Scan(s).Item? && !Scan(s).last ==>
      var r := Drained(s[Scan(s).size..]);
      Drained(s) == r.(pieces := Scan(s).out + r.pieces)
  {
    hide Scan;
    assert Scanner()(s) == Scan(s);
  }

  lemma {:induction false} FlattenCons(x: string, parts: seq<string>)
    ensures Flatten([x] + parts) == x + Flatten(parts)
  {
    FlattenFront([x] + parts);
    assert ([x] + parts)[1..] == parts;
  }

  /**
   Whenever the decoder accepts a message, draining the whole message delivers its body and ends exactly at its
   end.
   */
  lemma {:induction false} DrainRefinesParse(m: string)
    requires Parse(m).Some?
    ensures var o := Drained(m);
      o.status == Done && o.rest == [] && Flatten(o.pieces) == Parse(m).value
    decreases |m|
  {
    hide ChunkSize; hide Drained; hide Parse; hide EndsStrictly; hide ScanTrailers; hide Flatten; hide CrLf;
    ParseStep(m);
    DrainStep(m);
    var k := CrLf(m);
    var n, rest := ChunkSize(m[..k]).value, m[k + 2..];
    if n == 0 {
      StrictEndScans(rest);
      assert m[|m|..] == [];
      FlattenNothing();
    } else {
      assert m[k + 2 + n + 2..] == rest[n + 2..];
      DrainRefinesParse(rest[n + 2..]);
      FlattenCons(rest[..n], Drained(rest[n + 2..]).pieces);
    }
  }

  lemma FlattenNothing()
    ensures Flatten<char>([]) == []
  {
  }

  // ---------------------------------------------------------------- the stream with 64-bit sums

  /**
   One chunk at the front of the buffer as the streaming client takes it off. An exception leaves everything as
   it is, as lacking input does. Of a chunk whose end wraps around, everything that is there is delivered.
   */
  function Take(s: string): (v: Verdict<string>)
    ensures v.Item? ==> 0 < v.size <= |s|
  {
    match LineAt(s, 0)
    case NoLine => NeedMore
    case NoSize => Reject
    case Chunk(n, begin) =>
      if n == 0 then
        var v := ScanTrailers(s[begin..]);
        if v.Item? then v.(size := begin + v.size) else v
      else
        match ChunkEnd(s, begin, n)
        case End(answer) => if answer == Bad then Reject else NeedMore
        case On(next) => Item(Piece(s[begin..], n), next, false)
  }

  /** At most `n` characters; nothing is delivered if there are none. */
  function Piece(rest: string, n: nat): seq<string> {
    if rest == [] then [] else [if n <= |rest| then rest[..n] else rest]
  }

  /** The front of the buffer is taken as exact arithmetic has it, unless the end of the chunk wraps around. */
  lemma TakeIsScan(s: string)
    requires !WrapsAt(s, 0)
    ensures Take(s) == Scan(s)
  {
    hide ChunkSize; hide CrLf; hide ScanTrailers;
    assert s[0..] == s;
    LineFits(s, 0);
    var line := LineAt(s, 0);
    if line.Chunk? && line.n > 0 {
      EndIsExact(s, line.begin, line.n);
      hide ChunkEnd;
      assert CrLfAt(s[line.begin..], line.n) <==> CrLfAt(s, line.begin + line.n);
    }
  }

  /**
   If it wraps around, exact arithmetic waits. The client does not, unless it throws: it delivers whatever is
   there if the size is 2^64 - 2, and gives up otherwise.
   */
  lemma WrappedTake(s: string)
    requires |s| <= MAX_BYTES && WrapsAt(s, 0)
    ensures Scan(s) == NeedMore
    ensures var Chunk(n, begin) := LineAt(s, 0);
      Take(s) ==
        if n == WORD - 2 then Item(Piece(s[begin..], n), begin, false)
        else if begin + n < WORD then NeedMore
        else Reject
  {
    hide ChunkSize; hide ScanTrailers;
    assert s[0..] == s;
    LineFits(s, 0);
    var Chunk(n, begin) := LineAt(s, 0);
    EndIsExact(s, begin, n);
    SumOfEnd(begin, n);
    hide Sum64;
    var k := CrLf(s);
    assert begin == k + 2 && CrLfAt(s, k);
    forall i | 0 <= i < begin ensures CrLfAt(s, i) <==> i == k {
      assert i == k + 1 ==> s[i] == '\n';
    }
    hide CrLf;
  }

  /** Chunks are taken off until there is none left. */
  function Taken(s: string): Outcome<char, string>
    decreases |s|
  {
    var v := Take(s);
    match v
    case NeedMore => Outcome([], s, Open)
    case Reject => Outcome([], s, Failed)
    case Item(out, size, last) =>
      if last then Outcome(out, s[size..], Done)
      else var r := Taken(s[size..]); r.(pieces := out + r.pieces)
  }

  /** Read by read. */
  function Streamed(chunks: seq<string>): Outcome<char, string> {
    if chunks == [] then Outcome([], [], Open)
    else
      var o, more := Streamed(chunks[..|chunks| - 1]), chunks[|chunks| - 1];
      if o.status == Open then var r := Taken(o.rest + more); r.(pieces := o.pieces + r.pieces)
      else o.(rest := o.rest + more)
  }

  /** No chunk on the way wraps around. */
  predicate Tame(s: string)
    decreases |s|
  {
    !WrapsAt(s, 0) && (Scan(s).Item? && !Scan(s).last ==> Tame(s[Scan(s).size..]))
  }

  lemma TameStep(s: string)
    ensures Tame(s) <==> !WrapsAt(s, 0) && (Scan(s).Item? && !Scan(s).last ==> Tame(s[Scan(s).size..]))
  {
    hide Scan; hide WrapsAt;
  }

  lemma {:induction false} TakenIsDrained(s: string)
    requires Tame(s)
    ensures Taken(s) == Drained(s)
    decreases |s|
  {
    hide Scan; hide Take; hide WrapsAt; hide Tame; hide Drained;
    TameStep(s);
    TakeIsScan(s);
    DrainStep(s);
    if Scan(s).Item? && !Scan(s).last {
      TakenIsDrained(s[Scan(s).size..]);
    }
  }

  lemma WrapStays(a: string, b: string)
    requires WrapsAt(a, 0)
    ensures WrapsAt(a + b, 0)
  {
    hide LineAt;
    LineStable(a, b, 0);
  }

  /** What has arrived of a tame message is tame, and so is what is left of the message. */
  lemma {:induction false} TamePart(a: string, b: string)
    requires Tame(a + b)
    ensures Tame(a) && (Drained(a).status == Open ==> Tame(Drained(a).rest + b))
    decreases |a|
  {
    hide Scan; hide WrapsAt; hide Tame; hide Drained;
    TameStep(a);
    TameStep(a + b);
    DrainStep(a);
    if WrapsAt(a, 0) {
      WrapStays(a, b);
    }
    var v := Scan(a);
    if v.Item? {
      ScanStable(a, b);
      if !v.last {
        assert (a + b)[v.size..] == a[v.size..] + b;
        TamePart(a[v.size..], b);
      }
    }
  }

  lemma FedLast(chunks: seq<string>)
    requires chunks != []
    ensures var o, more := Fed(chunks[..|chunks| - 1]), chunks[|chunks| - 1];
      Fed(chunks) ==
        if o.status == Open then var r := Drained(o.rest + more); r.(pieces := o.pieces + r.pieces)
        else o.(rest := o.rest + more)
  {
    hide Scanner; hide Lawful; hide Drain;
  }

  lemma FedNothing()
    ensures Fed([]) == Outcome([], [], Open)
  {
    hide Scanner; hide Lawful; hide Drain;
  }

  /** If no chunk on the way wraps around, the stream is the one of exact arithmetic, however it is split. */
  lemma {:induction false} StreamedIsFed(chunks: seq<string>)
    requires Tame(Flatten(chunks))
    ensures Streamed(chunks) == Fed(chunks)
  {
    hide Tame; hide Fed; hide Drained; hide Taken;
    if chunks == [] {
      FedNothing();
    } else {
      var front, more := chunks[..|chunks| - 1], chunks[|chunks| - 1];
      TamePart(Flatten(front), more);
      StreamedIsFed(front);
      FedIsDrained(front);
      FedLast(chunks);
      var o := Fed(front);
      if o.status == Open {
        TakenIsDrained(o.rest + more);
      }
    }
  }

  lemma {:induction false} AcceptedIsTame(m: string)
    requires Parse(m).Some? && |m| <= MAX_BYTES
    ensures Tame(m)
    decreases |m|
  {
    hide Parse; hide ChunkSize; hide CrLf; hide EndsStrictly; hide ScanTrailers; hide Tame;
    assert m[0..] == m;
    ParseStep(m);
    TameStep(m);
    var Chunk(n, begin) := LineAt(m, 0);
    if n == 0 {
      StrictEndScans(m[begin..]);
    } else {
      assert m[begin..][n + 2..] == m[begin + n + 2..];
      AcceptedIsTame(m[begin + n + 2..]);
    }
  }

  /**
   The streaming consumer refines the decoder: fed an accepted message in any split into reads, it
   delivers pieces that make up the body and completes with the last byte.
   */
  lemma StreamRefinesParse(m: string, chunks: seq<string>)
    requires Decode(m).Accepted? && |m| <= MAX_BYTES && Flatten(chunks) == m
    ensures var o := Streamed(chunks);
      o.status == Done && o.rest == [] && Flatten(o.pieces) == Decode(m).body
  {
    hide *;
    DecodeAccepts(m);
    AcceptedIsTame(m);
    StreamedIsFed(chunks);
    FedIsDrained(chunks);
    DrainRefinesParse(m);
  }

  /** Before the last byte of an accepted message the stream is still open, and has delivered only part of the body. */
  lemma OpenUntilTheEnd(m: string, chunks: seq<string>)
    requires Decode(m).Accepted? && |m| <= MAX_BYTES && Flatten(chunks) < m
    ensures var o := Streamed(chunks);
      o.status == Open && Flatten(o.pieces) <= Decode(m).body
  {
    hide *;
    DecodeAccepts(m);
    var p := Flatten(chunks);
    assert m == p + m[|p|..];
    AcceptedIsTame(m);
    TamePart(p, m[|p|..]);
    StreamedIsFed(chunks);
    FedIsDrained(chunks);
    DrainedAppend(p, m[|p|..]);
    DrainRefinesParse(m);
    var o := Drained(p);
    if o.status == Open {
      FlattenConcat(o.pieces, Drained(o.rest + m[|p|..]).pieces);
    }
  }

  lemma {:induction false} FlattenConcat(a: seq<string>, b: seq<string>)
    ensures Flatten(a + b) == Flatten(a) + Flatten(b)
  {
    if b == [] {
      assert a + b == a;
    } else {
      var last := |b| - 1;
      FlattenConcat(a, b[..last]);
      assert (a + b)[..|a + b| - 1] == a + b[..last];
      assert Flatten(a) + (Flatten(b[..last]) + b[last]) == Flatten(a) + Flatten(b[..last]) + b[last];
    }
  }
}
