/**
 How the HTTP server finds the end of a chunked request body: the scan with exact arithmetic, and the scan of the
 source, whose moving offset is a 64-bit sum.
 */
module BodyScan {
  import opened Optional
  import opened Sizes
  import opened Text
  import opened Walks
  import opened Incremental
  import Chunked

  // ---------------------------------------------------------------- numbers as the server reads them

  function DigitRun(s: string, base: Base): (k: nat)
    ensures k <= |s|
    ensures forall i :: 0 <= i < k ==> DigitValue(s[i], base) >= 0
    ensures k < |s| ==> DigitValue(s[k], base) < 0
  {
    if s == [] || DigitValue(s[0], base) < 0 then 0 else 1 + DigitRun(s[1..], base)
  }

  function AfterSign(s: string): string {
    if s != [] && (s[0] == '-' || s[0] == '+') then s[1..] else s
  }

  function AfterPrefix(s: string, base: Base): string {
    if base == 16 && |s| >= 3 && s[0] == '0' && (s[1] == 'x' || s[1] == 'X') &&
      DigitValue(s[2], base) >= 0 then s[2..] else s
  }

  /**
   `std::stoull`: white space, a sign and a hexadecimal prefix are skipped, anything behind the digits is
   ignored, and a minus sign negates modulo two to the 64th. `None` where it throws.
   */
  function Stoull(s: string, base: Base): Option<nat> {
    var t := TrimLeft(s);
    var digits := AfterPrefix(AfterSign(t), base);
    var k := DigitRun(digits, base);
    if k == 0 then None
    else
      var n := FromDigits(digits[..k], base);
      if n.Some? && n.value > 0 && t[..1] == "-" && n.value <= SIZE_MAX then Some(SIZE_MAX + 1 - n.value) else n
  }

  lemma StoullFits(s: string, base: Base)
    ensures Stoull(s, base).Some? ==> Stoull(s, base).value <= SIZE_MAX
  {
    hide DigitRun; hide TrimLeft;
    var digits := AfterPrefix(AfterSign(TrimLeft(s)), base);
    FromDigitsFits(digits[..DigitRun(digits, base)], base);
  }

  lemma FromDigitsFits(s: string, base: Base)
    ensures FromDigits(s, base).Some? ==> FromDigits(s, base).value <= SIZE_MAX
  {
  }

  // ---------------------------------------------------------------- with exact arithmetic

  /** One chunk at the front; the last one must be followed by an empty line, trailers are not accepted. */
  function ScanChunk(s: string): (v: Verdict<string>)
    ensures v.Item? ==> 0 < v.size <= |s|
  {
    var k := CrLf(s);
    if k == -1 then NeedMore
    else if Stoull(s[..k], 16).None? then Reject
    else
      var n, rest := Stoull(s[..k], 16).value, s[k + 2..];
      if |rest| < n + 2 then NeedMore
      else if !CrLfAt(rest, n) then Reject
      else Item([], k + 2 + n + 2, n == 0)
  }

  /** The size of a whole chunked body. */
  function ScanBody(s: string): (v: Verdict<string>)
    ensures v.Item? ==> v.out == [] && 0 < v.size <= |s| && v.last
    decreases |s|
  {
    var c := ScanChunk(s);
    if !c.Item? || c.last then c
    else
      var rest := ScanBody(s[c.size..]);
      if rest.Item? then rest.(size := c.size + rest.size) else rest
  }

  lemma ChunkStable(a: string, b: string)
    requires !ScanChunk(a).NeedMore?
    ensures ScanChunk(a + b) == ScanChunk(a)
  {
    hide Stoull;
    CrLfStable(a, b);
    var k := CrLf(a);
    var rest := a[k + 2..];
    assert (a + b)[..k] == a[..k] && (a + b)[k + 2..] == rest + b;
    if Stoull(a[..k], 16).Some? {
      var n := Stoull(a[..k], 16).value;
      assert CrLfAt(rest + b, n) <==> CrLfAt(rest, n);
    }
  }

  lemma BodyStep(s: string)
    ensures var c := ScanChunk(s);
      ScanBody(s) ==
        if !c.Item? || c.last then c
        else
          var rest := ScanBody(s[c.size..]);
          if rest.Item? then rest.(size := c.size + rest.size) else rest
  {
    hide ScanChunk;
  }

  lemma {:induction false} BodyStable(a: string, b: string)
    requires !ScanBody(a).NeedMore?
    ensures ScanBody(a + b) == ScanBody(a)
    decreases |a|
  {
    hide ScanBody; hide ScanChunk;
    BodyStep(a);
    BodyStep(a + b);
    ChunkStable(a, b);
    var c := ScanChunk(a);
    if c.Item? && !c.last {
      assert (a + b)[c.size..] == a[c.size..] + b;
      BodyStable(a[c.size..], b);
    }
  }

  // ---------------------------------------------------------------- with 64-bit sums

  /** The line at an offset as the server reads it. */
  function LineAt(data: string, offset: nat): (line: Chunked.SizeLine)
    requires offset <= |data|
    ensures line.Chunk? ==> offset + 2 <= line.begin <= |data|
  {
    var k := CrLf(data[offset..]);
    if k == -1 then Chunked.NoLine
    else
      var n := Stoull(data[offset..][..k], 16);
      if n.None? then Chunked.NoSize else Chunked.Chunk(n.value, offset + k + 2)
  }

  /** One turn of `getChunkedMessageSize` of the server. */
  function BodyTurn(data: string, offset: nat): (t: Turn<Chunked.SizeAnswer>)
    requires offset <= |data|
    ensures t.On? ==> t.next <= |data|
    ensures t.End? && t.answer.Size? ==> 2 <= t.answer.size <= |data|
  {
    match LineAt(data, offset)
    case NoLine => End(Chunked.Short)
    case NoSize => End(Chunked.Bad)
    case Chunk(n, begin) =>
      var t := Chunked.ChunkEnd(data, begin, n);
      if t.On? && n == 0 then End(Chunked.Size(t.next)) else t
  }

  function BodyTurns(data: string): nat -> Turn<Chunked.SizeAnswer> {
    (o: nat) => if o <= |data| then BodyTurn(data, o) else End(Chunked.Short)
  }

  /** What the scan comes to, if it comes to anything. */
  function BodySize(data: string): Ending<Chunked.SizeAnswer> {
    Walked(BodyTurns(data), |data|)
  }

  lemma TurnsWithin(data: string)
    ensures Within(BodyTurns(data), |data|)
  {
    hide BodyTurn;
  }

  lemma TurnStep(data: string, offset: nat)
    requires offset <= |data|
    ensures BodyTurns(data)(offset) == BodyTurn(data, offset)
  {
    hide BodyTurn;
  }

  function BodyFrom(data: string, offset: nat, turns: nat): Turn<Chunked.SizeAnswer> {
    Walk(BodyTurns(data), offset, turns)
  }

  lemma BodyFromStep(data: string, offset: nat, turns: nat)
    requires offset <= |data|
    ensures var t := BodyTurn(data, offset);
      BodyFrom(data, offset, turns) == if t.End? || turns == 0 then t else BodyFrom(data, t.next, turns - 1)
  {
    hide BodyTurn; hide BodyTurns;
    TurnStep(data, offset);
  }

  lemma BodySizeIs(data: string)
    ensures var t := BodyFrom(data, 0, |data| + 1); BodySize(data) == if t.End? then Ends(t.answer) else Endless
  {
    hide Walk; hide BodyTurns;
  }

  method TakeTurn(data: string, offset: nat) returns (t: Turn<Chunked.SizeAnswer>)
    requires offset <= |data|
    ensures t == BodyTurn(data, offset)
  {
    hide Stoull; hide CrLf; hide Sum64;
    var k := CrLf(data[offset..]);
    if k == -1 {
      return End(Chunked.Short);
    }
    var size := Stoull(data[offset..][..k], 16);
    if size.None? {
      return End(Chunked.Bad);
    }
    var n, begin := size.value, offset + k + 2;
    var at, next := Sum64(begin, n), Sum64(begin, n + 2);
    if |data| < next {
      return End(Chunked.Short);
    }
    if next < at {
      return End(Chunked.Thrown);
    }
    if !CrLfAt(data, at) {
      return End(Chunked.Bad);
    }
    return if n == 0 then End(Chunked.Size(next)) else On(next);
  }

  /** `getChunkedMessageSize` of the server with its moving offset, where it ends. */
  method GetChunkedMessageSize(data: string) returns (r: Chunked.SizeAnswer)
    requires !BodySize(data).Endless?
    ensures BodySize(data) == Ends(r)
  {
    hide *;
    BodySizeIs(data);
    var offset := 0;
    ghost var left: nat := |data| + 1;
    while true
      invariant 0 <= offset <= |data| && BodyFrom(data, offset, left) == BodyFrom(data, 0, |data| + 1)
      decreases left
    {
      BodyFromStep(data, offset, left);
      var t := TakeTurn(data, offset);
      if t.End? {
        return t.answer;
      }
      offset, left := t.next, left - 1;
    }
  }

  // ---------------------------------------------------------------- an answer does not change

  lemma LineStable(data: string, more: string, offset: nat)
    requires offset <= |data| && !LineAt(data, offset).NoLine?
    ensures LineAt(data + more, offset) == LineAt(data, offset)
  {
    hide Stoull; hide CrLf;
    var rest := data[offset..];
    CrLfStable(rest, more);
    assert (data + more)[offset..] == rest + more && (rest + more)[..CrLf(rest)] == rest[..CrLf(rest)];
  }

  lemma TurnStable(data: string, more: string, offset: nat)
    requires offset <= |data| && BodyTurn(data, offset) != End(Chunked.Short)
    ensures BodyTurn(data + more, offset) == BodyTurn(data, offset)
  {
    hide LineAt; hide Chunked.ChunkEnd;
    LineStable(data, more, offset);
    var line := LineAt(data, offset);
    if line.Chunk? {
      Chunked.EndStable(data, more, line.begin, line.n);
    }
  }

  lemma {:induction false} AnswerInside(data: string, offset: nat, turns: nat)
    requires offset <= |data|
    ensures var t := BodyFrom(data, offset, turns); t.End? && t.answer.Size? ==> 2 <= t.answer.size <= |data|
    decreases turns
  {
    hide BodyTurn; hide BodyFrom;
    BodyFromStep(data, offset, turns);
    var t := BodyTurn(data, offset);
    if t.On? && turns > 0 {
      AnswerInside(data, t.next, turns - 1);
    }
  }

  lemma SizeInside(data: string)
    ensures BodySize(data).Ends? && BodySize(data).answer.Size? ==> 2 <= BodySize(data).answer.size <= |data|
  {
    hide BodySize; hide BodyFrom;
    BodySizeIs(data);
    AnswerInside(data, 0, |data| + 1);
  }

  /** What the scan comes to, wrapped around or not, is not changed by more input, unless input was lacking. */
  lemma BodySizeStable(data: string, more: string)
    requires BodySize(data) != Ends(Chunked.Short)
    ensures BodySize(data + more) == BodySize(data)
  {
    var turns, others := BodyTurns(data), BodyTurns(data + more);
    assert Extends(turns, others, |data|, Chunked.Short) by {
      hide BodyTurns; hide BodyTurn;
      forall o: nat | o <= |data| && turns(o) != End(Chunked.Short) ensures others(o) == turns(o) {
        TurnStep(data, o);
        TurnStep(data + more, o);
        TurnStable(data, more, o);
      }
    }
    hide BodyTurns; hide Walk; hide Extends;
    TurnsWithin(data);
    WalkedStable(turns, others, |data|, |data + more|, Chunked.Short);
  }

  // ---------------------------------------------------------------- where the sums wrap around

  /** The chunk at an offset has an end that wraps around. */
  predicate WrapsAt(data: string, offset: nat)
    requires offset <= |data|
  {
    var line := LineAt(data, offset);
    line.Chunk? && Chunked.EndWraps(data, line.begin, line.n)
  }

  /** On the way through the body, some chunk has an end that wraps around. */
  predicate WrapsFrom(data: string, offset: nat)
    requires offset <= |data|
    decreases |data| - offset
  {
    || WrapsAt(data, offset)
    || var c := ScanChunk(data[offset..]);
       c.Item? && !c.last && WrapsFrom(data, offset + c.size)
  }

  lemma WrapsStep(data: string, offset: nat)
    requires offset <= |data|
    ensures var c := ScanChunk(data[offset..]);
      WrapsFrom(data, offset) <==> WrapsAt(data, offset) || (c.Item? && !c.last && WrapsFrom(data, offset + c.size))
  {
    hide ScanChunk; hide WrapsAt;
  }

  /** What a turn at an offset says of the whole body, if it says what the scan says of what lies there. */
  function TurnOf(offset: nat, v: Verdict<string>): Turn<Chunked.SizeAnswer> {
    match v
    case NeedMore => End(Chunked.Short)
    case Reject => End(Chunked.Bad)
    case Item(_, size, last) => if last then End(Chunked.Size(offset + size)) else On(offset + size)
  }

  lemma LineFits(data: string, offset: nat)
    requires offset <= |data|
    ensures LineAt(data, offset).Chunk? ==> LineAt(data, offset).n <= SIZE_MAX
  {
    hide Stoull; hide CrLf;
    var k := CrLf(data[offset..]);
    if k != -1 {
      StoullFits(data[offset..][..k], 16);
    }
  }

  /** A turn is that of exact arithmetic if and only if the end of the chunk does not wrap around. */
  lemma TurnIsExact(data: string, offset: nat)
    requires offset <= |data|
    ensures !WrapsAt(data, offset) ==> BodyTurn(data, offset) == TurnOf(offset, ScanChunk(data[offset..]))
    ensures |data| <= MAX_BYTES && WrapsAt(data, offset) ==>
      ScanChunk(data[offset..]).NeedMore? && BodyTurn(data, offset) != End(Chunked.Short)
  {
    hide Stoull; hide CrLf;
    LineFits(data, offset);
    var line := LineAt(data, offset);
    if line.Chunk? {
      assert data[offset..][line.begin - offset..] == data[line.begin..];
      Chunked.EndIsExact(data, line.begin, line.n);
      hide Chunked.ChunkEnd;
      assert CrLfAt(data[line.begin..], line.n) <==> CrLfAt(data, line.begin + line.n);
    }
  }

  lemma {:induction false} WalkIsScan(data: string, offset: nat, turns: nat)
    requires offset <= |data| && !WrapsFrom(data, offset) && turns >= |data| - offset
    ensures BodyFrom(data, offset, turns) == TurnOf(offset, ScanBody(data[offset..]))
    decreases |data| - offset
  {
    hide BodyFrom; hide BodyTurn; hide WrapsFrom; hide WrapsAt; hide ScanChunk; hide ScanBody;
    var rest := data[offset..];
    BodyFromStep(data, offset, turns);
    WrapsStep(data, offset);
    TurnIsExact(data, offset);
    BodyStep(rest);
    var c := ScanChunk(rest);
    if c.Item? && !c.last {
      assert data[offset + c.size..] == rest[c.size..];
      WalkIsScan(data, offset + c.size, turns - 1);
    }
  }

  /** If no chunk on the way wraps around, the scan says what exact arithmetic says. */
  lemma BodySizeIsScan(data: string)
    requires !WrapsFrom(data, 0)
    ensures var v := ScanBody(data);
      BodySize(data) ==
        Ends(if v.NeedMore? then Chunked.Short else if v.Reject? then Chunked.Bad else Chunked.Size(v.size))
  {
    hide WrapsFrom; hide BodyFrom; hide ScanBody; hide BodySize;
    WalkIsScan(data, 0, |data| + 1);
    BodySizeIs(data);
    assert data[0..] == data;
  }

  /** If one does, exact arithmetic waits for more. */
  lemma {:induction false} WrapsWaits(data: string, offset: nat)
    requires offset <= |data| <= MAX_BYTES && WrapsFrom(data, offset)
    ensures ScanBody(data[offset..]).NeedMore?
    decreases |data| - offset
  {
    hide BodyTurn; hide WrapsFrom; hide WrapsAt; hide ScanChunk; hide ScanBody;
    WrapsStep(data, offset);
    TurnIsExact(data, offset);
    BodyStep(data[offset..]);
    if !WrapsAt(data, offset) {
      var c := ScanChunk(data[offset..]);
      assert data[offset + c.size..] == data[offset..][c.size..];
      WrapsWaits(data, offset + c.size);
    }
  }

  lemma WrapStays(data: string, more: string, offset: nat)
    requires offset <= |data| && WrapsAt(data, offset)
    ensures WrapsAt(data + more, offset)
  {
    hide LineAt;
    LineStable(data, more, offset);
  }

  /** With more input, a body that wraps around still does. */
  lemma {:induction false} WrapsStay(data: string, more: string, offset: nat)
    requires offset <= |data| && WrapsFrom(data, offset)
    ensures WrapsFrom(data + more, offset)
    decreases |data| - offset
  {
    hide WrapsFrom; hide WrapsAt; hide ScanChunk;
    WrapsStep(data, offset);
    WrapsStep(data + more, offset);
    if WrapsAt(data, offset) {
      WrapStays(data, more, offset);
    } else {
      var c := ScanChunk(data[offset..]);
      assert (data + more)[offset..] == data[offset..] + more;
      ChunkStable(data[offset..], more);
      WrapsStay(data, more, offset + c.size);
    }
  }

  // ---------------------------------------------------------------- a chunked body is one body

  /** The digits of a number, read as the server reads a chunk's size line. */
  lemma SizeLine(n: nat)
    requires n <= SIZE_MAX
    ensures Stoull(Digits(n, 16), 16) == Some(n)
  {
    var s := Digits(n, 16);
    DigitsRoundTrip(n, 16);
    assert forall i :: 0 <= i < |s| ==> s[i] in s;
    HexDigits(s);
    hide Digits; hide IsAlnum;
    assert DigitValue(s[0], 16) >= 0;
    NoPrefix(s);
    var k := DigitRun(s, 16);
    assert k == |s| && s[..k] == s;
    hide FromDigits; hide DigitRun; hide AfterPrefix;
  }

  lemma {:induction false} HexDigits(s: string)
    requires FromDigits(s, 16).Some?
    ensures forall i :: 0 <= i < |s| ==> DigitValue(s[i], 16) >= 0
  {
    if s != [] {
      HexDigits(s[..|s| - 1]);
      forall i | 0 <= i < |s| ensures DigitValue(s[i], 16) >= 0 {
        assert i < |s| - 1 ==> s[i] == s[..|s| - 1][i];
      }
    }
  }

  lemma NoPrefix(s: string)
    requires s != [] && forall i :: 0 <= i < |s| ==> DigitValue(s[i], 16) >= 0
    ensures TrimLeft(s) == s && AfterSign(s) == s && AfterPrefix(s, 16) == s && s[..1] != "-"
  {
    assert DigitValue('x', 16) < 0 && DigitValue('X', 16) < 0 && DigitValue('-', 16) < 0 && DigitValue('+', 16) < 0;
    assert s[..1][0] == s[0];
  }

  lemma ChunkLayout(block: string, rest: string)
    ensures Chunked.ChunkOf(block) + rest == Digits(|block|, 16) + "\r\n" + (block + "\r\n" + rest)
    ensures |Chunked.ChunkOf(block)| == |Digits(|block|, 16)| + 2 + |block| + 2
    ensures CrLfAt(block + "\r\n" + rest, |block|)
  {
    hide Digits;
    var line, body := Digits(|block|, 16) + "\r\n", block + "\r\n";
    assert body[|block|] == '\r' && body[|block| + 1] == '\n';
    Associate(line, block, "\r\n");
    Associate(line, body, rest);
  }

  lemma Associate(a: string, b: string, c: string)
    ensures a + b + c == a + (b + c)
  {
  }

  lemma ScanBuiltChunk(block: string, rest: string)
    requires |block| <= SIZE_MAX
    ensures ScanChunk(Chunked.ChunkOf(block) + rest) == Item([], |Chunked.ChunkOf(block)|, block == [])
  {
    hide *;
    var digits, tail := Digits(|block|, 16), block + "\r\n" + rest;
    ChunkLayout(block, rest);
    SizeLine(|block|);
    Chunked.DigitsAsLine(|block|, tail);
    assert (digits + "\r\n" + tail)[..|digits|] == digits;
    ScanChunkIs(digits + "\r\n" + tail, |digits|, |block|, tail);
  }

  lemma ScanChunkIs(s: string, k: nat, n: nat, tail: string)
    requires CrLf(s) == k && k + 2 <= |s| && Stoull(s[..k], 16) == Some(n) && s[k + 2..] == tail && CrLfAt(tail, n)
    ensures ScanChunk(s) == Item([], k + 2 + n + 2, n == 0)
  {
    hide Stoull; hide CrLf;
  }

  /** A body that was chunked is taken as a whole and nothing more. */
  lemma {:induction false} ScanBuilt(d: string, rest: string)
    ensures ScanBody(Chunked.Build(d) + rest) == Item([], |Chunked.Build(d)|, true)
    decreases |d|
  {
    hide ScanChunk; hide ScanBody; hide Chunked.ChunkOf;
    if d == [] {
      LastChunk();
      ScanBuiltChunk([], rest);
      BodyStep(Chunked.Build(d) + rest);
    } else {
      var size := if |d| <= Chunked.BLOCK then |d| else Chunked.BLOCK;
      var chunk, more := Chunked.ChunkOf(d[..size]), Chunked.Build(d[size..]);
      assert d[0..] == d;
      Chunked.BuildFrom(d, 0, size);
      assert chunk + more + rest == chunk + (more + rest);
      ScanBuiltChunk(d[..size], more + rest);
      BodyStep(chunk + (more + rest));
      assert (chunk + (more + rest))[|chunk|..] == more + rest;
      hide Chunked.Build;
      ScanBuilt(d[size..], rest);
    }
  }

  lemma LastChunk()
    ensures Chunked.Build([]) == Chunked.ChunkOf([])
  {
    assert Digits(0, 16) == "0";
  }

  /** A body of which exact arithmetic finds the end does not wrap around. */
  lemma {:induction false} ItemNeverWraps(data: string, offset: nat)
    requires offset <= |data| && ScanBody(data[offset..]).Item? && offset + ScanBody(data[offset..]).size < WORD
    ensures !WrapsFrom(data, offset)
    decreases |data| - offset
  {
    hide ScanBody; hide ScanChunk; hide WrapsAt; hide WrapsFrom;
    BodyStep(data[offset..]);
    WrapsStep(data, offset);
    ChunkNeverWraps(data, offset);
    var c := ScanChunk(data[offset..]);
    if !c.last {
      assert data[offset + c.size..] == data[offset..][c.size..];
      ItemNeverWraps(data, offset + c.size);
    }
  }

  lemma {:induction false} ItemBelowWord(data: string, offset: nat)
    requires offset <= |data| && ScanBody(data[offset..]).Item? && !WrapsFrom(data, offset)
    ensures offset + ScanBody(data[offset..]).size < WORD
    decreases |data| - offset
  {
    hide ScanBody; hide WrapsFrom; hide CrLf; hide Stoull;
    BodyStep(data[offset..]);
    WrapsStep(data, offset);
    var c := ScanChunk(data[offset..]);
    if !c.last {
      assert data[offset + c.size..] == data[offset..][c.size..];
      ItemBelowWord(data, offset + c.size);
    }
  }

  lemma ChunkNeverWraps(data: string, offset: nat)
    requires offset <= |data|
    requires ScanChunk(data[offset..]).Item? && offset + ScanChunk(data[offset..]).size < WORD
    ensures !WrapsAt(data, offset)
  {
    hide Stoull; hide CrLf;
  }

  // ---------------------------------------------------------------- the decoder reads the same sizes

  lemma {:induction false} TrimRightKeeps(s: string)
    ensures TrimRight(s) <= s && (TrimRight(s) < s ==> IsSpace(s[|TrimRight(s)|]))
  {
    if s != [] && IsSpace(s[|s| - 1]) {
      TrimRightKeeps(s[..|s| - 1]);
    }
  }

  lemma {:induction false} TrimLeftTrimmed(s: string)
    ensures TrimLeft(s) == [] || !IsSpace(TrimLeft(s)[0])
  {
    if s != [] && IsSpace(s[0]) {
      TrimLeftTrimmed(s[1..]);
    }
  }

  /** The digits in a size line: behind white space, and before white space or an extension. */
  lemma SizeDigits(line: string) returns (digits: string)
    requires Chunked.ChunkSize(line).Some?
    ensures digits != [] && FromDigits(digits, 16) == Chunked.ChunkSize(line)
    ensures var t := TrimLeft(line);
      digits <= t && (digits < t ==> IsSpace(t[|digits|]) || t[|digits|] == ';')
  {
    var t := TrimLeft(line);
    TrimLeftTrimmed(line);
    var trimmed := TrimRight(t);
    TrimRightKeeps(t);
    var extension := Find(trimmed, ';');
    hide FromDigits; hide IsSpace; hide Find;
    if extension == -1 {
      assert TrimLeft(trimmed) == trimmed;
      TrimRightKeeps(trimmed);
      digits := TrimRight(trimmed);
    } else {
      var front := trimmed[..extension];
      assert TrimLeft(front) == front;
      TrimRightKeeps(front);
      var once := TrimRight(front);
      assert TrimLeft(once) == once;
      TrimRightKeeps(once);
      digits := TrimRight(once);
    }
  }

  lemma {:induction false} DigitRunIs(s: string, k: nat)
    requires k <= |s| && (forall i :: 0 <= i < k ==> DigitValue(s[i], 16) >= 0)
    requires k < |s| ==> DigitValue(s[k], 16) < 0
    ensures DigitRun(s, 16) == k
  {
    hide DigitValue;
  }

  /** A size that the decoder can read is read the same by the scan. */
  lemma SameSize(line: string)
    requires Chunked.ChunkSize(line).Some?
    ensures Stoull(line, 16) == Chunked.ChunkSize(line)
  {
    var digits := SizeDigits(line);
    var t := TrimLeft(line);
    HexDigits(digits);
    hide Chunked.ChunkSize; hide TrimLeft; hide FromDigits;
    assert forall i :: 0 <= i < |digits| ==> t[i] == digits[i];
    assert DigitValue('x', 16) < 0 && DigitValue('X', 16) < 0 && DigitValue('-', 16) < 0 && DigitValue('+', 16) < 0;
    assert DigitValue(t[0], 16) >= 0 && t[..1][0] == t[0];
    assert AfterSign(t) == t && AfterPrefix(t, 16) == t && t[..1] != "-";
    DigitRunIs(t, |digits|);
    hide DigitRun; hide DigitValue; hide AfterSign; hide AfterPrefix;
    assert t[..|digits|] == digits;
  }

  lemma SameLine(data: string, offset: nat, m: nat)
    requires offset <= m <= |data| && LineAt(data, offset).Chunk? && LineAt(data, offset).begin <= m
    ensures var line := Chunked.LineAt(data[..m], offset); line.NoSize? || line == LineAt(data, offset)
  {
    hide Stoull; hide Chunked.ChunkSize;
    var rest, part := data[offset..], data[..m][offset..];
    var k := CrLf(rest);
    assert part == rest[..m - offset] && rest == part + rest[m - offset..];
    assert CrLfAt(part, k);
    CrLfStable(part, rest[m - offset..]);
    assert part[..k] == rest[..k];
    if Chunked.ChunkSize(part[..k]).Some? {
      SameSize(part[..k]);
    }
  }

  /** Of a body whose end was found with exact arithmetic, no chunk wraps around in the decoder. */
  lemma {:induction false} DecoderNeverWraps(data: string, offset: nat, m: nat)
    requires offset <= m <= |data| && m < WORD && ScanBody(data[offset..]).Item?
    requires m == offset + ScanBody(data[offset..]).size
    ensures !Chunked.WrapsFrom(data[..m], offset)
    decreases |data| - offset
  {
    hide ScanBody; hide CrLf; hide Stoull; hide Chunked.LineAt; hide Chunked.WrapsFrom;
    BodyStep(data[offset..]);
    Chunked.WrapsStep(data[..m], offset);
    SameLine(data, offset, m);
    var c := ScanChunk(data[offset..]);
    if !c.last {
      assert data[offset + c.size..] == data[offset..][c.size..];
      DecoderNeverWraps(data, offset + c.size, m);
    }
  }

  /** A body that was chunked is taken as a whole and nothing more, and decodes to what was chunked. */
  lemma ChunkedBodyArrives(d: string, rest: string)
    requires |Chunked.Build(d)| <= MAX_BYTES
    ensures BodySize(Chunked.Build(d) + rest) == Ends(Chunked.Size(|Chunked.Build(d)|))
    ensures Chunked.Decode((Chunked.Build(d) + rest)[..|Chunked.Build(d)|]) == Chunked.Accepted(d)
  {
    assert MAX_BYTES < WORD;
    hide *;
    var data := Chunked.Build(d) + rest;
    assert data[0..] == data && data[..|Chunked.Build(d)|] == Chunked.Build(d);
    Chunked.RoundTrip(d);
    ScanBuilt(d, rest);
    ItemNeverWraps(data, 0);
    BodySizeIsScan(data);
  }

  // ---------------------------------------------------------------- bodies that wrap around

  /** A line with a minus sign and a digit stands for a size just below 2^64. */
  lemma MinusLine(front: string, c: char, rest: string)
    requires '1' <= c <= '9'
    ensures LineAt(front + (['-', c] + "\r\n" + rest), |front|)
         == Chunked.Chunk(WORD - (c as int - '0' as int), |front| + 4)
  {
    var line := ['-', c];
    assert TrimLeft(line) == line;
    assert AfterSign(line) == [c];
    assert DigitRun([c], 16) == 1;
    assert [c][..0] == [];
    assert FromDigits([c], 16) == Some(c as int - '0' as int);
    assert line[..1] == "-" && [c][..1] == [c];
    assert Stoull(line, 16) == Some(WORD - (c as int - '0' as int));
    hide Stoull; hide TrimLeft; hide FromDigits; hide DigitRun;
    var s := line + "\r\n" + rest;
    CrLfIs(s, 2);
    hide CrLf;
    assert (front + s)[|front|..] == s && s[..2] == line;
  }

  /** A turn at a line with a minus sign, whose chunk ends before its beginning. */
  lemma MinusTurn(front: string, c: char, rest: string, back: nat)
    requires '1' <= c <= '9' && |front| <= 1000 && |front| + 6 == back + (c as int - '0' as int) && 2 <= back
    requires CrLfAt(front + (['-', c] + "\r\n" + rest), back - 2)
    ensures var s := front + (['-', c] + "\r\n" + rest); BodyTurn(s, |front|) == On(back) && WrapsAt(s, |front|)
  {
    var s := front + (['-', c] + "\r\n" + rest);
    MinusLine(front, c, rest);
    hide LineAt; hide Chunked.ChunkEnd;
    assert |s| >= |front| + 4;
    Chunked.EndsBefore(s, |front| + 4, WORD - (c as int - '0' as int), back);
  }

  /** The chunk size `-2` leads to the place behind its own line: the body ends where the one behind it ends. */
  lemma MinusTwo()
    ensures BodySize("-2\r\n0\r\n\r\n") == Ends(Chunked.Size(9)) && ScanBody("-2\r\n0\r\n\r\n").NeedMore?
  {
    var s, last := "-2\r\n0\r\n\r\n", "0\r\n\r\n";
    assert s == "" + (['-', '2'] + "\r\n" + last) && s[4..] == last && s[0..] == s;
    assert |s| == 9 && CrLfAt(s, 2) && CrLfAt(s, 7);
    hide *;
    MinusTurn("", '2', last, 4);
    LastTurn(s);
    BodyFromStep(s, 0, |s| + 1);
    BodyFromStep(s, 4, |s|);
    BodySizeIs(s);
    WrapsStep(s, 0);
    NineIsLittle();
    WrapsWaits(s, 0);
  }

  lemma NineIsLittle()
    ensures 9 <= MAX_BYTES
  {
  }

  lemma LastTurn(s: string)
    requires |s| == 9 && s[4..] == "0\r\n\r\n" && CrLfAt(s, 7)
    ensures BodyTurn(s, 4) == End(Chunked.Size(9))
  {
    LastLine(s);
    hide LineAt;
    Chunked.EndIsExact(s, 7, 0);
    hide Chunked.ChunkEnd;
  }

  lemma LastLine(s: string)
    requires |s| == 9 && s[4..] == "0\r\n\r\n"
    ensures LineAt(s, 4) == Chunked.Chunk(0, 7)
  {
    SizeLine(0);
    assert Digits(0, 16) == "0";
    CrLfIs(s[4..], 1);
    assert s[4..][..1] == "0";
    hide Stoull; hide CrLf; hide Digits;
  }

  /** The chunk size `-6` behind a chunk of one character leads back to its own line: the scan never ends. */
  lemma GoesRound(k: nat)
    ensures var s := "1\r\nX\r\n-6\r\n"; BodyFrom(s, 0, k).On? && BodySize(s).Endless?
  {
    var front := "1\r\nX\r\n";
    var s := front + (['-', '6'] + "\r\n" + "");
    assert s == "1\r\nX\r\n-6\r\n" && |front| == 6 && |s| == 10 && CrLfAt(s, 4);
    hide *;
    FirstTurn(s);
    MinusTurn(front, '6', "", 6);
    TurnsRound(s, 6, k);
  }

  lemma TurnsRound(data: string, back: nat, k: nat)
    requires back <= |data| && BodyTurn(data, 0) == On(back) == BodyTurn(data, back)
    ensures BodyFrom(data, 0, k).On? && BodySize(data).Endless?
  {
    hide BodyTurn; hide BodyTurns;
    TurnStep(data, 0);
    TurnStep(data, back);
    if k > 0 {
      ComesBack(BodyTurns(data), back, k - 1);
    }
    ComesBack(BodyTurns(data), back, |data|);
  }

  lemma FirstTurn(s: string)
    requires "1\r\nX\r\n" <= s && CrLfAt(s, 4)
    ensures BodyTurn(s, 0) == On(6)
  {
    FirstChunk(s);
    hide LineAt;
    Chunked.EndIsExact(s, 3, 1);
    hide Chunked.ChunkEnd;
  }

  lemma FirstChunk(s: string)
    requires "1\r\nX\r\n" <= s
    ensures LineAt(s, 0) == Chunked.Chunk(1, 3)
  {
    SizeLine(1);
    assert Digits(1, 16) == "1";
    assert s[0..] == s && s[0] == '1' && s[1] == '\r' && s[2] == '\n';
    CrLfIs(s, 1);
    assert s[..1] == "1";
    hide Stoull; hide CrLf; hide Digits;
  }

  /** The chunk size `-6` in the first line leads before the beginning, where the scan throws. */
  lemma MinusSix()
    ensures BodySize("-6\r\n") == Ends(Chunked.Thrown)
  {
    var s := "-6\r\n";
    assert s == "" + (['-', '6'] + "\r\n" + "");
    MinusLine("", '6', "");
    hide LineAt;
    Chunked.SumOfEnd(4, WORD - 6);
    assert BodyTurn(s, 0) == End(Chunked.Thrown);
    hide BodyTurn; hide BodySize; hide BodyFrom;
    BodyFromStep(s, 0, |s| + 1);
    BodySizeIs(s);
  }
}
