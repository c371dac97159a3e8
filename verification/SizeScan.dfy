/**
 The client's scan for the size of a chunked message, with its moving offset and 64-bit sums: what it answers, that
 it keeps to its answers, when it agrees with the stream, and that it need not end.
 */
module SizeScan {
  import opened Optional
  import opened Sizes
  import opened Text
  import opened Walks
  import opened Incremental
  import opened Chunked

  // ---------------------------------------------------------------- the size of a message

  /** One turn of `getChunkedMessageSize` of the client. */
  function SizeTurn(data: string, offset: nat): (t: Turn<SizeAnswer>)
    requires offset <= |data|
    ensures t.On? ==> t.next <= |data|
    ensures t.End? && t.answer.Size? ==> 0 < t.answer.size <= |data|
  {
    var line := LineAt(data, offset);
    match line
    case NoLine => End(Short)
    case NoSize => End(Bad)
    case Chunk(n, begin) =>
      if n == 0 then
        var v := ScanTrailers(data[begin..]);
        End(if v.NeedMore? then Short else if v.Reject? then Bad else Size(begin + v.size))
      else ChunkEnd(data, begin, n)
  }

  function SizeTurns(data: string): nat -> Turn<SizeAnswer> {
    (o: nat) => if o <= |data| then SizeTurn(data, o) else End(Short)
  }

  /** What `getChunkedMessageSize` comes to, if it comes to anything. */
  function MessageSize(data: string): Ending<SizeAnswer> {
    Walked(SizeTurns(data), |data|)
  }

  lemma TurnsWithin(data: string)
    ensures Within(SizeTurns(data), |data|)
  {
    hide SizeTurn;
  }

  lemma TurnStep(data: string, offset: nat)
    requires offset <= |data|
    ensures SizeTurns(data)(offset) == SizeTurn(data, offset)
  {
    hide SizeTurn;
  }

  method TakeTurn(data: string, offset: nat) returns (t: Turn<SizeAnswer>)
    requires offset <= |data|
    ensures t == SizeTurn(data, offset)
  {
    hide ChunkSize; hide CrLf; hide ScanTrailers; hide Sum64;
    var k := CrLf(data[offset..]);
    if k == -1 {
      return End(Short);
    }
    var size := ChunkSize(data[offset..][..k]);
    if size.None? {
      return End(Bad);
    }
    var n, begin := size.value, offset + k + 2;
    if n == 0 {
      var v := ScanTrailers(data[begin..]);
      return End(if v.NeedMore? then Short else if v.Reject? then Bad else Size(begin + v.size));
    }
    var at, next := Sum64(begin, n), Sum64(begin, n + 2);
    if |data| < next {
      return End(Short);
    }
    if next < at {
      return End(Thrown);
    }
    return if CrLfAt(data, at) then On(next) else End(Bad);
  }

  function SizeFrom(data: string, offset: nat, turns: nat): Turn<SizeAnswer> {
    Walk(SizeTurns(data), offset, turns)
  }

  lemma SizeFromStep(data: string, offset: nat, turns: nat)
    requires offset <= |data|
    ensures var t := SizeTurn(data, offset);
      SizeFrom(data, offset, turns) == if t.End? || turns == 0 then t else SizeFrom(data, t.next, turns - 1)
  {
    hide SizeTurn; hide SizeTurns;
    TurnStep(data, offset);
  }

  lemma MessageSizeIs(data: string)
    ensures var t := SizeFrom(data, 0, |data| + 1); MessageSize(data) == if t.End? then Ends(t.answer) else Endless
  {
    hide Walk; hide SizeTurns;
  }

  /** `getChunkedMessageSize` with its moving offset, where it ends. */
  method GetChunkedMessageSize(data: string) returns (r: SizeAnswer)
    requires !MessageSize(data).Endless?
    ensures MessageSize(data) == Ends(r)
  {
    hide *;
    MessageSizeIs(data);
    var offset := 0;
    ghost var left: nat := |data| + 1;
    while true
      invariant 0 <= offset <= |data| && SizeFrom(data, offset, left) == SizeFrom(data, 0, |data| + 1)
      decreases left
    {
      SizeFromStep(data, offset, left);
      var t := TakeTurn(data, offset);
      if t.End? {
        return t.answer;
      }
      offset, left := t.next, left - 1;
    }
  }

  // ---------------------------------------------------------------- an answer does not change

  lemma TurnStable(data: string, more: string, offset: nat)
    requires offset <= |data| && SizeTurn(data, offset) != End(Short)
    ensures SizeTurn(data + more, offset) == SizeTurn(data, offset)
  {
    hide LineAt; hide ChunkEnd; hide ScanTrailers;
    LineStable(data, more, offset);
    var line := LineAt(data, offset);
    if line.Chunk? {
      if line.n == 0 {
        TrailersStable(data[line.begin..], more);
        assert (data + more)[line.begin..] == data[line.begin..] + more;
      } else {
        EndStable(data, more, line.begin, line.n);
      }
    }
  }

  lemma {:induction false} AnswerIsPositive(data: string, offset: nat, turns: nat)
    requires offset <= |data|
    ensures var t := Walk(SizeTurns(data), offset, turns);
      t.End? && t.answer.Size? ==> 0 < t.answer.size <= |data|
    decreases turns
  {
    hide SizeTurns; hide SizeTurn;
    TurnStep(data, offset);
    var t := SizeTurn(data, offset);
    if t.On? && turns > 0 {
      AnswerIsPositive(data, t.next, turns - 1);
    }
  }

  /**
   What the scan comes to is not changed by more input, unless input was lacking; a size is never zero, so it is
   not mistaken for malformed.
   */
  lemma SizeIsStable(data: string, more: string)
    requires MessageSize(data) != Ends(Short)
    ensures MessageSize(data + more) == MessageSize(data)
    ensures MessageSize(data).Ends? && MessageSize(data).answer.Size? ==> 0 < MessageSize(data).answer.size <= |data|
  {
    var turns, others := SizeTurns(data), SizeTurns(data + more);
    assert Extends(turns, others, |data|, Short) by {
      hide SizeTurns; hide SizeTurn;
      forall o: nat | o <= |data| && turns(o) != End(Short) ensures others(o) == turns(o) {
        TurnStep(data, o);
        TurnStep(data + more, o);
        TurnStable(data, more, o);
      }
    }
    hide SizeTurns; hide Walk; hide Extends;
    TurnsWithin(data);
    WalkedStable(turns, others, |data|, |data + more|, Short);
    AnswerIsPositive(data, 0, |data| + 1);
  }

  // ---------------------------------------------------------------- the size and the stream

  /** What a scan of the whole message says if it does what the stream does. */
  ghost function AnswerOf(data: string, o: Outcome<char, string>): SizeAnswer {
    match o.status
    case Open => Short
    case Failed => Bad
    case Done => Size(if |o.rest| <= |data| then |data| - |o.rest| else 0)
  }

  lemma TurnIsScan(data: string, offset: nat)
    requires offset <= |data| && !WrapsAt(data, offset)
    ensures var t, v := SizeTurn(data, offset), Scan(data[offset..]);
      && (v.NeedMore? ==> t == End(Short)) && (v.Reject? ==> t == End(Bad))
      && (v.Item? && v.last ==> t == End(Size(offset + v.size)))
      && (v.Item? && !v.last ==> t == On(offset + v.size) && NextChunk(data, offset) == Some(offset + v.size))
  {
    hide ChunkSize; hide CrLf; hide ScanTrailers;
    LineFits(data, offset);
    var line := LineAt(data, offset);
    if line.Chunk? {
      assert data[offset..][line.begin - offset..] == data[line.begin..];
      EndIsExact(data, line.begin, line.n);
      hide ChunkEnd;
      assert CrLfAt(data[line.begin..], line.n) <==> CrLfAt(data, line.begin + line.n);
    }
  }

  lemma {:induction false} WalkIsDrain(data: string, offset: nat, turns: nat)
    requires offset <= |data| && !WrapsFrom(data, offset) && turns >= |data| - offset
    ensures Walk(SizeTurns(data), offset, turns) == End(AnswerOf(data, Drained(data[offset..])))
    decreases |data| - offset
  {
    hide SizeTurns; hide SizeTurn; hide WrapsFrom; hide WrapsAt; hide NextChunk; hide Scan; hide Drained;
    var rest := data[offset..];
    TurnStep(data, offset);
    WrapsStep(data, offset);
    TurnIsScan(data, offset);
    DrainStep(rest);
    RestIsShorter(rest);
    var v := Scan(rest);
    if v.Item? && !v.last {
      assert data[offset + v.size..] == rest[v.size..];
      WalkIsDrain(data, offset + v.size, turns - 1);
    }
  }

  lemma {:induction false} RestIsShorter(s: string)
    ensures |Drained(s).rest| <= |s|
    ensures Scan(s).Item? && Scan(s).last ==> Drained(s).rest == s[Scan(s).size..]
    decreases |s|
  {
    hide Scan; hide Drained;
    DrainStep(s);
    var v := Scan(s);
    if v.Item? && !v.last {
      RestIsShorter(s[v.size..]);
    }
  }

  /** If no chunk on the way wraps around, the scan says what the stream says of the whole message. */
  lemma SizeIsDrained(data: string)
    requires !WrapsFrom(data, 0)
    ensures MessageSize(data) == Ends(AnswerOf(data, Drained(data)))
  {
    hide WrapsFrom; hide SizeTurns; hide Drained; hide Walk;
    WalkIsDrain(data, 0, |data| + 1);
    assert data[0..] == data;
  }

  /** An accepted message has its own length as its size. */
  lemma SizeOfAccepted(m: string)
    requires Decode(m).Accepted? && |m| <= MAX_BYTES
    ensures MessageSize(m) == Ends(Size(|m|))
  {
    hide Parse; hide Drained; hide WrapsFrom; hide MessageSize; hide Decode;
    assert m[0..] == m;
    DecodeAccepts(m);
    AcceptedNeverWraps(m, 0);
    SizeIsDrained(m);
    DrainRefinesParse(m);
  }

  // ---------------------------------------------------------------- a scan that never ends

  function Pow16(k: nat): nat {
    if k == 0 then 1 else 16 * Pow16(k - 1)
  }

  lemma {:induction false} HexLength(n: nat, k: nat)
    requires Pow16(k) <= n < Pow16(k + 1)
    ensures |Digits(n, 16)| == k + 1
  {
    if k > 0 {
      HexLength(n / 16, k - 1);
    }
  }

  lemma SixteenDigits(n: nat)
    requires 0x1000_0000_0000_0000 <= n < WORD
    ensures |Digits(n, 16)| == 16
  {
    assert Pow16(5) == 0x10_0000;
    assert Pow16(10) == 0x100_0000_0000;
    assert Pow16(15) == 0x1000_0000_0000_0000;
    HexLength(n, 15);
  }

  /** The turn at a size line whose chunk ends where that line begins leads back to the line. */
  lemma LeadsBack(front: string, n: nat)
    requires CrLfAt(front, |front| - 2) && |front| <= 1000 && n <= SIZE_MAX
    requires |Digits(n, 16)| <= 16 && |Digits(n, 16)| + 4 + n == WORD
    ensures SizeTurn(front + (Digits(n, 16) + "\r\n"), |front|) == On(|front|)
  {
    hide Digits; hide LineAt; hide ScanTrailers; hide ChunkEnd;
    var s := front + (Digits(n, 16) + "\r\n");
    assert |s| == |front| + |Digits(n, 16)| + 2 && CrLfAt(s, |front| - 2);
    hide CrLfAt;
    LastSizeLine(front, n);
    EndsBefore(s, |s|, n, |front|);
  }

  lemma LastSizeLine(front: string, n: nat)
    requires n <= SIZE_MAX
    ensures var s := front + (Digits(n, 16) + "\r\n"); LineAt(s, |front|) == Chunk(n, |s|)
  {
    hide Digits; hide ChunkSize; hide CrLf;
    var line := Digits(n, 16) + "\r\n";
    DigitsAsLine(n, "");
    assert line == line + "" && (front + line)[|front|..] == line;
  }

  lemma OneChunkOn(block: string, rest: string)
    requires 0 < |block| && |ChunkOf(block)| <= MAX_BYTES
    ensures SizeTurn(ChunkOf(block) + rest, 0) == On(|ChunkOf(block)|)
  {
    var digits, tail := Digits(|block|, 16), block + "\r\n" + rest;
    var s := ChunkOf(block) + rest;
    assert s == digits + "\r\n" + tail && s[0..] == s;
    DigitsAsLine(|block|, tail);
    hide Digits; hide ChunkSize; hide CrLf; hide ScanTrailers; hide ChunkOf;
    var begin := |digits| + 2;
    assert LineAt(s, 0) == Chunk(|block|, begin);
    SumOfEnd(begin, |block|);
    hide Sum64;
    assert s[begin..] == tail;
    assert CrLfAt(tail, |block|);
    assert CrLfAt(s, begin + |block|);
  }

  /** A chunk of one character, and a size line whose chunk ends where that line begins. */
  function RoundAndRound(): string {
    ChunkOf("X") + (Digits(WORD - 20, 16) + "\r\n")
  }

  /** A message of 24 characters on which the client's size scan goes round for ever. */
  lemma SizeGoesRound(k: nat)
    ensures |RoundAndRound()| == 24 && SizeFrom(RoundAndRound(), 0, k).On? && MessageSize(RoundAndRound()).Endless?
  {
    var s, chunk := RoundAndRound(), ChunkOf("X");
    SixteenDigits(WORD - 20);
    assert Digits(1, 16) == "1";
    assert chunk == "1\r\nX\r\n";
    hide ChunkOf; hide Digits;
    OneChunkOn("X", Digits(WORD - 20, 16) + "\r\n");
    LeadsBack(chunk, WORD - 20);
    hide SizeTurn; hide RoundAndRound;
    TurnStep(s, 0);
    TurnStep(s, 6);
    hide SizeTurns;
    if k > 0 {
      ComesBack(SizeTurns(s), 6, k - 1);
    }
    ComesBack(SizeTurns(s), 6, |s|);
  }
}
