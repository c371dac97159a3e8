/**
 The client's consumer of a chunked response body: data arrives read by read, whole chunks are delivered
 to the user as they complete, and the response completes behind the last chunk's trailers.
 */
module ChunkStream {
  import opened Sizes
  import opened Text
  import opened Incremental
  import opened Chunked

  class BodyStream {
    var responseBuffer: string
    var streamingResponse: bool
    var delivered: seq<string>
    var completions: nat
    var failures: nat

    /** Set up when the response head has been parsed. */
    constructor ()
      ensures streamingResponse && responseBuffer == "" && delivered == [] && completions == 0 && failures == 0
    {
      responseBuffer, streamingResponse, delivered, completions, failures := "", true, [], 0, 0;
    }

    /** The stream stands where the incremental parse stands; a stream that has ended has dropped its buffer. */
    ghost predicate Agrees(o: Outcome<char, string>)
      reads this
    {
      && delivered == o.pieces
      && streamingResponse == (o.status == Open)
      && responseBuffer == (if o.status == Open then o.rest else "")
      && completions == (if o.status == Done then 1 else 0)
      && failures == (if o.status == Failed then 1 else 0)
    }

    method EraseResponseBufferPrefix(bytes: nat)
      modifies `responseBuffer
      ensures responseBuffer == if bytes >= |old(responseBuffer)| then "" else old(responseBuffer)[bytes..]
    {
      responseBuffer := if bytes >= |responseBuffer| then "" else responseBuffer[bytes..];
    }

    method CompleteStreamingResponse()
      modifies this
      ensures !streamingResponse && responseBuffer == "" && delivered == old(delivered)
      ensures completions == old(completions) + 1 && failures == old(failures)
    {
      streamingResponse, responseBuffer, completions := false, "", completions + 1;
    }

    method FailStreamingResponse()
      modifies this
      ensures !streamingResponse && responseBuffer == "" && delivered == old(delivered)
      ensures failures == old(failures) + 1 && completions == old(completions)
    {
      streamingResponse, responseBuffer, failures := false, "", failures + 1;
    }

    /** Walks over the trailer lines behind the last chunk; the offset behind them, or what stopped the walk. */
    method WalkTrailers(raw: string, from: nat) returns (v: Verdict<string>)
      requires from <= |raw|
      ensures var t := ScanTrailers(raw[from..]);
        v == if t.Item? then Item([], from + t.size, true) else t
    {
      hide LaxTrailer; hide ScanTrailers; hide CrLf;
      var offset := from;
      while true
        invariant from <= offset <= |raw|
        invariant var t, rest := ScanTrailers(raw[from..]), ScanTrailers(raw[offset..]);
          if rest.Item? then t == Item([], rest.size + (offset - from), true) else t == rest
        decreases |raw| - offset
      {
        var rest := raw[offset..];
        TrailersStep(rest);
        var k := CrLf(rest);
        if k == -1 {
          return NeedMore;
        }
        offset := offset + k + 2;
        assert raw[offset..] == rest[k + 2..];
        if k == 0 {
          return Item([], offset, true);
        }
        if !LaxTrailer(rest[..k]) {
          return Reject;
        }
      }
    }

    /** One chunk at the front of the buffer: complete, incomplete or malformed. */
    method ReadChunk(raw: string) returns (v: Verdict<string>)
      ensures v == Take(raw)
    {
      hide ChunkSize; hide ScanTrailers; hide CrLf; hide Sum64;
      assert raw[0..] == raw;
      var k := CrLf(raw);
      if k == -1 {
        return NeedMore;
      }
      var size := ChunkSize(raw[..k]);
      if size.None? {
        return Reject;
      }
      var n, body := size.value, k + 2;
      if n == 0 {
        v := WalkTrailers(raw, body);
        return;
      }
      var at, next := Sum64(body, n), Sum64(body, n + 2);
      // Behind the test on the size, a place that wraps around with its line end is where `substr` throws.
      if |raw| < next || next < at {
        return NeedMore;
      }
      if !CrLfAt(raw, at) {
        return Reject;
      }
      return Item(Piece(raw[body..], n), next, false);
    }

    /** `consumeStreamingChunkedBody`, every delivery being accepted by the user. */
    method ConsumeStreamingChunkedBody(ghost before: seq<string>)
      requires streamingResponse && delivered == before && completions == 0 && failures == 0
      modifies this
      ensures var r := Taken(old(responseBuffer)); Agrees(r.(pieces := before + r.pieces))
    {
      hide Take;
      ghost var start := responseBuffer;
      while true
        invariant streamingResponse && completions == 0 && failures == 0
        invariant before <= delivered
        invariant var r := Taken(responseBuffer);
          Taken(start) == r.(pieces := delivered[|before|..] + r.pieces)
        decreases |responseBuffer|
      {
        var v := ReadChunk(responseBuffer);
        if v.NeedMore? {
          return;
        }
        if v.Reject? {
          FailStreamingResponse();
          return;
        }
        Regroup(before, delivered, v.out, Taken(responseBuffer[v.size..]).pieces);
        delivered := delivered + v.out;
        EraseResponseBufferPrefix(v.size);
        if v.last {
          CompleteStreamingResponse();
          return;
        }
      }
    }

    method HandleDataReceived(data: string, ghost o: Outcome<char, string>)
      requires Agrees(o)
      modifies this
      ensures o.status == Open ==> var r := Taken(o.rest + data); Agrees(r.(pieces := o.pieces + r.pieces))
      ensures o.status != Open ==> Agrees(o)
    {
      if streamingResponse {
        responseBuffer := responseBuffer + data;
        ConsumeStreamingChunkedBody(delivered);
      }
    }
  }

  lemma Regroup(before: seq<string>, delivered: seq<string>, out: seq<string>, rest: seq<string>)
    requires before <= delivered
    ensures before <= delivered + out && before + delivered[|before|..] == delivered
    ensures (delivered + out)[|before|..] == delivered[|before|..] + out
    ensures delivered[|before|..] + out + rest == delivered[|before|..] + (out + rest)
  {
    assert (delivered + out)[|before|..] == delivered[|before|..] + out;
  }

  lemma StreamedMore(chunks: seq<string>, i: nat)
    requires i < |chunks|
    ensures var o := Streamed(chunks[..i]);
      Streamed(chunks[..i + 1]) ==
        if o.status == Open then var r := Taken(o.rest + chunks[i]); r.(pieces := o.pieces + r.pieces)
        else o.(rest := o.rest + chunks[i])
  {
    hide Taken;
    assert chunks[..i + 1][..i] == chunks[..i];
  }

  /** A fresh stream that is handed the reads one by one. */
  method Consume(stream: BodyStream, chunks: seq<string>)
    requires stream.Agrees(Outcome([], [], Open))
    modifies stream
    ensures var o := Streamed(chunks); stream.Agrees(o.(rest := if o.status == Open then o.rest else []))
  {
    hide Taken;
    assert Streamed([]) == Outcome([], [], Open);
    hide Streamed;
    var i := 0;
    assert chunks[..0] == [];
    while i < |chunks|
      invariant 0 <= i <= |chunks|
      invariant var o := Streamed(chunks[..i]); stream.Agrees(o.(rest := if o.status == Open then o.rest else []))
    {
      StreamedMore(chunks, i);
      ghost var o := Streamed(chunks[..i]);
      stream.HandleDataReceived(chunks[i], o.(rest := if o.status == Open then o.rest else []));
      i := i + 1;
    }
    assert chunks[..i] == chunks;
  }

  /**
   End to end: whenever the one-shot decoder accepts a message, a stream fed that message in any reads has
   delivered exactly its body, completed once and not failed; fed only part of it, it has not completed yet.
   */
  method DeliversBody(stream: BodyStream, m: string, chunks: seq<string>)
    requires stream.Agrees(Outcome([], [], Open))
    requires Decode(m).Accepted? && |m| <= MAX_BYTES && Flatten(chunks) <= m
    modifies stream
    ensures stream.failures == 0
    ensures Flatten(chunks) == m ==> stream.completions == 1 && Flatten(stream.delivered) == Decode(m).body
    ensures Flatten(chunks) != m ==> stream.completions == 0 && Flatten(stream.delivered) <= Decode(m).body
  {
    hide Streamed; hide Decode; hide Flatten;
    Consume(stream, chunks);
    if Flatten(chunks) == m {
      StreamRefinesParse(m, chunks);
    } else {
      assert Flatten(chunks) < m;
      OpenUntilTheEnd(m, chunks);
    }
  }
}
