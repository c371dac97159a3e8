/**
 Reassembly of frames from a byte stream, on the server and on the client: reads arrive split anywhere,
 complete frames are dispatched in order, and a bad frame ends the connection.
 */
module FrameStream {
  import opened Octets
  import opened Optional
  import opened FrameCodec
  import opened Incremental
  import opened StreamBuffer

  datatype Role = Server | Client

  /** The server ends a connection whose unread input exceeds this. */
  const MAX_BACKLOG: nat := 10 * 1024 * 1024

  /**
   The front of the buffer as `handleFrames` sees it. A server stops at a close frame, which it answers by
   closing; a client takes no masked frame.
   */
  function Scan(role: Role, s: seq<byte>): Verdict<Frame> {
    var size := FrameSize(s);
    if size == 0 then NeedMore
    else
      match Decode(s[..size])
      case None => Reject
      case Some(f) =>
        if !f.final || (role == Client && f.masked) then Reject
        else Item([f], size, role == Server && f.kind == Close)
  }

  ghost function Scanner(role: Role): (scan: seq<byte> -> Verdict<Frame>)
    ensures forall s :: scan(s) == Scan(role, s)
    ensures Lawful(scan)
    ensures scan([]).NeedMore?
  {
    var scan := s => Scan(role, s);
    assert Lawful(scan) by {
      forall a, b | !scan(a).NeedMore? ensures scan(a + b) == scan(a) {
        SizeIsStable(a, b);
        assert (a + b)[..FrameSize(a)] == a[..FrameSize(a)];
      }
    }
    scan
  }

  // ---------------------------------------------------------------- streams of frames

  /** A message as its sender sees it. */
  datatype Message = Message(kind: FrameType, payload: seq<byte>, mask: Option<MaskKey>)

  /** What may be sent towards a role in one frame, other than a close frame. */
  predicate Sendable(role: Role, m: Message) {
    Encodable(m.payload, m.kind) && m.kind != Close && (role == Client ==> m.mask.None?)
  }

  function Wire(m: Message): seq<byte> {
    Encode(m.payload, m.kind, m.mask)
  }

  function Received(m: Message): Frame {
    Frame(m.kind, true, m.mask.Some?, m.payload)
  }

  function Wires(ms: seq<Message>): (r: seq<seq<byte>>)
    ensures |r| == |ms| && forall i :: 0 <= i < |ms| ==> r[i] == Wire(ms[i])
  {
    seq(|ms|, i requires 0 <= i < |ms| => Wire(ms[i]))
  }

  function Singles(ms: seq<Message>): (r: seq<seq<Frame>>)
    ensures |r| == |ms| && forall i :: 0 <= i < |ms| ==> r[i] == [Received(ms[i])]
  {
    seq(|ms|, i requires 0 <= i < |ms| => [Received(ms[i])])
  }

  function AllReceived(ms: seq<Message>): (r: seq<Frame>)
    ensures |r| == |ms| && forall i :: 0 <= i < |ms| ==> r[i] == Received(ms[i])
  {
    seq(|ms|, i requires 0 <= i < |ms| => Received(ms[i]))
  }

  lemma {:induction false} FlattenSingles(ms: seq<Message>, k: nat)
    requires k <= |ms|
    ensures Flatten(Singles(ms)[..k]) == AllReceived(ms)[..k]
  {
    if k > 0 {
      FlattenSingles(ms, k - 1);
      assert Singles(ms)[..k][..k - 1] == Singles(ms)[..k - 1];
      assert AllReceived(ms)[..k] == AllReceived(ms)[..k - 1] + [Received(ms[k - 1])];
    }
  }

  lemma MessageEncodes(role: Role, m: Message)
    requires Sendable(role, m)
    ensures Encodes(Scanner(role), Wire(m), [Received(m)])
  {
    hide Encode; hide Decode; hide FrameSize; hide ValidClosePayload;
    var e := Wire(m);
    EncodedSize(m.payload, m.kind, m.mask);
    forall rest ensures Scan(role, e + rest) == Item([Received(m)], |e|, false) {
      SizeOfEncoded(m.payload, m.kind, m.mask, rest, 0);
      DecodeEncode(m.payload, m.kind, m.mask, []);
      assert (e + rest)[..|e|] == e == e + [];
    }
    forall k | 0 <= k < |e| ensures Scan(role, e[..k]).NeedMore? {
      SizeOfEncoded(m.payload, m.kind, m.mask, [], k);
    }
  }

  lemma MessagesEncode(role: Role, ms: seq<Message>)
    requires forall m :: m in ms ==> Sendable(role, m)
    ensures EncodeEach(Scanner(role), Wires(ms), Singles(ms))
  {
    forall i | 0 <= i < |ms| ensures Encodes(Scanner(role), Wires(ms)[i], Singles(ms)[i]) {
      MessageEncodes(role, ms[i]);
    }
  }

  /**
   However the bytes of a sequence of messages are split into reads, exactly those messages are
   dispatched, in order, and nothing is left over.
   */
  lemma DeliversAll(role: Role, ms: seq<Message>, chunks: seq<seq<byte>>)
    requires forall m :: m in ms ==> Sendable(role, m)
    requires Flatten(chunks) == Flatten(Wires(ms))
    ensures Feed(Scanner(role), chunks) == Outcome(AllReceived(ms), [], Open)
  {
    MessagesEncode(role, ms);
    FlattenAll(ms);
    hide Feed; hide Flatten; hide Encodes; hide Lawful; hide EncodeEach; hide Sendable;
    DrainWhole(Scanner(role), Wires(ms), Singles(ms), chunks);
  }

  lemma FlattenAll(ms: seq<Message>)
    ensures Flatten(Singles(ms)) == AllReceived(ms)
  {
    FlattenSingles(ms, |ms|);
    assert Singles(ms)[..|ms|] == Singles(ms) && AllReceived(ms)[..|ms|] == AllReceived(ms);
  }

  /**
   At any moment, with any prefix of the bytes read, exactly the messages that have arrived completely
   have been dispatched, and what is buffered is a proper part of the next one.
   */
  lemma DeliversPromptly(role: Role, ms: seq<Message>, chunks: seq<seq<byte>>) returns (k: nat)
    requires forall m :: m in ms ==> Sendable(role, m)
    requires Flatten(chunks) <= Flatten(Wires(ms))
    ensures k <= |ms|
    ensures var o := Feed(Scanner(role), chunks);
      && o.status == Open && o.pieces == AllReceived(ms)[..k]
      && Flatten(chunks) == Flatten(Wires(ms)[..k]) + o.rest
      && if k < |ms| then o.rest < Wire(ms[k]) else o.rest == []
  {
    MessagesEncode(role, ms);
    hide Feed; hide Encodes; hide Lawful; hide EncodeEach; hide Sendable;
    SplitIndependent(Scanner(role), chunks);
    k := DrainPrefix(Scanner(role), Wires(ms), Singles(ms), Flatten(chunks));
    FlattenSingles(ms, k);
  }

  // ---------------------------------------------------------------- the receiving end

  datatype Ending = Running | ClosedByPeer | BadFrame | TooMuchBacklog

  /** What `handleFrames` makes of the unread input. */
  ghost function Handled(role: Role, s: seq<byte>): Outcome<byte, Frame> {
    if role == Server && |s| > MAX_BACKLOG then Outcome([], s, Failed) else Drain(Scanner(role), s)
  }

  lemma HandledItem(role: Role, s: seq<byte>)
    requires Scan(role, s).Item? && (role == Server ==> |s| <= MAX_BACKLOG)
    ensures var Item(out, size, last) := Scan(role, s);
      var r := Handled(role, s[size..]);
      Handled(role, s) == if last then Outcome(out, s[size..], Done) else r.(pieces := out + r.pieces)
  {
    hide Scan;
    var scan := Scanner(role);
    assert scan(s) == Scan(role, s);
  }

  lemma HandledStop(role: Role, s: seq<byte>)
    requires !Scan(role, s).Item? && (role == Server ==> |s| <= MAX_BACKLOG)
    ensures Handled(role, s) == Outcome([], s, if Scan(role, s).NeedMore? then Open else Failed)
  {
    hide Scan;
    var scan := Scanner(role);
    assert scan(s) == Scan(role, s);
  }

  lemma HandledTooMuch(role: Role, s: seq<byte>)
    requires role == Server && |s| > MAX_BACKLOG
    ensures Handled(role, s) == Outcome([], s, Failed)
  {
  }

  /** One more read within the limit. */
  lemma HandledMore(role: Role, o: Outcome<byte, Frame>, more: seq<byte>)
    requires o.status == Open && (role == Server ==> |o.rest| + |more| <= MAX_BACKLOG)
    ensures var r := Handled(role, o.rest + more);
      Continue(Scanner(role), o, more) == r.(pieces := o.pieces + r.pieces)
  {
  }

  class Receiver {
    const role: Role
    const stream: StreamBuffer<byte>
    var ending: Ending
    var dispatched: seq<Frame>

    constructor (role: Role)
      ensures Valid() && fresh(stream) && this.role == role
      ensures ending == Running && dispatched == [] && stream.View() == []
    {
      this.role := role;
      stream := new StreamBuffer<byte>(if role == Server then 4096 else 65536, if role == Server then 2 else 4);
      ending, dispatched := Running, [];
    }

    ghost predicate Valid()
      reads this, stream
    {
      stream.Valid()
    }

    ghost predicate Agrees(o: Outcome<byte, Frame>, before: seq<Frame>)
      reads this, stream
    {
      && dispatched == before + o.pieces && stream.View() == o.rest
      && (ending == Running <==> o.status == Open)
      && (ending == ClosedByPeer <==> o.status == Done)
    }

    /** Dispatches complete frames until none is left, the peer closes or a frame is bad. */
    method HandleFrames()
      requires Valid() && ending == Running
      modifies this, stream
      ensures Valid() && Agrees(Handled(role, old(stream.View())), old(dispatched))
    {
      hide Handled; hide Decode; hide FrameSize;
      ghost var start, before := stream.View(), dispatched;
      while true
        invariant Valid() && ending == Running
        invariant before <= dispatched
        invariant var r := Handled(role, stream.View());
          Handled(role, start) == r.(pieces := dispatched[|before|..] + r.pieces)
        decreases |stream.View()|
      {
        var pending := stream.View();
        if role == Server && |pending| > MAX_BACKLOG {
          HandledTooMuch(role, pending);
          ending := TooMuchBacklog;
          return;
        }
        var size := FrameSize(pending);
        if size == 0 {
          HandledStop(role, pending);
          return;
        }
        var frame := DecodeFrame(pending[..size]);
        if frame.None? || !frame.value.final || (role == Client && frame.value.masked) {
          HandledStop(role, pending);
          ending := BadFrame;
          return;
        }
        HandledItem(role, pending);
        stream.Consume(size);
        dispatched := dispatched + [frame.value];
        if role == Server && frame.value.kind == Close {
          ending := ClosedByPeer;
          return;
        }
      }
    }

    method HandleDataReceived(data: seq<byte>)
      requires Valid()
      modifies this, stream
      ensures Valid()
      ensures old(ending) == Running ==> Agrees(Handled(role, old(stream.View()) + data), old(dispatched))
      ensures old(ending) != Running ==> ending == old(ending) && dispatched == old(dispatched)
      ensures old(ending) != Running ==> stream.View() == old(stream.View()) + data
    {
      stream.Append(data);
      if ending == Running {
        HandleFrames();
      }
    }

    method ReadOne(data: seq<byte>, ghost o: Outcome<byte, Frame>)
      requires Valid() && Agrees(o, [])
      requires role == Server ==> |o.rest| + |data| <= MAX_BACKLOG
      modifies this, stream
      ensures Valid() && Agrees(Continue(Scanner(role), o, data), [])
    {
      hide Scanner; hide Drain; hide Handled;
      ghost var was, r := dispatched, Handled(role, o.rest + data);
      assert was == o.pieces;
      if ending == Running {
        HandledMore(role, o, data);
        assert [] + (o.pieces + r.pieces) == was + r.pieces;
      }
      HandleDataReceived(data);
    }

    /** Reads a whole sequence of chunks from a fresh start, the backlog staying within the limit. */
    method ReadAll(chunks: seq<seq<byte>>)
      requires Valid() && ending == Running && dispatched == [] && stream.View() == []
      requires role == Server ==> WithinBacklog(chunks)
      modifies this, stream
      ensures Valid() && Agrees(Feed(Scanner(role), chunks), [])
    {
      var i := 0;
      while i < |chunks|
        invariant 0 <= i <= |chunks| && Valid() && Agrees(Feed(Scanner(role), chunks[..i]), [])
      {
        FeedMore(role, chunks, i);
        ReadOne(chunks[i], Feed(Scanner(role), chunks[..i]));
        i := i + 1;
      }
      assert chunks[..i] == chunks;
    }
  }

  lemma FeedMore(role: Role, chunks: seq<seq<byte>>, i: nat)
    requires i < |chunks|
    ensures Feed(Scanner(role), chunks[..i + 1]) == Continue(Scanner(role), Feed(Scanner(role), chunks[..i]), chunks[i])
  {
    assert chunks[..i + 1][..i] == chunks[..i];
  }

  /** With every chunk, the unread input stays within what the server tolerates. */
  ghost predicate WithinBacklog(chunks: seq<seq<byte>>) {
    forall i :: 0 <= i < |chunks| ==> |Feed(Scanner(Server), chunks[..i]).rest| + |chunks[i]| <= MAX_BACKLOG
  }

  lemma {:induction false} FlattenPrefix<T>(chunks: seq<seq<T>>, i: nat)
    requires i <= |chunks|
    ensures Flatten(chunks[..i]) <= Flatten(chunks)
  {
    if i < |chunks| {
      FlattenPrefix(chunks[..|chunks| - 1], i);
      assert chunks[..|chunks| - 1][..i] == chunks[..i];
    } else {
      assert chunks[..i] == chunks;
    }
  }

  /** The backlog stays within the limit when no message and read together exceed it. */
  lemma SmallEnough(ms: seq<Message>, chunks: seq<seq<byte>>)
    requires forall m :: m in ms ==> Sendable(Server, m)
    requires Flatten(chunks) == Flatten(Wires(ms))
    requires forall m, c :: m in ms && c in chunks ==> |Wire(m)| + |c| <= MAX_BACKLOG
    requires forall c :: c in chunks ==> |c| <= MAX_BACKLOG
    ensures WithinBacklog(chunks)
  {
    forall i | 0 <= i < |chunks| ensures |Feed(Scanner(Server), chunks[..i]).rest| + |chunks[i]| <= MAX_BACKLOG {
      FlattenPrefix(chunks, i);
      var k := DeliversPromptly(Server, ms, chunks[..i]);
      assert chunks[i] in chunks;
      if k < |ms| {
        assert ms[k] in ms;
      }
    }
  }

  /** End to end: a fresh receiver that reads the messages' bytes in any chunks has dispatched exactly the messages. */
  method Deliver(receiver: Receiver, ms: seq<Message>, chunks: seq<seq<byte>>)
    requires receiver.Valid() && receiver.ending == Running && receiver.dispatched == [] && receiver.stream.View() == []
    requires forall m :: m in ms ==> Sendable(receiver.role, m)
    requires Flatten(chunks) == Flatten(Wires(ms))
    requires receiver.role == Server ==>
      && (forall m, c :: m in ms && c in chunks ==> |Wire(m)| + |c| <= MAX_BACKLOG)
      && (forall c :: c in chunks ==> |c| <= MAX_BACKLOG)
    modifies receiver, receiver.stream
    ensures receiver.Valid() && receiver.ending == Running
    ensures receiver.dispatched == AllReceived(ms) && receiver.stream.View() == []
  {
    if receiver.role == Server {
      SmallEnough(ms, chunks);
    }
    receiver.ReadAll(chunks);
    DeliversAll(receiver.role, ms, chunks);
  }
}
