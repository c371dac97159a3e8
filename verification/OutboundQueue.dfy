/**
 The output side of a plain TCP connection: sends are queued, one drainer at a time hands the queue to the
 socket, and a close can be made to wait for it. Every step below is one stretch of code between taking and
 releasing the send lock, or one call into the socket.
 */
module OutboundQueue {
  import opened Octets
  import opened Incremental

  datatype Wait = NoWait | OnRead | OnWrite

  /** What the socket says of a write: some bytes taken, none for now, or failed. */
  datatype Result = Took(n: nat) | WouldBlock | Failed

  /** Where the drainer is. `Took` bytes are in flight until they are accounted for. */
  datatype Phase =
    | Idle
    | Looking
    | Writing
    | Taken(n: nat)
    | Noted(n: nat)
    | Blocked
    | Leaving(drained: bool)
    | Closing(flushed: bool)

  /** How the connection ended: drained and closed, closed at once with `p` sent until then, or broken. */
  datatype Ending = Running | Flushed | AtOnce(p: seq<byte>) | Broken

  /** Whether some call is about to close the connection at once, and what had been sent when it decided to. */
  datatype Closer = NoCloser | Closer(p: seq<byte>)

  datatype Output = Output(
    queue: seq<seq<byte>>, offset: nat, pending: nat,
    closeAfterFlush: bool, flushRunning: bool, flushReschedule: bool,
    readWait: Wait, writeWait: Wait, interest: bool,
    phase: Phase, closer: Closer, ending: Ending,
    sent: seq<byte>, accepted: seq<byte>)

  const OPENED := Output([], 0, 0, false, false, false, NoWait, NoWait, false, Idle, NoCloser, Running, [], [])

  // ---------------------------------------------------------------- the steps

  function Min(a: nat, b: nat): nat {
    if a < b then a else b
  }

  /** `refreshInterestLocked` */
  function Refresh(o: Output): Output {
    o.(interest := (o.queue != [] && o.writeWait != OnRead) || o.readWait == OnWrite || o.writeWait == OnWrite)
  }

  /** `markFlushScheduledLocked`: starts the drainer unless it is at work. */
  function Schedule(o: Output): Output {
    if o.flushRunning then o.(flushReschedule := true)
    else o.(flushRunning := true, flushReschedule := false, phase := Looking)
  }

  function Enqueue(o: Output, data: seq<byte>): Output {
    o.(queue := o.queue + [data], pending := o.pending + |data|, sent := o.sent + data)
  }

  function Send(o: Output, data: seq<byte>): Output {
    if data == [] then o else Schedule(Refresh(Enqueue(o, data)))
  }

  /** `disconnectAfterPendingWrites`; with nothing pending the caller goes on to close the connection. */
  function CloseAfterWrites(o: Output): Output {
    if o.pending != 0 then Refresh(o.(closeAfterFlush := true))
      else o.(closeAfterFlush := false, closer := Closer(o.sent))
  }

  function SetReadWait(o: Output, wait: Wait): Output {
    Refresh(o.(readWait := wait))
  }

  /** The drainer looks at the queue. */
  function Look(o: Output): Output {
    if o.queue != [] then o.(phase := Writing)
    else Refresh(o.(writeWait := NoWait, closeAfterFlush := false)).(phase := if o.closeAfterFlush then Closing(true)
      else Leaving(true))
  }

  /** The first unsent part is handed to the socket, which takes at most that. */
  function Write(o: Output, r: Result): Output
    requires o.queue != [] && o.offset <= |o.queue[0]|
  {
    var part := o.queue[0][o.offset..];
    match r
    case Took(n) =>
      var k := Min(n, |part|);
      if k == 0 then o.(phase := Closing(false)) else o.(phase := Taken(k), accepted := o.accepted + part[..k])
    case WouldBlock => o.(phase := Blocked)
    case Failed => o.(phase := Closing(false))
  }

  /** `setWriteWait` after bytes were taken. */
  function Note(o: Output, n: nat): Output {
    Refresh(o.(writeWait := NoWait)).(phase := Noted(n))
  }

  /** The bytes taken are accounted for. */
  function Account(o: Output, n: nat): Output
    requires o.queue != []
  {
    var a := o.(offset := o.offset + n, pending := if n >= o.pending then 0 else o.pending - n);
    if a.offset < |a.queue[0]| then Refresh(a).(phase := Looking)
    else
      var p := a.(queue := a.queue[1..], offset := 0);
      if p.queue == [] then Refresh(p.(closeAfterFlush := false)).(phase := if p.closeAfterFlush then Closing(true)
        else Looking)
      else Refresh(p).(phase := Looking)
  }

  /** `setWriteWait` after the socket would block. */
  function Block(o: Output): Output {
    Refresh(o.(writeWait := OnWrite)).(phase := Leaving(false))
  }

  /** The end of `runQueuedFlush`'s loop. */
  function Leave(o: Output, drained: bool): Output {
    if !drained then o.(flushRunning := false, flushReschedule := false, phase := Idle)
    else if !o.flushReschedule then o.(flushRunning := false, phase := Idle)
    else o.(flushReschedule := false, phase := Looking)
  }

  /** `clearQueuesAndWaits`, as part of `closeWithReason`. */
  function TearDown(o: Output, ending: Ending): Output {
    Output([], 0, 0, false, false, false, NoWait, NoWait, false, Idle, o.closer, ending, o.sent, o.accepted)
  }

  // ---------------------------------------------------------------- any interleaving of them

  datatype Event =
    | Sending(data: seq<byte>)
    | Writable
    | CloseLater
    | CloseNow
    | Disconnect
    | ReadBlocked
    | ReadDone
    | Drainer(result: Result)

  /** The drainer's next step; the result matters only when it writes. */
  function Drive(o: Output, result: Result): Output
    requires Shaped(o)
  {
    match o.phase
    case Idle => o
    case Looking => Look(o)
    case Writing => Write(o, result)
    case Taken(n) => Note(o, n)
    case Noted(n) => Account(o, n)
    case Blocked => Block(o)
    case Leaving(drained) => Leave(o, drained)
    case Closing(flushed) => TearDown(o, if flushed then Flushed else Broken)
  }

  /**
   Sends and closes hold the callback lock, and so does the drainer: a send that has to wait for a close finds
   the connection gone, and a close waits until the drainer has left. (Other sends would wait as well; that they
   may come at any time here only allows more than the code does.)
   */
  function Step(o: Output, e: Event): Output
    requires Shaped(o)
  {
    if o.ending != Running then o
    else
      match e
      case Sending(data) => if o.phase.Closing? then o else Send(o, data)
      case Writable => if o.phase.Closing? then o else Schedule(o)
      case CloseLater => CloseAfterWrites(o)
      case CloseNow => if o.closer.Closer? && o.phase.Idle? then TearDown(o, AtOnce(o.closer.p)) else o
      case Disconnect => if o.phase.Idle? then TearDown(o, Broken) else o
      case ReadBlocked => SetReadWait(o, OnRead)
      case ReadDone => SetReadWait(o, NoWait)
      case Drainer(result) => Drive(o, result)
  }

  // ---------------------------------------------------------------- what every step keeps

  /** Bytes the socket has taken that are not accounted for yet. */
  function InFlight(o: Output): nat {
    match o.phase
    case Taken(n) => n
    case Noted(n) => n
    case _ => 0
  }

  function Total(queue: seq<seq<byte>>): nat {
    |Flatten(queue)|
  }

  /** The queue can be drained from where the offset and the drainer stand. */
  predicate Shaped(o: Output) {
    && (forall i :: 0 <= i < |o.queue| ==> o.queue[i] != [])
    && (if o.queue == [] then o.offset == 0 else o.offset < |o.queue[0]|)
    && (o.phase.Writing? || o.phase.Blocked? || o.phase.Taken? || o.phase.Noted? ==> o.queue != [])
    && (o.phase.Taken? || o.phase.Noted? ==> 0 < InFlight(o) <= |o.queue[0]| - o.offset)
    && (o.phase == Closing(true) ==> o.queue == [])
  }

  /** The part of the queue that is not accounted for. */
  function Unsent(o: Output): (r: seq<byte>)
    requires Shaped(o)
    ensures |r| == Total(o.queue) - o.offset
    ensures InFlight(o) <= |r|
  {
    FlattenHead(o.queue);
    Flatten(o.queue)[o.offset..]
  }

  lemma FlattenHead(queue: seq<seq<byte>>)
    ensures queue != [] ==> Flatten(queue) == queue[0] + Flatten(queue[1..])
  {
    if queue != [] {
      FlattenFront(queue);
    }
  }

  /** The drainer stays away, or leaves, only from an empty queue, a refusing socket, or to come back. */
  predicate Excused(o: Output) {
    && (o.phase.Idle? ==> o.queue == [] || o.writeWait == OnWrite)
    && (o.phase == Leaving(false) ==> o.writeWait == OnWrite)
    && (o.phase == Leaving(true) ==> o.queue == [] || o.flushReschedule)
  }

  predicate Signals(o: Output) {
    && o.readWait != OnWrite && o.writeWait != OnRead
    && (o.writeWait == OnWrite ==> o.queue != [])
    && (o.phase.Noted? ==> o.writeWait == NoWait)
    && (o.interest <==> o.queue != [])
    && (o.closeAfterFlush ==> o.queue != [])
    && (o.flushRunning <==> !o.phase.Idle?)
    && Excused(o)
  }

  predicate Faithful(o: Output)
    requires Shaped(o)
  {
    && o.accepted + Unsent(o)[InFlight(o)..] == o.sent
    && o.pending == |Unsent(o)|
    && (o.closer.Closer? ==> o.closer.p <= o.accepted)
  }

  predicate Good(o: Output) {
    && Shaped(o)
    && (o.ending == Running ==> Signals(o) && Faithful(o))
    && (o.ending == Flushed ==> o.accepted == o.sent)
    && (o.ending.AtOnce? ==> o.ending.p <= o.accepted)
  }

  // ---------------------------------------------------------------- step by step

  lemma UnsentOf(o: Output)
    requires Shaped(o) && o.queue != []
    ensures Unsent(o) == o.queue[0][o.offset..] + Flatten(o.queue[1..])
  {
    FlattenFront(o.queue);
  }

  lemma Queued(queue: seq<seq<byte>>, data: seq<byte>)
    ensures Flatten(queue + [data]) == Flatten(queue) + data
  {
    assert (queue + [data])[..|queue|] == queue;
  }

  lemma Longer(accepted: seq<byte>, unsent: seq<byte>, k: nat, data: seq<byte>)
    requires k <= |unsent|
    ensures accepted + (unsent + data)[k..] == accepted + unsent[k..] + data
  {
    assert (unsent + data)[k..] == unsent[k..] + data;
  }

  lemma SendShaped(o: Output, data: seq<byte>)
    requires Shaped(o) && !o.phase.Closing? && data != [] && (o.flushRunning || o.phase.Idle?)
    ensures Shaped(Send(o, data)) && InFlight(Send(o, data)) == InFlight(o)
  {
    var r := Send(o, data);
    assert forall i :: 0 <= i < |r.queue| ==> r.queue[i] == if i < |o.queue| then o.queue[i] else data;
  }

  lemma SendFaithful(o: Output, data: seq<byte>)
    requires Shaped(o) && Faithful(o) && !o.phase.Closing? && data != [] && (o.flushRunning || o.phase.Idle?)
    ensures Shaped(Send(o, data)) && Faithful(Send(o, data))
  {
    SendShaped(o, data);
    Queued(o.queue, data);
    var r := Send(o, data);
    assert r.queue == o.queue + [data] && r.offset == o.offset && r.accepted == o.accepted && r.sent == o.sent + data;
    assert r.pending == o.pending + |data| && r.closer == o.closer;
    hide Send; hide Shaped; hide Flatten; hide InFlight;
    assert Unsent(r) == Unsent(o) + data;
    Longer(o.accepted, Unsent(o), InFlight(o), data);
  }

  lemma SendGood(o: Output, data: seq<byte>)
    requires Good(o) && o.ending == Running && !o.phase.Closing?
    ensures Good(Send(o, data))
  {
    if data != [] {
      SendFaithful(o, data);
      hide Faithful; hide Shaped;
    }
  }

  lemma Taking(accepted: seq<byte>, part: seq<byte>, rest: seq<byte>, k: nat)
    requires k <= |part|
    ensures accepted + part[..k] + (part + rest)[k..] == accepted + (part + rest)
  {
    assert part[..k] + (part + rest)[k..] == part + rest;
  }

  lemma WriteShaped(o: Output, result: Result)
    requires Shaped(o) && o.phase.Writing?
    ensures var r := Write(o, result);
      && Shaped(r) && r == o.(phase := r.phase, accepted := r.accepted)
      && (if r.phase.Taken? then r.accepted == o.accepted + o.queue[0][o.offset..][..r.phase.n]
        else r.accepted == o.accepted)
      && (r.phase.Taken? || r.phase.Blocked? || r.phase == Closing(false))
  {
  }

  lemma WriteFaithful(o: Output, result: Result)
    requires Shaped(o) && Faithful(o) && o.phase.Writing?
    ensures Shaped(Write(o, result)) && Faithful(Write(o, result))
  {
    WriteShaped(o, result);
    UnsentOf(o);
    var r := Write(o, result);
    hide Write;
    UnsentOf(r);
    if r.phase.Taken? {
      assert Unsent(o)[0..] == Unsent(o);
      Taking(o.accepted, o.queue[0][o.offset..], Flatten(o.queue[1..]), r.phase.n);
      hide Unsent; hide Shaped; hide Flatten;
    } else {
      SameStream(o, r);
    }
  }

  /** A step that leaves queue, offset and counters alone keeps the stream faithful. */
  lemma SameStream(o: Output, r: Output)
    requires Shaped(o) && Shaped(r) && Faithful(o) && InFlight(o) == InFlight(r)
    requires o.queue == r.queue && o.offset == r.offset && o.pending == r.pending
    requires o.accepted == r.accepted && o.sent == r.sent && o.closer == r.closer
    ensures Faithful(r)
  {
    hide Shaped; hide InFlight; hide Flatten;
    assert Unsent(o) == Unsent(r);
  }

  lemma WriteGood(o: Output, result: Result)
    requires Good(o) && o.ending == Running && o.phase.Writing?
    ensures Good(Write(o, result))
  {
    WriteShaped(o, result);
    WriteFaithful(o, result);
    hide Write; hide Faithful; hide Shaped;
  }

  lemma AccountGood(o: Output, n: nat)
    requires Good(o) && o.ending == Running && o.phase == Noted(n)
    ensures Good(Account(o, n)) && Unsent(Account(o, n)) == Unsent(o)[n..]
  {
    UnsentOf(o);
    var r := Account(o, n);
    if o.offset + n < |o.queue[0]| {
      assert Unsent(r) == Unsent(o)[n..];
    } else {
      assert o.queue[0][o.offset..][n..] == [];
      assert Shaped(r);
      assert Flatten(o.queue[1..])[0..] == Flatten(o.queue[1..]);
      assert Unsent(r) == Unsent(o)[n..];
    }
    assert Unsent(r)[0..] == Unsent(r);
  }

  lemma DriveGood(o: Output, result: Result)
    requires Good(o) && o.ending == Running
    ensures Good(Drive(o, result))
  {
    match o.phase
    case Writing => WriteGood(o, result);
    case Noted(n) => AccountGood(o, n);
    case Closing(flushed) =>
      if flushed {
        assert Unsent(o) == [] && o.accepted + [] == o.accepted;
      }
    case _ =>
      PlainDrive(o, result);
      SameStream(o, Drive(o, result));
      hide Faithful; hide Shaped; hide Signals;
  }

  lemma PlainDrive(o: Output, result: Result)
    requires Shaped(o) && Signals(o) && o.ending == Running && !o.phase.Writing? && !o.phase.Noted? && !o.phase.Closing?
    ensures var r := Drive(o, result);
      && Shaped(r) && Signals(r) && InFlight(r) == InFlight(o) && r.ending == Running
      && o.queue == r.queue && o.offset == r.offset && o.pending == r.pending
      && o.accepted == r.accepted && o.sent == r.sent && o.closer == r.closer
  {
  }

  lemma CloseGood(o: Output)
    requires Good(o) && o.ending == Running
    ensures Good(CloseAfterWrites(o))
  {
    FlattenHead(o.queue);
    assert Unsent(CloseAfterWrites(o)) == Unsent(o);
    if o.pending == 0 {
      assert Unsent(o)[InFlight(o)..] == [] && o.accepted + [] == o.accepted;
    }
  }

  lemma StepGood(o: Output, e: Event)
    requires Good(o)
    ensures Good(Step(o, e))
  {
    if o.ending == Running {
      match e
      case Sending(data) =>
        if !o.phase.Closing? {
          SendGood(o, data);
        }
      case CloseLater => CloseGood(o);
      case Drainer(result) => DriveGood(o, result);
      case _ =>
        assert Step(o, e).ending == Running ==> Unsent(Step(o, e)) == Unsent(o);
    }
  }

  // ---------------------------------------------------------------- over every run

  function Run(es: seq<Event>): (o: Output)
    ensures Good(o)
  {
    if es == [] then OPENED
    else
      var before, e := Run(es[..|es| - 1]), es[|es| - 1];
      StepGood(before, e);
      Step(before, e)
  }

  /**
   The unsent part of the queue, as the offset has it, follows what was accepted exactly when nothing is in
   flight.
   */
  lemma StreamWithoutFlight(es: seq<Event>)
    requires Run(es).ending == Running
    ensures var o := Run(es); o.accepted + Unsent(o) == o.sent <==> InFlight(o) == 0
  {
    var o := Run(es);
    hide Run; hide Unsent;
    assert |o.accepted| + |Unsent(o)| - InFlight(o) == |o.sent|;
    assert Unsent(o)[0..] == Unsent(o);
  }

  /**
   While the connection runs the socket is watched for writing exactly when something is queued, and a close
   waits only for queued bytes.
   */
  lemma NoStalledOutput(es: seq<Event>)
    requires Run(es).ending == Running
    ensures var o := Run(es); (o.interest <==> o.queue != []) && (o.closeAfterFlush ==> o.queue != [])
  {
  }

  /** When nobody drains, nothing is queued or the socket last refused to take more. */
  lemma NothingLiesIdle(es: seq<Event>)
    requires Run(es).ending == Running && Run(es).phase.Idle?
    ensures Run(es).queue == [] || (Run(es).writeWait == OnWrite && Run(es).interest)
  {
    hide Run;
  }

  // ---------------------------------------------------------------- closing

  lemma NothingUnsent(o: Output)
    requires Good(o) && o.ending == Running && (o.queue == [] || o.phase == Closing(true))
    ensures o.queue == [] && o.accepted == o.sent
  {
    assert Unsent(o) == [] && o.accepted + [] == o.accepted;
  }

  lemma AccountKeepsClose(o: Output, n: nat)
    requires o.queue != [] && o.closeAfterFlush
    ensures Account(o, n).closeAfterFlush || Account(o, n).phase == Closing(true)
  {
  }

  lemma StepKeepsClose(o: Output, e: Event)
    requires Shaped(o) && o.ending == Running && o.closeAfterFlush && o.pending != 0 && o.queue != []
    ensures var r := Step(o, e); r.ending == Running ==> r.closeAfterFlush || r.phase == Closing(true)
  {
    if o.phase.Noted? {
      AccountKeepsClose(o, o.phase.n);
    }
    hide Account; hide Shaped;
  }

  /** A close that waits for the queue is carried out by the drainer and not forgotten before. */
  lemma CloseIsNotForgotten(es: seq<Event>, e: Event)
    requires Run(es).ending == Running && Run(es).closeAfterFlush
    ensures var o := Step(Run(es), e);
      o.ending == Running ==> o.closeAfterFlush || (o.phase == Closing(true) && o.accepted == o.sent)
  {
    var b := Run(es);
    StepGood(b, e);
    FlattenHead(b.queue);
    StepKeepsClose(b, e);
    var o := Step(b, e);
    hide Run; hide Step; hide Good;
    if o.ending == Running && o.phase == Closing(true) {
      NothingUnsent(o);
    }
  }

  lemma RunStep(es: seq<Event>)
    requires es != []
    ensures Run(es) == Step(Run(es[..|es| - 1]), es[|es| - 1])
  {
    hide Step;
  }

  lemma DriveCloser(o: Output, r: Result)
    requires Shaped(o)
    ensures var d := Drive(o, r);
      d.closer == o.closer && (d.ending == o.ending || d.ending == Flushed || d.ending == Broken)
  {
    if o.phase.Noted? {
      AccountCloser(o, o.phase.n);
    } else if o.phase.Writing? {
      WriteCloser(o, r);
    }
    hide Account; hide Write; hide Shaped;
  }

  lemma AccountCloser(o: Output, n: nat)
    requires o.queue != []
    ensures Account(o, n).closer == o.closer && Account(o, n).ending == o.ending
  {
  }

  lemma WriteCloser(o: Output, r: Result)
    requires o.queue != [] && o.offset <= |o.queue[0]|
    ensures Write(o, r).closer == o.closer && Write(o, r).ending == o.ending
  {
  }

  lemma SendCloser(o: Output, data: seq<byte>)
    ensures Send(o, data).closer == o.closer && Send(o, data).ending == o.ending
  {
  }

  lemma StepCloser(o: Output, e: Event)
    requires Shaped(o)
    ensures var r := Step(o, e);
      && (r.closer == o.closer || (e == CloseLater && o.pending == 0 && r.closer == Closer(o.sent) &&
        r.ending == o.ending))
      && (r.ending == o.ending || (r.ending.AtOnce? ==> r.closer == Closer(r.ending.p)))
      && (o.ending != Running ==> r == o)
  {
    if e.Drainer? {
      DriveCloser(o, e.result);
    } else if e.Sending? {
      SendCloser(o, e.data);
    }
    hide Drive; hide Send; hide Shaped;
  }

  /** The decision to close at once was taken with everything sent until then accepted. */
  lemma {:induction false} CloserFrom(es: seq<Event>) returns (i: nat)
    requires Run(es).closer.Closer?
    ensures i < |es| && es[i] == CloseLater && Run(es[..i]).pending == 0 && Run(es).closer == Closer(Run(es[..i]).sent)
  {
    var last := |es| - 1;
    RunStep(es);
    StepCloser(Run(es[..last]), es[last]);
    hide *;
    if es[last] == CloseLater && Run(es[..last]).pending == 0 && Run(es).closer == Closer(Run(es[..last]).sent) {
      i := last;
    } else {
      i := CloserFrom(es[..last]);
      assert es[..last][..i] == es[..i];
    }
  }

  lemma {:induction false} EndedAtOnce(es: seq<Event>)
    requires Run(es).ending.AtOnce?
    ensures Run(es).closer == Closer(Run(es).ending.p)
  {
    var last := |es| - 1;
    RunStep(es);
    StepCloser(Run(es[..last]), es[last]);
    if Run(es[..last]).ending.AtOnce? {
      hide *;
      EndedAtOnce(es[..last]);
    }
  }

  /**
   What a caller of `disconnectAfterPendingWrites` is promised. If the drainer closes the connection, every
   byte ever sent was accepted. If the call closes it at once, every byte sent before that call was.
   */
  lemma GracefulCloseLosesNothing(es: seq<Event>)
    ensures Run(es).ending == Flushed ==> Run(es).accepted == Run(es).sent
    ensures Run(es).ending.AtOnce? ==>
      exists i :: 0 <= i < |es| && es[i] == CloseLater && Run(es[..i]).pending == 0
        && Run(es).ending == AtOnce(Run(es[..i]).sent) && Run(es[..i]).sent <= Run(es).accepted
  {
    if Run(es).ending.AtOnce? {
      EndedAtOnce(es);
      var i := CloserFrom(es);
      assert es[i] == CloseLater && Run(es).ending == AtOnce(Run(es[..i]).sent);
    }
  }

  /** What is sent while a close at once is under way is lost, unless the drainer still got rid of it ... */
  lemma CloseNowLosesTheQueue(es: seq<Event>)
    requires Run(es).ending == Running && Run(es).closer.Closer? && Run(es).phase.Idle?
    ensures var r := Step(Run(es), CloseNow);
      r.ending.AtOnce? && (r.accepted == r.sent <==> Run(es).queue == [])
  {
    var o := Run(es);
    hide Run;
    FlattenHead(o.queue);
    assert Unsent(o)[0..] == Unsent(o);
    assert |o.accepted| + |Unsent(o)| == |o.sent|;
    if o.queue == [] {
      assert Unsent(o) == [] && o.accepted + [] == o.accepted;
    }
  }

  /** ... and this does happen, to any data. */
  lemma LateSendIsLost(data: seq<byte>) returns (es: seq<Event>)
    requires data != []
    ensures Sending(data) in es && Run(es).ending == AtOnce([]) && Run(es).sent == data && Run(es).accepted == []
  {
    es := [];
    assert Run(es) == OPENED;
    LateQueued(data);
    LateDrained(data);
    LateLeft(data);
    hide *;
    es := Then(es, CloseLater);
    es := Then(es, Sending(data));
    es := Then(es, Drainer(WouldBlock));
    es := Then(es, Drainer(WouldBlock));
    es := Then(es, Drainer(WouldBlock));
    es := Then(es, Drainer(WouldBlock));
    es := Then(es, CloseNow);
    var left := Late(data, Leaving(false)).(writeWait := OnWrite, flushRunning := false, phase := Idle);
    TearDownKeeps(left, AtOnce([]));
    LateKeeps(data, Leaving(false));
  }

  function Late(data: seq<byte>, phase: Phase): Output {
    Output([data], 0, |data|, false, true, false, NoWait, NoWait, true, phase, Closer([]), Running, data, [])
  }

  lemma LateKeeps(data: seq<byte>, phase: Phase)
    ensures Late(data, phase).sent == data && Late(data, phase).accepted == []
  {
  }

  lemma TearDownKeeps(o: Output, ending: Ending)
    ensures var r := TearDown(o, ending); r.ending == ending && r.sent == o.sent && r.accepted == o.accepted
  {
  }

  lemma LateQueued(data: seq<byte>)
    requires data != []
    ensures var deciding := OPENED.(closer := Closer([]));
      && Shaped(OPENED) && Step(OPENED, CloseLater) == deciding
      && Shaped(deciding) && Step(deciding, Sending(data)) == Late(data, Looking)
  {
    assert [] + data == data && [] + [data] == [data];
  }

  lemma LateDrained(data: seq<byte>)
    requires data != []
    ensures var leaving := Late(data, Leaving(false)).(writeWait := OnWrite);
      && Shaped(Late(data, Looking)) && Shaped(Late(data, Writing)) && Shaped(Late(data, Blocked))
      && Step(Late(data, Looking), Drainer(WouldBlock)) == Late(data, Writing)
      && Step(Late(data, Writing), Drainer(WouldBlock)) == Late(data, Blocked)
      && Step(Late(data, Blocked), Drainer(WouldBlock)) == leaving
  {
  }

  lemma LateLeft(data: seq<byte>)
    requires data != []
    ensures var leaving := Late(data, Leaving(false)).(writeWait := OnWrite);
      var left := leaving.(flushRunning := false, phase := Idle);
      && Shaped(leaving) && Step(leaving, Drainer(WouldBlock)) == left
      && Shaped(left) && Step(left, CloseNow) == TearDown(left, AtOnce([]))
  {
  }

  lemma Then(es: seq<Event>, e: Event) returns (more: seq<Event>)
    ensures more == es + [e] && Run(more) == Step(Run(es), e)
  {
    more := es + [e];
    RunStep(more);
    assert more[..|more| - 1] == es;
  }

  /** The state with one send queued and the drainer somewhere, one byte taken or not. */
  function Alone(data: seq<byte>, phase: Phase, accepted: seq<byte>): Output {
    Output([data], 0, |data|, false, true, false, NoWait, NoWait, true, phase, NoCloser, Running, data, accepted)
  }

  lemma AloneSteps(data: seq<byte>)
    requires data != []
    ensures Shaped(OPENED) && Step(OPENED, Sending(data)) == Alone(data, Looking, [])
    ensures Shaped(Alone(data, Looking, [])) && Shaped(Alone(data, Writing, [])) &&
      Shaped(Alone(data, Taken(1), data[..1]))
    ensures Step(Alone(data, Looking, []), Drainer(Took(1))) == Alone(data, Writing, [])
    ensures Step(Alone(data, Writing, []), Drainer(Took(1))) == Alone(data, Taken(1), data[..1])
    ensures Step(Alone(data, Taken(1), data[..1]), Drainer(Took(1))) == Alone(data, Noted(1), data[..1])
  {
    assert [] + data == data && [] + [data] == [data] && data[0..] == data && [] + data[..1] == data[..1];
  }

  /** A run into that window: a byte of any data was accepted, the lock is free, and the queue still shows all of it. */
  lemma TakenButQueued(data: seq<byte>) returns (es: seq<Event>)
    requires data != []
    ensures var o := Run(es);
      && o.ending == Running && InFlight(o) == 1 && o.sent == data && o.accepted == data[..1] && o.queue == [data]
      && Unsent(o) == data && o.accepted + Unsent(o) != o.sent
  {
    es := [];
    assert Run(es) == OPENED;
    AloneSteps(data);
    hide Run; hide Step;
    es := Then(es, Sending(data));
    es := Then(es, Drainer(Took(1)));
    es := Then(es, Drainer(Took(1)));
    es := Then(es, Drainer(Took(1)));
    FlattenHead([data]);
    assert |Run(es).accepted + Unsent(Run(es))| == |data| + 1;
  }

  // ---------------------------------------------------------------- the drainer by itself

  lemma DrivePhase(o: Output, r: Result)
    requires Good(o) && o.ending == Running && !o.phase.Idle? && !o.phase.Leaving? && !o.phase.Closing?
    ensures var d := Drive(o, r);
      && d.ending == Running
      && (o.phase.Looking? ==> d.phase.Writing? || d.phase.Leaving? || d.phase.Closing?)
      && (o.phase.Writing? ==> d.phase.Taken? || d.phase.Blocked? || d.phase.Closing?)
      && (o.phase.Taken? ==> d.phase.Noted?)
      && (o.phase.Blocked? ==> d.phase.Leaving?)
      && (o.phase.Noted? ==> d.phase.Looking? || d.phase.Closing?)
  {
  }

  /** The drainer's next step, where it goes on being a good state. */
  function Driven(o: Output, r: Result): (d: Output)
    requires Good(o) && o.ending == Running
    ensures Good(d)
  {
    DriveGood(o, r);
    hide Drive;
    Drive(o, r)
  }

  /** One turn of `drainSendQueue`'s loop with nothing in between. */
  function Turn(o: Output, r: Result): (t: Output)
    requires Good(o) && o.ending == Running && o.phase.Looking?
    ensures Good(t) && t.ending == Running
    ensures t.phase.Looking? || t.phase.Leaving? || t.phase.Closing?
  {
    hide Drive; hide Good;
    DrivePhase(o, r);
    var l := Driven(o, r);
    if !l.phase.Writing? then l
    else
      DrivePhase(l, r);
      var w := Driven(l, r);
      if w.phase.Closing? then w
      else
        DrivePhase(w, r);
        var n := Driven(w, r);
        if n.phase.Leaving? then n
        else
          DrivePhase(n, r);
          Driven(n, r)
  }
}
