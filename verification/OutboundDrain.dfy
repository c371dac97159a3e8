/** The output side of a TCP connection as an object, and what its drainer does when left alone. */
module OutboundDrain {
  import opened Octets
  import opened OutboundQueue

  // ---------------------------------------------------------------- one drain

  predicate Stopped(o: Output) {
    o.phase.Leaving? || o.phase.Closing?
  }

  /** `drainSendQueue` with nothing in between: the socket answers with the given results, then would block. */
  function Drained(o: Output, results: seq<Result>): (r: Output)
    requires Good(o) && o.ending == Running && o.phase.Looking?
    ensures Good(r) && r.ending == Running && Stopped(r)
    decreases |results|
  {
    hide Turn; hide Good;
    if results == [] then BlockedTurn(o); Turn(o, WouldBlock)
    else
      var t := Turn(o, results[0]);
      if t.phase.Looking? then Drained(t, results[1..]) else t
  }

  lemma BlockedTurn(o: Output)
    requires Good(o) && o.ending == Running && o.phase.Looking?
    ensures Stopped(Turn(o, WouldBlock))
  {
    hide Good;
  }

  // ---------------------------------------------------------------- a willing socket gets everything

  lemma SameUnsent(o: Output, r: Output)
    requires Shaped(o) && Shaped(r) && o.queue == r.queue && o.offset == r.offset
    ensures Unsent(o) == Unsent(r)
  {
    hide Shaped;
  }

  /** What a turn in which the socket takes something consists of. */
  lemma TurnIs(o: Output, n: nat) returns (m: Output, k: nat)
    requires Good(o) && o.ending == Running && o.phase.Looking? && n > 0 && o.queue != []
    ensures Good(m) && m.ending == Running && m.phase == Noted(k) && k > 0 && Turn(o, Took(n)) == Account(m, k)
    ensures m.queue == o.queue && m.offset == o.offset && m.sent == o.sent && m.closeAfterFlush == o.closeAfterFlush
  {
    var r := Took(n);
    var l := Driven(o, r);
    var w := Driven(l, r);
    m := Driven(w, r);
    k := w.phase.n;
    hide Good; hide Account; hide Shaped;
  }

  lemma AccountFields(m: Output, k: nat)
    requires m.queue != []
    ensures var t := Account(m, k);
      && t.sent == m.sent
      && (t.phase.Looking? ==> t.closeAfterFlush == m.closeAfterFlush)
      && (t.phase.Looking? || (t.phase == Closing(true) && m.closeAfterFlush))
  {
  }

  /** A turn in which the socket takes something shortens what is unsent. */
  lemma TurnTakes(o: Output, n: nat)
    requires Good(o) && o.ending == Running && o.phase.Looking? && n > 0 && o.queue != []
    ensures var t := Turn(o, Took(n));
      && t.sent == o.sent && |Unsent(t)| < |Unsent(o)|
      && (t.phase.Looking? ==> t.closeAfterFlush == o.closeAfterFlush)
      && (t.phase.Looking? || (t.phase == Closing(true) && o.closeAfterFlush))
  {
    var m, k := TurnIs(o, n);
    AccountGood(m, k);
    AccountFields(m, k);
    SameUnsent(o, m);
    assert |Unsent(m)[k..]| == |Unsent(m)| - k;
    hide Turn; hide Account; hide Unsent;
  }

  lemma EmptyTurn(o: Output, r: Result)
    requires Good(o) && o.ending == Running && o.phase.Looking? && o.queue == []
    ensures var t := Turn(o, r);
      t.sent == o.sent && t.queue == [] && t.phase == if o.closeAfterFlush then Closing(true) else Leaving(true)
  {
    hide Good;
  }

  /**
   If the socket takes something with every write and there are enough of them, one drain hands over
   everything that was sent, and closes the connection exactly if that was asked for.
   */
  lemma {:induction false} DrainsEverything(o: Output, results: seq<Result>)
    requires Good(o) && o.ending == Running && o.phase.Looking?
    requires (forall r :: r in results ==> r.Took? && r.n > 0) && |results| > |Unsent(o)|
    ensures var d := Drained(o, results);
      && d.queue == [] && d.accepted == o.sent
      && d.phase == if o.closeAfterFlush then Closing(true) else Leaving(true)
    decreases |results|
  {
    assert results[0] in results;
    if o.queue == [] {
      EmptyTurn(o, results[0]);
    } else {
      TurnTakes(o, results[0].n);
    }
    var t := Turn(o, results[0]);
    hide Turn;
    if t.phase.Looking? {
      hide Good; hide Unsent;
      assert forall r :: r in results[1..] ==> r in results;
      DrainsEverything(t, results[1..]);
    } else {
      NothingUnsent(t);
    }
  }

  // ---------------------------------------------------------------- the connection as an object

  /** Where the drainer stands and what has happened so far. */
  datatype Past = Past(phase: Phase, closer: Closer, ending: Ending, sent: seq<byte>, accepted: seq<byte>)

  class Client {
    var queue: seq<seq<byte>>
    var offset: nat
    var pending: nat
    var closeAfterFlush: bool
    var flushRunning: bool
    var flushReschedule: bool
    var readWait: Wait
    var writeWait: Wait
    var interest: bool
    ghost var past: Past

    ghost function State(): Output
      reads this
    {
      Output(queue, offset, pending, closeAfterFlush, flushRunning, flushReschedule, readWait, writeWait, interest,
             past.phase, past.closer, past.ending, past.sent, past.accepted)
    }

    ghost predicate Valid()
      reads this
    {
      Good(State())
    }

    constructor ()
      ensures Valid() && State() == OPENED
    {
      queue, offset, pending := [], 0, 0;
      closeAfterFlush, flushRunning, flushReschedule := false, false, false;
      readWait, writeWait, interest := NoWait, NoWait, false;
      past := Past(Idle, NoCloser, Running, [], []);
      new;
      assert Run([]) == OPENED;
    }

    method RefreshInterest()
      requires past.ending == Running
      modifies this`interest
      ensures State() == Refresh(old(State()))
    {
      var enable := false;
      if queue != [] {
        enable := writeWait != OnRead;
      }
      if !enable {
        enable := readWait == OnWrite || writeWait == OnWrite;
      }
      if interest == enable {
        return;
      }
      interest := enable;
    }

    method MarkFlushScheduled() returns (start: bool)
      requires past.ending == Running
      modifies this`flushRunning, this`flushReschedule, this`past
      ensures State() == Schedule(old(State())) && start == !old(flushRunning)
    {
      if flushRunning {
        flushReschedule := true;
        return false;
      }
      flushRunning := true;
      flushReschedule := false;
      past := past.(phase := Looking);
      return true;
    }

    /** Returns whether the caller has to run the drainer. */
    method Send(data: seq<byte>) returns (start: bool)
      requires Valid() && past.ending == Running && !past.phase.Closing?
      modifies this
      ensures Valid() && State() == OutboundQueue.Send(old(State()), data)
      ensures start == (data != [] && !old(flushRunning))
    {
      ghost var before := State();
      SendGood(before, data);
      hide Good; hide Refresh; hide Schedule; hide Enqueue;
      if data == [] {
        return false;
      }
      PushBack(data);
      assert flushRunning == before.flushRunning;
      RefreshInterest();
      start := MarkFlushScheduled();
    }

    method PushBack(data: seq<byte>)
      modifies this`queue, this`pending, this`past
      ensures State() == Enqueue(old(State()), data) && past.ending == old(past.ending)
    {
      queue := queue + [data];
      pending := pending + |data|;
      past := past.(sent := past.sent + data);
    }

    /** Returns whether the caller has to close the connection itself. */
    method DisconnectAfterPendingWrites() returns (closeNow: bool)
      requires Valid() && past.ending == Running
      modifies this
      ensures Valid() && State() == CloseAfterWrites(old(State()))
      ensures closeNow == (old(pending) == 0)
    {
      CloseGood(State());
      hide Good;
      closeAfterFlush := true;
      closeNow := pending == 0;
      if closeNow {
        closeAfterFlush := false;
        past := past.(closer := Closer(past.sent));
      } else {
        RefreshInterest();
      }
    }

    method SetReadWait(wait: Wait)
      requires past.ending == Running
      modifies this`readWait, this`interest
      ensures State() == OutboundQueue.SetReadWait(old(State()), wait)
    {
      readWait := wait;
      RefreshInterest();
    }

    method SetWriteWait(wait: Wait)
      requires past.ending == Running
      modifies this`writeWait, this`interest
      ensures State() == Refresh(old(State()).(writeWait := wait))
    {
      writeWait := wait;
      RefreshInterest();
    }

    /** The part of a turn that finds the queue empty; returns whether to close. */
    method FindNothing() returns (closeNow: bool)
      requires past.ending == Running && past.phase.Looking? && queue == []
      modifies this`writeWait, this`closeAfterFlush, this`interest, this`past
      ensures State() == Look(old(State())) && closeNow == old(closeAfterFlush)
    {
      writeWait := NoWait;
      closeNow := closeAfterFlush;
      if closeNow {
        closeAfterFlush := false;
      }
      RefreshInterest();
      past := past.(phase := if closeNow then Closing(true) else Leaving(true));
    }

    /** The front of the queue is done with; returns whether to close. */
    method PopFront() returns (closeNow: bool)
      requires past.ending == Running && queue != []
      modifies this`queue, this`offset, this`closeAfterFlush, this`interest, this`past
      ensures State() == Popped(old(State())) && closeNow == past.phase.Closing?
    {
      closeNow := false;
      queue := queue[1..];
      offset := 0;
      if queue == [] {
        closeNow := closeAfterFlush;
        if closeNow {
          closeAfterFlush := false;
        }
      }
      RefreshInterest();
      past := past.(phase := if closeNow then Closing(true) else Looking);
    }

    method Count(n: nat)
      modifies this`offset, this`pending
      ensures State() == Counted(old(State()), n)
    {
      offset := offset + n;
      pending := if n >= pending then 0 else pending - n;
    }

    /** The part of a turn after the socket took `n` bytes of the front; returns whether to close. */
    method AccountFor(n: nat, size: nat) returns (closeNow: bool)
      requires past.ending == Running && past.phase.Noted? && queue != [] && size == |queue[0]|
      modifies this`queue, this`offset, this`pending, this`closeAfterFlush, this`interest, this`past
      ensures State() == Account(old(State()), n)
      ensures closeNow == past.phase.Closing?
    {
      hide Refresh; hide Account; hide Popped; hide Counted;
      ghost var before := State();
      AccountIs(before, n);
      ghost var counted := Counted(before, n);
      Count(n);
      if offset < size {
        RefreshInterest();
        RefreshKeeps(counted);
        past := past.(phase := Looking);
        closeNow := false;
      } else {
        closeNow := PopFront();
      }
    }

    /** The front of the queue is handed to the socket; returns whether the loop goes on. */
    method WriteFront(result: Result) returns (again: bool)
      requires past.ending == Running && past.phase.Writing? && queue != [] && offset < |queue[0]|
      modifies this
      ensures State() == AfterWrite(old(State()), result)
      ensures again == past.phase.Looking? && past.phase != Leaving(true)
    {
      ghost var before := State();
      var current, from := queue[0], offset;
      var k := if result.Took? then Min(result.n, |current| - from) else 0;
      WriteIs(before, result, k);
      ghost var wrote := Write(before, result);
      hide Account; hide Refresh; hide Write; hide Note; hide Block;
      if result.WouldBlock? {
        past := past.(phase := Blocked);
        assert State() == wrote;
        Wait(OnWrite, Leaving(false));
        BlockIs(wrote);
        return false;
      }
      if k == 0 {
        past := past.(phase := Closing(false));
        return false;
      }
      past := past.(phase := Taken(k), accepted := past.accepted + current[from..][..k]);
      assert State() == wrote;
      Wait(NoWait, Noted(k));
      NoteIs(wrote, k);
      RefreshKeeps(wrote.(writeWait := NoWait));
      assert State() == Note(wrote, k);
      var closeNow := AccountFor(k, |current|);
      AccountPhase(Note(wrote, k), k);
      return !closeNow;
    }

    /** One turn of the loop: returns whether it goes on, and if not, whether the queue was drained. */
    method DrainOnce(result: Result) returns (again: bool, drained: bool)
      requires Valid() && past.ending == Running && past.phase.Looking?
      modifies this
      ensures Valid() && State() == Turn(old(State()), result)
      ensures again == past.phase.Looking? && drained == (past.phase == Leaving(true))
    {
      ghost var before := State();
      TurnSteps(before, result);
      hide Good; hide Turn; hide Look; hide AfterWrite;
      LookPhase(before);
      if queue == [] {
        var closeNow := FindNothing();
        return false, !closeNow;
      }
      past := past.(phase := Writing);
      assert State() == Look(before);
      again := WriteFront(result);
      drained := false;
    }

    /** `setWriteWait`, on the way to the next phase. */
    method Wait(wait: Wait, ghost phase: Phase)
      requires past.ending == Running
      modifies this`writeWait, this`interest, this`past
      ensures State() == Refresh(old(State()).(writeWait := wait)).(phase := phase)
    {
      SetWriteWait(wait);
      past := past.(phase := phase);
    }

    /** `drainSendQueue` with the answers of the socket. */
    method DrainSendQueue(results: seq<Result>) returns (drained: bool)
      requires Valid() && past.ending == Running && past.phase.Looking?
      modifies this
      ensures Valid() && State() == Drained(old(State()), results)
      ensures drained == (past.phase == Leaving(true))
    {
      hide Good; hide Turn;
      var i := 0;
      var again := true;
      drained := false;
      assert results[0..] == results;
      while again && i < |results|
        invariant 0 <= i <= |results| && Valid() && past.ending == Running && (again <==> past.phase.Looking?)
        invariant again ==> Drained(State(), results[i..]) == Drained(old(State()), results)
        invariant !again ==> State() == Drained(old(State()), results) && drained == (past.phase == Leaving(true))
        decreases |results| - i
      {
        assert results[i..][0] == results[i] && results[i..][1..] == results[i + 1..];
        again, drained := DrainOnce(results[i]);
        i := i + 1;
      }
      if again {
        BlockedTurn(State());
        again, drained := DrainOnce(WouldBlock);
      }
    }

    /** The end of `runQueuedFlush`'s loop; returns whether to drain again. */
    method FinishFlush(drained: bool) returns (again: bool)
      requires Valid() && past.ending == Running && past.phase == Leaving(drained)
      modifies this
      ensures Valid() && State() == Leave(old(State()), drained) && again == past.phase.Looking?
    {
      DriveGood(State(), WouldBlock);
      hide Good;
      if !drained {
        flushRunning, flushReschedule := false, false;
        past := past.(phase := Idle);
        return false;
      }
      if !flushReschedule {
        flushRunning := false;
        past := past.(phase := Idle);
        return false;
      }
      flushReschedule := false;
      past := past.(phase := Looking);
      return true;
    }

    method ClearQueuesAndWaits()
      modifies this
      ensures past == old(past) && State() == TearDown(old(State()), past.ending).(phase := past.phase)
    {
      queue, offset, pending := [], 0, 0;
      closeAfterFlush, flushRunning, flushReschedule := false, false, false;
      readWait, writeWait, interest := NoWait, NoWait, false;
    }

    /** `closeWithReason`: queue and flags are dropped, what was sent and accepted stands. */
    method Close(ghost how: Ending)
      requires Valid() && past.ending == Running && how != Running
      requires how == Flushed ==> past.phase == Closing(true)
      requires how.AtOnce? ==> past.closer == Closer(how.p)
      modifies this
      ensures Valid() && State() == TearDown(old(State()), how)
    {
      TearDownGood(State(), how);
      hide Good;
      ClearQueuesAndWaits();
      past := past.(phase := Idle, ending := how);
    }
  }

  // ---------------------------------------------------------------- the steps in the pieces the methods have

  function Counted(o: Output, n: nat): Output {
    o.(offset := o.offset + n, pending := if n >= o.pending then 0 else o.pending - n)
  }

  function Popped(o: Output): Output
    requires o.queue != []
  {
    var p := o.(queue := o.queue[1..], offset := 0);
    if p.queue == [] then Refresh(p.(closeAfterFlush := false)).(phase := if p.closeAfterFlush then Closing(true)
      else Looking)
    else Refresh(p).(phase := Looking)
  }

  lemma AccountIs(o: Output, n: nat)
    requires o.queue != []
    ensures var c := Counted(o, n);
      c.queue == o.queue && Account(o, n) == if c.offset < |o.queue[0]| then Refresh(c).(phase := Looking)
        else Popped(c)
  {
    hide Refresh;
  }

  lemma LookPhase(o: Output)
    ensures o.queue == [] ==> Look(o).phase == if o.closeAfterFlush then Closing(true) else Leaving(true)
    ensures o.queue != [] ==> Look(o) == o.(phase := Writing)
  {
  }

  lemma WriteIs(o: Output, r: Result, k: nat)
    requires o.queue != [] && o.offset <= |o.queue[0]| && k == if r.Took? then Min(r.n, |o.queue[0]| - o.offset) else 0
    ensures Write(o, r) ==
      if r.WouldBlock? then o.(phase := Blocked)
      else if k == 0 then o.(phase := Closing(false))
      else o.(phase := Taken(k), accepted := o.accepted + o.queue[0][o.offset..][..k])
  {
  }

  lemma NoteIs(o: Output, n: nat)
    ensures Note(o, n) == Refresh(o.(writeWait := NoWait)).(phase := Noted(n))
  {
  }

  lemma BlockIs(o: Output)
    ensures Block(o) == Refresh(o.(writeWait := OnWrite)).(phase := Leaving(false))
  {
  }

  /** The rest of a turn once the front is about to be written. */
  function AfterWrite(o: Output, r: Result): Output
    requires o.queue != [] && o.offset < |o.queue[0]|
  {
    var w := Write(o, r);
    if w.phase.Taken? then Account(Note(w, w.phase.n), w.phase.n)
    else if w.phase.Blocked? then Block(w)
    else w
  }

  lemma AccountPhase(o: Output, n: nat)
    requires o.queue != []
    ensures Account(o, n).phase.Looking? || Account(o, n).phase.Closing?
  {
  }

  lemma TurnSteps(o: Output, r: Result)
    requires Good(o) && o.ending == Running && o.phase.Looking?
    ensures Good(Turn(o, r))
    ensures o.queue == [] ==> Turn(o, r) == Look(o)
    ensures o.queue != [] ==> Look(o) == o.(phase := Writing) && o.offset < |o.queue[0]|
    ensures o.queue != [] ==> Turn(o, r) == AfterWrite(Look(o), r)
  {
    GoodIsShaped(o);
    LookPhase(o);
    DrivenIs(o, r);
    assert o.queue != [] ==> o.offset < |o.queue[0]|;
    hide Good; hide Driven; hide Look; hide Write; hide Note; hide Account; hide Block; hide Shaped;
    if o.queue != [] {
      var l := Driven(o, r);
      DrivePhase(l, r);
      DrivenIs(l, r);
      var w := Driven(l, r);
      if !w.phase.Closing? {
        DrivePhase(w, r);
        DrivenIs(w, r);
        var n := Driven(w, r);
        if w.phase.Taken? {
          GoodIsShaped(n);
          DrivenIs(n, r);
          NotedPhase(w, w.phase.n);
        }
      }
    }
  }

  lemma NotedPhase(o: Output, n: nat)
    ensures Note(o, n).phase == Noted(n) && Note(o, n).queue == o.queue
  {
  }

  lemma DrivenIs(o: Output, r: Result)
    requires Good(o) && o.ending == Running
    ensures o.phase.Looking? ==> Driven(o, r) == Look(o)
    ensures o.phase.Writing? ==> o.queue != [] && o.offset <= |o.queue[0]| && Driven(o, r) == Write(o, r)
    ensures o.phase.Taken? ==> o.queue != [] && Driven(o, r) == Note(o, o.phase.n)
    ensures o.phase.Noted? ==> o.queue != [] && Driven(o, r) == Account(o, o.phase.n)
    ensures o.phase.Blocked? ==> Driven(o, r) == Block(o)
  {
    GoodIsShaped(o);
    hide Good; hide Look; hide Write; hide Note; hide Account; hide Block;
  }

  lemma TearDownGood(o: Output, how: Ending)
    requires Good(o) && o.ending == Running && how != Running
    requires (how == Flushed ==> o.phase == Closing(true)) && (how.AtOnce? ==> o.closer == Closer(how.p))
    ensures Good(TearDown(o, how))
  {
    if how == Flushed {
      NothingUnsent(o);
    }
  }

  lemma RefreshKeeps(o: Output)
    ensures var r := Refresh(o); r == o.(interest := r.interest)
  {
  }

  lemma GoodIsShaped(o: Output)
    requires Good(o)
    ensures Shaped(o)
  {
  }
}
