/**
 The timer manager: callers schedule and cancel timers at any time, one worker runs them when they are due.
 Every step below is one stretch of code under the manager's lock, or one stretch outside it that touches only
 what its thread owns: a caller reads the clock and makes a timer before it takes the lock to push it.
 */
module TimerQueue {

  datatype Entry = Entry(due: int, interval: nat, repeat: bool, cancelled: bool)

  /** Where the worker is: not there, at the queue, or with a timer it has taken off. */
  datatype Phase = Off | Waiting | Taken(id: nat) | Calling(id: nat) | Requeuing(id: nat)

  /** A callback that was started: which timer, when it was due, when it started. */
  datatype Firing = Firing(id: nat, due: int, at: int)

  datatype Manager = Manager(
    entries: map<nat, Entry>, prepared: set<nat>, queue: set<nat>, active: set<nat>, nextId: nat,
    running: bool, stopping: bool, phase: Phase, now: int, log: seq<Firing>)

  const IDLE := Manager(map[], {}, {}, {}, 1, false, false, Off, 0, [])

  // ---------------------------------------------------------------- the steps

  function Max(a: int, b: int): int {
    if a < b then b else a
  }

  /** The first part of `schedule`: the timer gets its id and its due time, and nobody else sees it yet. */
  function Prepare(m: Manager, delay: int, repeat: bool): Manager {
    var e := Entry(m.now + Max(0, delay), Max(1, delay), repeat, false);
    m.(entries := m.entries[m.nextId := e], prepared := m.prepared + {m.nextId}, nextId := m.nextId + 1)
  }

  /** The second part of `schedule`, under the lock. */
  function Push(m: Manager, id: nat): Manager {
    if id !in m.prepared then m
    else m.(prepared := m.prepared - {id}, active := m.active + {id}, queue := m.queue + {id})
  }

  /** `cancelTimer`; it returns whether the timer was active. */
  function Cancel(m: Manager, id: nat): Manager {
    if id !in m.active || id !in m.entries then m
    else m.(entries := m.entries[id := m.entries[id].(cancelled := true)], active := m.active - {id})
  }

  /** What can be on top of the queue. */
  predicate OnTop(m: Manager, id: nat) {
    id in m.queue && id in m.entries && forall j :: j in m.queue && j in m.entries ==>
      m.entries[id].due <= m.entries[j].due
  }

  /** One turn of the worker at the queue. */
  function Take(m: Manager, id: nat): Manager {
    if !m.phase.Waiting? || !m.running || !OnTop(m, id) then m
    else if m.entries[id].cancelled then m.(queue := m.queue - {id})
    else if m.entries[id].due > m.now then m
    else m.(queue := m.queue - {id}, active := m.active - {id}, phase := Taken(id))
  }

  /** The tests behind the queue, and the start of the callback. */
  function Fire(m: Manager): Manager {
    if !m.phase.Taken? || m.phase.id !in m.entries then m
    else if !m.running then m.(phase := Off)
    else if m.entries[m.phase.id].cancelled then m.(phase := Waiting)
    else m.(phase := Calling(m.phase.id), log := m.log + [Firing(m.phase.id, m.entries[m.phase.id].due, m.now)])
  }

  /** The next due time of a repeating timer: in step with the last one, or counted from now if that has passed. */
  function NextDue(e: Entry, now: int): int {
    if e.due + e.interval <= now then now + e.interval else e.due + e.interval
  }

  /** The callback is over. */
  function Return(m: Manager): Manager {
    if !m.phase.Calling? || m.phase.id !in m.entries then m
    else
      var e := m.entries[m.phase.id];
      if !e.repeat || e.cancelled || !m.running then m.(phase := Waiting)
      else m.(entries := m.entries[m.phase.id := e.(due := NextDue(e, m.now))], phase := Requeuing(m.phase.id))
  }

  function Requeue(m: Manager): Manager {
    if !m.phase.Requeuing? || m.phase.id !in m.entries then m
    else if m.entries[m.phase.id].cancelled || !m.running then m.(phase := Waiting)
    else m.(active := m.active + {m.phase.id}, queue := m.queue + {m.phase.id}, phase := Waiting)
  }

  function Start(m: Manager): Manager {
    if m.running || m.stopping || !m.phase.Off? then m else m.(running := true, phase := Waiting)
  }

  function StopBegin(m: Manager): Manager {
    if m.running then m.(running := false, stopping := true) else m
  }

  /** The rest of `stop`, once the worker has ended. */
  function StopEnd(m: Manager): Manager {
    if !m.stopping || !m.phase.Off? then m
    else
      m.(entries := map id | id in m.entries :: if id in m.active then m.entries[id].(cancelled := true)
        else m.entries[id],
         queue := {}, active := {}, stopping := false)
  }

  datatype Event =
    | Starting
    | Scheduling(delay: int, repeat: bool)
    | Pushing(id: nat)
    | Cancelling(id: nat)
    | Passing(time: nat)
    | Taking(id: nat)
    | Checking
    | Returning
    | Requeueing
    | Ending
    | StopBeginning
    | StopEnding

  function Step(m: Manager, e: Event): Manager {
    match e
    case Starting => Start(m)
    case Scheduling(delay, repeat) => Prepare(m, delay, repeat)
    case Pushing(id) => Push(m, id)
    case Cancelling(id) => Cancel(m, id)
    case Passing(time) => m.(now := m.now + time)
    case Taking(id) => Take(m, id)
    case Checking => Fire(m)
    case Returning => Return(m)
    case Requeueing => Requeue(m)
    case Ending => if m.phase.Waiting? && !m.running then m.(phase := Off) else m
    case StopBeginning => StopBegin(m)
    case StopEnding => StopEnd(m)
  }

  function Run(es: seq<Event>): Manager {
    if es == [] then IDLE else Step(Run(es[..|es| - 1]), es[|es| - 1])
  }

  // ---------------------------------------------------------------- what every step keeps

  predicate InHand(m: Manager, id: nat) {
    m.phase == Taken(id) || m.phase == Calling(id) || m.phase == Requeuing(id)
  }

  /**
   The active timers are the queued ones that are not cancelled; a timer that is not pushed yet, or in the
   worker's hand, is neither queued nor cancelled.
   */
  ghost predicate Sound(m: Manager) {
    && (forall id :: id in m.queue ==> id in m.entries)
    && (forall id :: id in m.entries ==> id < m.nextId)
    && (forall id :: id in m.active <==> id in m.queue && !m.entries[id].cancelled)
    && (forall id :: id in m.prepared ==> id in m.entries && id !in m.queue && !m.entries[id].cancelled)
    && (forall id :: InHand(m, id) ==> id in m.entries && id !in m.queue && !m.entries[id].cancelled)
    && (forall id :: InHand(m, id) ==> id !in m.prepared)
    && (m.running ==> !m.phase.Off?)
  }

  lemma FreshId(m: Manager)
    requires Sound(m)
    ensures m.nextId !in m.entries
  {
  }

  lemma PrepareSound(m: Manager, delay: int, repeat: bool)
    requires Sound(m)
    ensures Sound(Prepare(m, delay, repeat))
  {
  }

  lemma TakeSound(m: Manager, id: nat)
    requires Sound(m)
    ensures Sound(Take(m, id))
  {
  }

  lemma ReturnSound(m: Manager)
    requires Sound(m)
    ensures Sound(Return(m))
  {
  }

  lemma StopSound(m: Manager)
    requires Sound(m)
    ensures Sound(StopEnd(m))
  {
  }

  lemma PushSound(m: Manager, id: nat)
    requires Sound(m)
    ensures Sound(Push(m, id)) && Sound(Cancel(m, id))
  {
  }

  lemma FireSound(m: Manager)
    requires Sound(m)
    ensures Sound(Fire(m)) && Sound(Requeue(m))
  {
  }

  lemma TurnSound(m: Manager, time: nat)
    requires Sound(m)
    ensures Sound(Step(m, Passing(time))) && Sound(Step(m, Starting)) && Sound(Step(m, Ending))
    ensures Sound(Step(m, StopBeginning))
  {
  }

  lemma StepSound(m: Manager, e: Event)
    requires Sound(m)
    ensures Sound(Step(m, e))
  {
    hide Sound; hide Prepare; hide Push; hide Cancel; hide Take; hide Fire; hide Return; hide Requeue; hide StopEnd;
    match e
    case Scheduling(delay, repeat) => PrepareSound(m, delay, repeat);
    case Pushing(id) => PushSound(m, id);
    case Cancelling(id) => PushSound(m, id);
    case Taking(id) => TakeSound(m, id);
    case Checking => FireSound(m);
    case Returning => ReturnSound(m);
    case Requeueing => FireSound(m);
    case StopEnding => StopSound(m);
    case Passing(time) => TurnSound(m, time);
    case _ => TurnSound(m, 0);
  }

  /** Over every run the active timers are exactly the queued timers that are not cancelled. */
  lemma {:induction false} AlwaysSound(es: seq<Event>)
    ensures Sound(Run(es))
  {
    hide Step; hide Sound;
    if es == [] {
      IdleSound();
    } else {
      AlwaysSound(es[..|es| - 1]);
      StepSound(Run(es[..|es| - 1]), es[|es| - 1]);
    }
  }

  lemma IdleSound()
    ensures Sound(IDLE)
  {
  }

  // ---------------------------------------------------------------- when a timer fires

  /** A timer is taken off when it is due, and when no live timer is due before it. */
  lemma TakesLeastFirst(es: seq<Event>, id: nat)
    requires !Run(es).phase.Taken? && Step(Run(es), Taking(id)).phase.Taken?
    ensures var m := Run(es);
      && Step(m, Taking(id)).phase == Taken(id) && id in m.active && id in m.entries && m.entries[id].due <= m.now
      && (forall j :: j in m.active ==> j in m.entries && m.entries[id].due <= m.entries[j].due)
  {
    AlwaysSound(es);
  }

  predicate TakenWhenDue(m: Manager) {
    m.phase.Taken? && m.phase.id in m.entries ==> m.entries[m.phase.id].due <= m.now
  }

  lemma {:induction false} AlwaysWhenDue(es: seq<Event>)
    ensures TakenWhenDue(Run(es))
  {
    if es != [] {
      AlwaysWhenDue(es[..|es| - 1]);
      AlwaysSound(es[..|es| - 1]);
    }
  }

  /** Whenever a callback starts, its timer is due. */
  lemma FiresWhenDue(es: seq<Event>, e: Event)
    requires Step(Run(es), e).log != Run(es).log
    ensures var m, f := Run(es), Step(Run(es), e).log;
      && e == Checking && m.phase.Taken? && m.running
      && |f| == |m.log| + 1 && f[..|m.log|] == m.log && f[|m.log|].id == m.phase.id
      && f[|m.log|].due <= f[|m.log|].at == m.now
  {
    AlwaysSound(es);
    AlwaysWhenDue(es);
  }

  /** While the worker holds a timer that it has not started, no due time changes. */
  lemma DuesKept(m: Manager, e: Event, id: nat)
    requires Sound(m) && m.phase.Taken? && id in m.entries
    ensures id in Step(m, e).entries && Step(m, e).entries[id].due == m.entries[id].due
  {
  }

  /** Who becomes live meanwhile was pushed. */
  lemma NewlyActive(m: Manager, e: Event, id: nat)
    requires Sound(m) && m.phase.Taken? && id in Step(m, e).active && id !in m.active
    ensures e == Pushing(id) && id in m.prepared
  {
  }

  /** The moment at which the timer in the worker's hand was taken. */
  lemma {:induction false} TakenAt(es: seq<Event>) returns (i: nat)
    requires Run(es).phase.Taken?
    ensures i < |es| && es[i] == Taking(Run(es).phase.id) && !Run(es[..i]).phase.Taken?
    ensures forall k :: i < k <= |es| ==> Run(es[..k]).phase == Run(es).phase
  {
    var last := |es| - 1;
    assert es[..|es|] == es;
    AlwaysSound(es[..last]);
    PhaseStep(Run(es[..last]), es[last]);
    hide Step; hide Sound;
    if Run(es[..last]).phase.Taken? {
      i := TakenAt(es[..last]);
      forall k | i < k <= last ensures Run(es[..k]).phase == Run(es).phase {
        assert es[..last][..k] == es[..k];
      }
      assert es[..last][..i] == es[..i];
    } else {
      i := last;
    }
  }

  lemma PhaseStep(m: Manager, e: Event)
    requires Step(m, e).phase.Taken?
    ensures if m.phase.Taken? then Step(m, e).phase == m.phase else e == Taking(Step(m, e).phase.id)
  {
  }

  /** A push that pushed something. */
  predicate Pushed(es: seq<Event>, k: nat, id: nat) {
    k < |es| && es[k] == Pushing(id) && id in Run(es[..k]).prepared
  }

  /** What is live while the worker holds a timer: what was live when it was taken, and what was pushed since. */
  lemma {:induction false} LiveSince(es: seq<Event>, i: nat, j: nat, id: nat)
    requires i < j <= |es| && (forall k :: i < k <= j ==> Run(es[..k]).phase.Taken?)
    requires id in Run(es[..j]).active
    ensures id in Run(es[..i + 1]).active || exists k :: i < k < j && Pushed(es, k, id)
  {
    if j > i + 1 && id !in Run(es[..i + 1]).active {
      var m := Run(es[..j - 1]);
      AlwaysSound(es[..j - 1]);
      assert es[..j][..j - 1] == es[..j - 1];
      if id in m.active {
        LiveSince(es, i, j - 1, id);
      } else {
        NewlyActive(m, es[j - 1], id);
        assert Pushed(es, j - 1, id);
      }
    }
  }

  lemma {:induction false} DueSince(es: seq<Event>, i: nat, j: nat, id: nat)
    requires i < j <= |es| && (forall k :: i < k <= j ==> Run(es[..k]).phase.Taken?)
    requires id in Run(es[..i + 1]).entries
    ensures id in Run(es[..j]).entries && Run(es[..j]).entries[id].due == Run(es[..i + 1]).entries[id].due
  {
    if j > i + 1 {
      DueSince(es, i, j - 1, id);
      AlwaysSound(es[..j - 1]);
      assert es[..j][..j - 1] == es[..j - 1];
      hide Step;
      DuesKept(Run(es[..j - 1]), es[j - 1], id);
    }
  }

  predicate LeastOfLive(m: Manager, id: nat) {
    id in m.entries && forall j :: j in m.active && j in m.entries ==> m.entries[id].due <= m.entries[j].due
  }

  /** No live timer that was pushed since moment `i` is due before `due`. */
  predicate NoEarlierPush(es: seq<Event>, i: nat, due: int) {
    forall k, id :: i < k < |es| && Pushed(es, k, id) && id in Run(es).active && id in Run(es[..k]).entries ==>
      due <= Run(es[..k]).entries[id].due
  }

  /**
   When the callback of a taken timer is about to start, no live timer is due before it if and only if none
   was pushed since the take that is due before it and still live.
   */
  lemma StartsLeastFirst(es: seq<Event>) returns (i: nat)
    requires Run(es).phase.Taken?
    ensures i < |es| && es[i] == Taking(Run(es).phase.id) && !Run(es[..i]).phase.Taken?
    ensures forall k :: i < k <= |es| ==> Run(es[..k]).phase == Run(es).phase
    ensures Run(es).phase.id in Run(es).entries
    ensures LeastOfLive(Run(es), Run(es).phase.id) <==> NoEarlierPush(es, i, Run(es).entries[Run(es).phase.id].due)
  {
    i := TakenAt(es);
    AlwaysSound(es);
    var m, id := Run(es), Run(es).phase.id;
    assert InHand(m, id) && es[..|es|] == es && es[..i + 1][..i] == es[..i];
    AlwaysSound(es[..i]);
    TakesLeastFirst(es[..i], id);
    var taken := Run(es[..i + 1]);
    assert taken == Step(Run(es[..i]), es[i]);
    hide Step; hide Sound; hide Run;
    DueSince(es, i, |es|, id);
    forall j | j in m.active && j in m.entries
      ensures (exists k :: i < k < |es| && Pushed(es, k, j)) || m.entries[id].due <= m.entries[j].due
    {
      LiveSince(es, i, |es|, j);
      if j in taken.active {
        DueSince(es, i, |es|, j);
      }
    }
    forall k, j | i < k < |es| && Pushed(es, k, j)
      ensures j in Run(es[..k]).entries && j in m.entries && m.entries[j].due == Run(es[..k]).entries[j].due
    {
      PushedKnown(es, k, j);
      DueSince(es, k - 1, |es|, j);
    }
  }

  lemma PushedKnown(es: seq<Event>, k: nat, id: nat)
    requires Pushed(es, k, id)
    ensures id in Run(es[..k]).entries
  {
    AlwaysSound(es[..k]);
  }

  /** A timer that was not there yet at a moment is not due before that moment. */
  lemma {:induction false} NewerDue(es: seq<Event>, i: nat, j: nat, id: nat)
    requires i <= j <= |es| && id in Run(es[..j]).entries && id !in Run(es[..i]).entries
    ensures Run(es[..i]).now <= Run(es[..j]).now && Run(es[..i]).now <= Run(es[..j]).entries[id].due
  {
    if i < j {
      var m := Run(es[..j - 1]);
      assert es[..j][..j - 1] == es[..j - 1];
      TimePasses(es, i, j - 1);
      AlwaysSound(es[..j - 1]);
      StepNewer(m, es[j - 1], id);
      hide Step; hide Sound;
      if id in m.entries {
        NewerDue(es, i, j - 1, id);
      }
    }
  }

  lemma StepNewer(m: Manager, e: Event, id: nat)
    requires Sound(m) && id in Step(m, e).entries
    ensures m.now <= Step(m, e).now && Step(m, e).entries[id].due >= if id in m.entries then m.entries[id].due
      else m.now
  {
  }

  lemma {:induction false} TimePasses(es: seq<Event>, i: nat, j: nat)
    requires i <= j <= |es|
    ensures Run(es[..i]).now <= Run(es[..j]).now
  {
    if i < j {
      TimePasses(es, i, j - 1);
      assert es[..j][..j - 1] == es[..j - 1];
    }
  }

  /** So it is enough that at the moment of the take no caller was between reading the clock and pushing. */
  lemma StartsLeastIfNonePrepared(es: seq<Event>) returns (i: nat)
    requires Run(es).phase.Taken?
    ensures i < |es| && es[i] == Taking(Run(es).phase.id)
    ensures Run(es[..i]).prepared == {} ==> LeastOfLive(Run(es), Run(es).phase.id)
  {
    i := StartsLeastFirst(es);
    var m, id := Run(es), Run(es).phase.id;
    if Run(es[..i]).prepared == {} {
      assert es[..|es|] == es && es[..i + 1][..i] == es[..i];
      AlwaysSound(es[..i]);
      TakenNow(es, i);
      hide Step; hide Sound; hide Run;
      forall k, j | i < k < |es| && Pushed(es, k, j) && j in m.active && j in Run(es[..k]).entries
        ensures m.entries[id].due <= Run(es[..k]).entries[j].due
      {
        if j in Run(es[..i]).entries {
          PreparedBefore(es, i, k, j);
        } else {
          NewerDue(es, i, k, j);
        }
      }
    }
  }

  /** What was there at a moment and is not pushed later was prepared at that moment. */
  lemma {:induction false} PreparedBefore(es: seq<Event>, i: nat, k: nat, id: nat)
    requires i <= k <= |es| && id in Run(es[..k]).prepared && id in Run(es[..i]).entries
    ensures id in Run(es[..i]).prepared
  {
    if i < k {
      hide Run; hide Step; hide Sound;
      AlwaysSound(es[..k - 1]);
      RunStep(es, k - 1);
      StillThere(es, i, k - 1, id);
      PreparedStep(Run(es[..k - 1]), es[k - 1], id);
      PreparedBefore(es, i, k - 1, id);
    }
  }

  lemma RunStep(es: seq<Event>, k: nat)
    requires k < |es|
    ensures Run(es[..k + 1]) == Step(Run(es[..k]), es[k])
  {
    hide Step;
    assert es[..k + 1][..k] == es[..k];
  }

  lemma PreparedStep(m: Manager, e: Event, id: nat)
    requires Sound(m) && id in m.entries && id in Step(m, e).prepared
    ensures id in m.prepared
  {
    if e.Scheduling? {
      FreshId(m);
    }
    hide Sound; hide OnTop;
  }

  lemma {:induction false} StillThere(es: seq<Event>, i: nat, k: nat, id: nat)
    requires i <= k <= |es| && id in Run(es[..i]).entries
    ensures id in Run(es[..k]).entries
  {
    if i < k {
      StillThere(es, i, k - 1, id);
      assert es[..k][..k - 1] == es[..k - 1];
    }
  }

  lemma TakenNow(es: seq<Event>, i: nat)
    requires i < |es| && Run(es).phase.Taken? && es[i] == Taking(Run(es).phase.id)
    requires forall k :: i < k <= |es| ==> Run(es[..k]).phase == Run(es).phase
    requires !Run(es[..i]).phase.Taken?
    ensures var id := Run(es).phase.id;
      id in Run(es).entries && Run(es).entries[id].due <= Run(es[..i]).now
  {
    var id := Run(es).phase.id;
    assert es[..|es|] == es && es[..i + 1][..i] == es[..i];
    TakesLeastFirst(es[..i], id);
    assert Run(es[..i + 1]) == Step(Run(es[..i]), es[i]);
    assert Run(es[..i + 1]).entries == Run(es[..i]).entries;
    hide Step; hide Run;
    DueSince(es, i, |es|, id);
  }

  /**
   Otherwise it does happen: timer 1 starts although timer 2, made by a caller that was slow to push it, is
   live and was due before.
   */
  lemma StartsOutOfOrder() returns (es: seq<Event>)
    ensures var m := Run(es);
      && m.phase == Calling(1) && m.log == [Firing(1, 10, 10)]
      && 2 in m.active && 2 in m.entries && m.entries[2].due == 0
  {
    es := [];
    assert Run(es) == IDLE;
    es := Then(es, Starting);
    es := Then(es, Scheduling(10, false));
    es := Then(es, Pushing(1));
    es := Then(es, Scheduling(0, false));
    es := Then(es, Passing(10));
    hide Run;
    var m := Run(es);
    assert m.queue == {1} && m.active == {1} && m.prepared == {2} && m.now == 10 && m.phase == Waiting &&
      m.running && m.log == [];
    assert m.entries == map[1 := Entry(10, 10, false, false), 2 := Entry(0, 1, false, false)];
    assert OnTop(m, 1);
    es := Then(es, Taking(1));
    es := Then(es, Pushing(2));
    es := Then(es, Checking);
  }

  // ---------------------------------------------------------------- cancelling

  predicate Cancelled(m: Manager, id: nat) {
    id in m.entries && m.entries[id].cancelled
  }

  /** A cancelled timer stays cancelled and is not started. */
  lemma CancelledStep(m: Manager, e: Event, id: nat)
    requires Sound(m) && Cancelled(m, id)
    ensures var r := Step(m, e);
      Cancelled(r, id) && m.log <= r.log && forall k :: |m.log| <= k < |r.log| ==> r.log[k].id != id
  {
  }

  /** A timer whose cancellation succeeded never starts again. */
  lemma {:induction false} CancelledNeverStarts(es: seq<Event>, i: nat, id: nat)
    requires i < |es| && es[i] == Cancelling(id) && id in Run(es[..i]).active
    ensures Cancelled(Run(es), id) && Run(es[..i]).log <= Run(es).log
    ensures forall k :: |Run(es[..i]).log| <= k < |Run(es).log| ==> Run(es).log[k].id != id
  {
    hide Step; hide Sound;
    var last := |es| - 1;
    AlwaysSound(es[..last]);
    if i == last {
      CancelTakes(Run(es[..i]), id);
    } else {
      assert es[..last][..i] == es[..i];
      CancelledNeverStarts(es[..last], i, id);
      CancelledStep(Run(es[..last]), es[last], id);
    }
  }

  lemma CancelTakes(m: Manager, id: nat)
    requires Sound(m) && id in m.active
    ensures var r := Step(m, Cancelling(id)); Cancelled(r, id) && r.log == m.log
  {
  }

  lemma Then(es: seq<Event>, e: Event) returns (more: seq<Event>)
    ensures more == es + [e] && Run(more) == Step(Run(es), e)
  {
    hide Step;
    more := es + [e];
    assert more[..|es|] == es;
  }

  /** While a timer is in the worker's hand it is not active, so that cancelling it fails and changes nothing. */
  lemma CancelMissesCalling(es: seq<Event>, id: nat)
    requires InHand(Run(es), id)
    ensures id !in Run(es).active && Step(Run(es), Cancelling(id)) == Run(es)
  {
    AlwaysSound(es);
  }

  /**
   A repeating timer that is cancelled during its own callback therefore goes on: the call returns false, and
   once the callback is over the timer is queued again, live, and due at its next time.
   */
  lemma LivesOnAfterMissedCancel(es: seq<Event>, id: nat)
    requires var m := Run(es); m.phase == Calling(id) && m.running && id in m.entries && m.entries[id].repeat
    ensures var m, r := Run(es), Run(es + [Cancelling(id), Returning, Requeueing]);
      && id !in m.active && id in r.queue && id in r.active && id in r.entries && r.phase.Waiting? && r.running
      && r.entries[id] == m.entries[id].(due := NextDue(m.entries[id], m.now)) && !r.entries[id].cancelled
      && r.queue == m.queue + {id} && r.log == m.log && r.now == m.now
  {
    AlwaysSound(es);
    var more := Then(es, Cancelling(id));
    more := Then(more, Returning);
    more := Then(more, Requeueing);
    assert more == es + [Cancelling(id), Returning, Requeueing];
    assert InHand(Run(es), id);
    hide Run;
  }

  /** With nothing else queued it then fires again in its time. */
  lemma FiresAfterMissedCancel(es: seq<Event>, id: nat) returns (more: seq<Event>)
    requires var m := Run(es);
      m.phase == Calling(id) && m.running && id in m.entries && m.entries[id].repeat && m.queue == {}
    ensures |more| > |es| && more[..|es|] == es && more[|es|] == Cancelling(id)
    ensures |Run(more).log| == |Run(es).log| + 1 && Run(more).log[|Run(es).log|].id == id
  {
    LivesOnAfterMissedCancel(es, id);
    var m := Run(es);
    more := es + [Cancelling(id), Returning, Requeueing];
    var next := Run(more).entries[id].due;
    hide Run;
    more := Then(more, Passing(Max(0, next - m.now)));
    assert OnTop(Run(more), id) && Run(more).phase.Waiting? && Run(more).running;
    more := Then(more, Taking(id));
    assert Run(more).phase == Taken(id) && Run(more).log == m.log;
    more := Then(more, Checking);
  }

  /** A run in which that happens: timer 1 is cancelled in its first callback and starts a second time. */
  lemma CancelledAndFiredAgain() returns (es: seq<Event>)
    ensures Cancelling(1) in es && |Run(es).log| == 2 && Run(es).log[0].id == 1 && Run(es).log[1].id == 1
  {
    var called := [];
    assert Run(called) == IDLE;
    called := Then(called, Starting);
    called := Then(called, Scheduling(5, true));
    called := Then(called, Pushing(1));
    called := Then(called, Passing(5));
    hide Run;
    var m := Run(called);
    assert m.queue == {1} && m.active == {1} && m.now == 5 && m.phase == Waiting && m.running && m.log == [];
    assert m.entries == map[1 := Entry(5, 5, true, false)] && OnTop(m, 1);
    called := Then(called, Taking(1));
    called := Then(called, Checking);
    assert Run(called).queue == {} && Run(called).log == [Firing(1, 5, 5)];
    es := FiresAfterMissedCancel(called, 1);
    assert es[|called|] in es;
    LogGrows(es, |called|);
  }

  lemma {:induction false} LogGrows(es: seq<Event>, i: nat)
    requires i <= |es|
    ensures Run(es[..i]).log <= Run(es).log
  {
    if i < |es| {
      LogGrows(es[..|es| - 1], i);
      assert es[..|es| - 1][..i] == es[..i];
    } else {
      assert es[..i] == es;
    }
  }

  // ---------------------------------------------------------------- repeating

  /** The timer is on its way to the next callback. */
  predicate Awaited(m: Manager, id: nat) {
    id in m.queue || m.phase == Taken(id) || m.phase == Requeuing(id)
  }

  /** The firings of a timer so far, and the time it is due next, are an interval apart. */
  predicate Spaced(m: Manager) {
    && (forall k :: 0 <= k < |m.log| ==> m.log[k].id in m.entries && m.log[k].id !in m.prepared)
    && (forall j, k :: 0 <= j < k < |m.log| && m.log[j].id == m.log[k].id ==>
        m.log[k].due >= m.log[j].due + m.entries[m.log[k].id].interval)
    && (forall k :: 0 <= k < |m.log| && Awaited(m, m.log[k].id) ==>
        m.entries[m.log[k].id].due >= m.log[k].due + m.entries[m.log[k].id].interval)
    && (m.phase.Calling? ==> m.phase.id in m.entries && forall k :: 0 <= k < |m.log| && m.log[k].id == m.phase.id ==>
        m.entries[m.phase.id].due >= m.log[k].due)
  }

  lemma PrepareSpaced(m: Manager, delay: int, repeat: bool)
    requires Sound(m) && Spaced(m)
    ensures Spaced(Prepare(m, delay, repeat))
  {
  }

  lemma PushSpaced(m: Manager, id: nat)
    requires Sound(m) && Spaced(m)
    ensures Spaced(Push(m, id))
  {
  }

  lemma CancelSpaced(m: Manager, id: nat)
    requires Sound(m) && Spaced(m)
    ensures Spaced(Cancel(m, id))
  {
  }

  lemma TakeSpaced(m: Manager, id: nat)
    requires Sound(m) && Spaced(m)
    ensures Spaced(Take(m, id))
  {
  }

  lemma FireSpaced(m: Manager)
    requires Sound(m) && Spaced(m)
    ensures Spaced(Fire(m))
  {
  }

  lemma ReturnSpaced(m: Manager)
    requires Sound(m) && Spaced(m)
    ensures Spaced(Return(m))
  {
  }

  lemma RequeueSpaced(m: Manager)
    requires Sound(m) && Spaced(m)
    ensures Spaced(Requeue(m))
  {
  }

  lemma StopSpaced(m: Manager)
    requires Sound(m) && Spaced(m)
    ensures Spaced(StopEnd(m))
  {
  }

  lemma StepSpaced(m: Manager, e: Event)
    requires Sound(m) && Spaced(m)
    ensures Spaced(Step(m, e))
  {
    match e
    case Scheduling(delay, repeat) => PrepareSpaced(m, delay, repeat);
    case Pushing(id) => PushSpaced(m, id);
    case Cancelling(id) => CancelSpaced(m, id);
    case Taking(id) => TakeSpaced(m, id);
    case Checking => FireSpaced(m);
    case Returning => ReturnSpaced(m);
    case Requeueing => RequeueSpaced(m);
    case StopEnding => StopSpaced(m);
    case _ => hide Sound;
  }

  lemma IdleSpaced()
    ensures Spaced(IDLE)
  {
  }

  lemma {:induction false} AlwaysSpaced(es: seq<Event>)
    ensures Spaced(Run(es))
  {
    hide Step; hide Spaced; hide Sound;
    if es == [] {
      IdleSpaced();
    } else {
      AlwaysSpaced(es[..|es| - 1]);
      AlwaysSound(es[..|es| - 1]);
      StepSpaced(Run(es[..|es| - 1]), es[|es| - 1]);
    }
  }

  /** Two due times at which the same timer fired are at least its interval apart. */
  lemma IntervalsApart(es: seq<Event>, j: nat, k: nat)
    requires j < k < |Run(es).log| && Run(es).log[j].id == Run(es).log[k].id
    ensures var m := Run(es); m.log[k].id in m.entries && m.log[k].due >= m.log[j].due + m.entries[m.log[k].id].interval
  {
    AlwaysSpaced(es);
    hide Run;
  }

  // ---------------------------------------------------------------- not too early, and once

  /** The due time of a timer only grows, and it fires at none before. */
  lemma StepDue(m: Manager, e: Event, id: nat, bound: int)
    requires Sound(m) && id in m.entries && m.entries[id].due >= bound
    ensures var r := Step(m, e);
      && id in r.entries && r.entries[id].due >= bound && m.log <= r.log
      && forall k :: |m.log| <= k < |r.log| && r.log[k].id == id ==> r.log[k].due >= bound
  {
    if e.Scheduling? {
      assert id != m.nextId;
    }
  }

  /** A timer never fires before its delay has passed since it was scheduled. */
  lemma {:induction false} NotBeforeDelay(es: seq<Event>, i: nat)
    requires i < |es| && es[i].Scheduling?
    ensures var m, r := Run(es[..i]), Run(es);
      && m.nextId in r.entries && r.entries[m.nextId].due >= m.now + Max(0, es[i].delay) && m.log <= r.log
      && forall k :: |m.log| <= k < |r.log| && r.log[k].id == m.nextId ==> r.log[k].due >= m.now + Max(0, es[i].delay)
  {
    hide Sound; hide Step;
    var last := |es| - 1;
    var m := Run(es[..i]);
    if i == last {
      PreparedDue(m, es[i].delay, es[i].repeat);
    } else {
      assert es[..last][..i] == es[..i];
      NotBeforeDelay(es[..last], i);
      AlwaysSound(es[..last]);
      StepDue(Run(es[..last]), es[last], m.nextId, m.now + Max(0, es[i].delay));
    }
  }

  lemma PreparedDue(m: Manager, delay: int, repeat: bool)
    ensures var r := Step(m, Scheduling(delay, repeat));
      m.nextId in r.entries && r.entries[m.nextId].due == m.now + Max(0, delay) && r.log == m.log
  {
  }

  /** A timer that does not repeat is spent once it has fired. */
  predicate Spent(m: Manager) {
    && (forall k :: 0 <= k < |m.log| ==> m.log[k].id in m.entries && m.log[k].id !in m.prepared)
    && (forall k :: 0 <= k < |m.log| && !m.entries[m.log[k].id].repeat ==>
        !Awaited(m, m.log[k].id))
    && (forall j, k :: 0 <= j < k < |m.log| && m.log[j].id == m.log[k].id ==> m.entries[m.log[j].id].repeat)
  }

  lemma FireSpent(m: Manager)
    requires Sound(m) && Spent(m)
    ensures Spent(Fire(m))
  {
  }

  lemma StepSpent(m: Manager, e: Event)
    requires Sound(m) && Spent(m)
    ensures Spent(Step(m, e))
  {
    hide Fire;
    if e.Checking? {
      FireSpent(m);
    } else if e.Scheduling? {
      assert forall k :: 0 <= k < |m.log| ==> m.log[k].id != m.nextId;
    }
  }

  lemma {:induction false} AlwaysSpent(es: seq<Event>)
    ensures Spent(Run(es))
  {
    hide Step; hide Spent; hide Sound;
    if es == [] {
      assert Spent(IDLE) by { IdleSpent(); }
    } else {
      AlwaysSpent(es[..|es| - 1]);
      AlwaysSound(es[..|es| - 1]);
      StepSpent(Run(es[..|es| - 1]), es[|es| - 1]);
    }
  }

  lemma IdleSpent()
    ensures Spent(IDLE)
  {
  }

  /** A timer fires twice only if it repeats. */
  lemma OneShotFiresOnce(es: seq<Event>, j: nat, k: nat)
    requires j < k < |Run(es).log| && Run(es).log[j].id == Run(es).log[k].id
    ensures var m := Run(es); m.log[j].id in m.entries && m.entries[m.log[j].id].repeat
  {
    AlwaysSpent(es);
    hide Run;
  }

  // ---------------------------------------------------------------- the manager as an object

  /** What a turn at the queue did: threw a cancelled timer away, found nothing due, or took one. */
  datatype Choice = Dropped | NotDue | Timer(id: nat)

  /** `rest` stands for what the manager does not store: where the worker is, what the time is, what was started. */
  class TimerManager {
    var entries: map<nat, Entry>
    var queue: set<nat>
    var active: set<nat>
    var nextId: nat
    var running: bool
    ghost var rest: Manager

    ghost function State(): Manager
      reads this
    {
      Manager(entries, rest.prepared, queue, active, nextId, running, rest.stopping, rest.phase, rest.now, rest.log)
    }

    ghost predicate Valid()
      reads this
    {
      Sound(State())
    }

    constructor ()
      ensures Valid() && State() == IDLE
    {
      entries, queue, active, nextId, running, rest := map[], {}, {}, 1, false, IDLE;
    }

    /** The part of `schedule` before the lock; `now` is read here. */
    method PrepareTimer(now: int, delay: int, repeat: bool) returns (id: nat)
      requires Valid() && now == rest.now
      modifies this
      ensures Valid() && State() == Prepare(old(State()), delay, repeat)
      ensures id == old(nextId) && id !in old(entries) && id in rest.prepared && queue == old(queue) &&
        active == old(active)
    {
      hide Sound; hide Max;
      PrepareSound(State(), delay, repeat);
      FreshId(State());
      id := nextId;
      nextId := nextId + 1;
      entries := entries[id := Entry(now + Max(0, delay), Max(1, delay), repeat, false)];
      rest := rest.(prepared := rest.prepared + {id});
    }

    /** The part of `schedule` under the lock, whatever happened since the timer was prepared. */
    method PushTimer(id: nat)
      requires Valid() && id in rest.prepared
      modifies this`queue, this`active, this`rest
      ensures Valid() && State() == Push(old(State()), id)
      ensures id in active && id !in old(active)
    {
      StepSound(State(), Pushing(id));
      assert id !in active;
      hide Sound;
      active := active + {id};
      queue := queue + {id};
      rest := rest.(prepared := rest.prepared - {id});
    }

    method CancelTimer(id: nat) returns (cancelled: bool)
      requires Valid()
      modifies this
      ensures Valid() && State() == Cancel(old(State()), id)
      ensures cancelled == (id in old(active)) && id !in active
    {
      StepSound(State(), Cancelling(id));
      assert id in active ==> id in entries;
      hide Sound;
      if id !in active {
        return false;
      }
      entries := entries[id := entries[id].(cancelled := true)];
      active := active - {id};
      return true;
    }

    /** The top of the queue. */
    method Top() returns (top: nat)
      requires Valid() && queue != {}
      ensures OnTop(State(), top)
    {
      top :| top in queue;
      var others := queue - {top};
      while others != {}
        invariant others <= queue && top in queue
        invariant forall id :: id in queue && id !in others ==> entries[top].due <= entries[id].due
        decreases |others|
      {
        var id :| id in others;
        if entries[id].due < entries[top].due {
          top := id;
        }
        others := others - {id};
      }
    }

    /** One turn of the worker at the queue: the top is thrown away if it is cancelled, taken if it is due. */
    method TakeTop(now: int) returns (choice: Choice)
      requires Valid() && running && rest.phase.Waiting? && now == rest.now && queue != {}
      modifies this`queue, this`active, this`rest
      ensures Valid() && exists id :: OnTop(old(State()), id) && State() == Take(old(State()), id)
      ensures choice.Timer? ==>
        && rest.phase == Taken(choice.id) && choice.id in old(active) && active == old(active) - {choice.id}
        && choice.id in entries && entries[choice.id].due <= now && LeastOfLive(State(), choice.id)
      ensures !choice.Timer? ==> active == old(active) && rest == old(rest)
      ensures if choice.NotDue? then queue == old(queue) else queue < old(queue)
      ensures choice.NotDue? ==> forall id :: id in active ==> id in entries && entries[id].due > now
    {
      var top := Top();
      ghost var before := State();
      StepSound(before, Taking(top));
      SoundTop(before, top);
      hide Sound; hide OnTop;
      choice := NotDue;
      if entries[top].cancelled {
        queue := queue - {top};
        choice := Dropped;
      } else if entries[top].due <= now {
        queue := queue - {top};
        active := active - {top};
        rest := rest.(phase := Taken(top));
        choice := Timer(top);
      }
      assert State() == Take(before, top);
    }

    /**
     The worker at the queue at one moment: cancelled timers are thrown away, then the first live one is
     taken if it is due. Nothing is taken exactly when no live timer is due.
     */
    method TakeDue(now: int) returns (choice: Choice)
      requires Valid() && running && rest.phase.Waiting? && now == rest.now
      modifies this`queue, this`active, this`rest
      ensures Valid() && !choice.Dropped?
      ensures choice.NotDue? ==> active == old(active) && rest == old(rest)
      ensures choice.NotDue? ==> forall id :: id in active ==> id in entries && entries[id].due > now
      ensures choice.Timer? ==>
        && rest.phase == Taken(choice.id) && choice.id in old(active) && active == old(active) - {choice.id}
        && choice.id in entries && entries[choice.id].due <= now && LeastOfLive(State(), choice.id)
    {
      while queue != {}
        invariant Valid() && active == old(active) && rest == old(rest)
        decreases |queue|
      {
        ghost var before := State();
        hide Sound; hide OnTop; hide Take;
        choice := TakeTop(now);
        if !choice.Dropped? {
          return;
        }
        Shrinks(queue, before.queue);
      }
      return NotDue;
    }

    /** Returns whether the callback is to be called. */
    method Check() returns (call: bool)
      requires Valid() && rest.phase.Taken?
      modifies this`rest
      ensures Valid() && State() == Fire(old(State())) && call == running
    {
      StepSound(State(), Checking);
      assert rest.phase.id in entries && !entries[rest.phase.id].cancelled by { assert InHand(State(), rest.phase.id); }
      hide Sound;
      call := running;
      rest := if call then rest.(phase := Calling(rest.phase.id),
        log := rest.log + [Firing(rest.phase.id, entries[rest.phase.id].due, rest.now)])
        else rest.(phase := Off);
    }

    /** After the callback of a timer; returns whether it is put back. */
    method Finish(id: nat, now: int) returns (again: bool)
      requires Valid() && rest.phase == Calling(id) && now == rest.now && id in entries
      modifies this`entries, this`rest
      ensures Valid() && State() == Return(old(State())) && again == rest.phase.Requeuing?
    {
      StepSound(State(), Returning);
      hide Sound;
      var e := entries[id];
      if !e.repeat || e.cancelled || !running {
        rest := rest.(phase := Waiting);
        return false;
      }
      var next := e.due + e.interval;
      if next <= now {
        next := now + e.interval;
      }
      entries := entries[id := e.(due := next)];
      rest := rest.(phase := Requeuing(id));
      return true;
    }

    method PutBack(id: nat)
      requires Valid() && rest.phase == Requeuing(id) && id in entries
      modifies this`queue, this`active, this`rest
      ensures Valid() && State() == Requeue(old(State()))
    {
      StepSound(State(), Requeueing);
      hide Sound;
      if !entries[id].cancelled && running {
        active := active + {id};
        queue := queue + {id};
      }
      rest := rest.(phase := Waiting);
    }

    /** The rest of `stop`: what was active is cancelled for good. */
    method Clear()
      requires Valid() && rest.stopping && rest.phase.Off?
      modifies this
      ensures Valid() && State() == StopEnd(old(State()))
    {
      StepSound(State(), StopEnding);
      hide Sound;
      entries := map id | id in entries :: if id in active then entries[id].(cancelled := true) else entries[id];
      queue, active := {}, {};
      rest := rest.(stopping := false);
    }
  }

  lemma SoundTop(m: Manager, id: nat)
    requires Sound(m) && OnTop(m, id)
    ensures !m.entries[id].cancelled ==> id in m.active
    ensures m.entries[id].cancelled ==> id !in m.active
    ensures forall j :: j in m.active ==> j in m.entries && m.entries[id].due <= m.entries[j].due
  {
  }

  lemma Shrinks(a: set<nat>, b: set<nat>)
    requires a < b
    ensures |a| < |b|
  {
    var x :| x in b && x !in a;
    assert a <= b - {x};
    Fewer(a, b - {x});
  }

  lemma {:induction false} Fewer(a: set<nat>, b: set<nat>)
    requires a <= b
    ensures |a| <= |b|
    decreases a
  {
    if a != {} {
      var x :| x in a;
      Fewer(a - {x}, b - {x});
    }
  }
}
