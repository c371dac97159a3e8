/**
 A `Timer` runs its callback on the I/O service. Every start makes a fresh token; a stop clears it; a posted
 task looks at its own token before it calls.
 */
module TimerToken {

  datatype Token = Token(live: bool, repeat: bool)

  datatype Stage = Posted | Checked | Begun | Dropped

  datatype Task = Task(token: nat, stage: Stage)

  /** All tokens ever made, of which the timer holds the last one, and all tasks ever posted. */
  datatype Timer = Timer(tokens: seq<Token>, tasks: seq<Task>)

  const NEW := Timer([], [])

  /** A stop clears the token of the last start. */
  function Stop(t: Timer): Timer {
    if t.tokens == [] then t
    else t.(tokens := t.tokens[|t.tokens| - 1 := t.tokens[|t.tokens| - 1].(live := false)])
  }

  /** `start` stops first. */
  function Start(t: Timer, repeat: bool): Timer {
    var s := Stop(t);
    s.(tokens := s.tokens + [Token(true, repeat)])
  }

  /** The timer manager fires the timer of a start: a task is posted if its token is still set. */
  function Fire(t: Timer, token: nat): Timer {
    if token < |t.tokens| && t.tokens[token].live then t.(tasks := t.tasks + [Task(token, Posted)]) else t
  }

  /** A task looks at its token; a task of a one-shot timer clears it by the same operation. */
  function Check(t: Timer, k: nat): Timer {
    if k >= |t.tasks| || !t.tasks[k].stage.Posted? || t.tasks[k].token >= |t.tokens| then t
    else
      var i := t.tasks[k].token;
      if !t.tokens[i].live then t.(tasks := t.tasks[k := t.tasks[k].(stage := Dropped)])
      else
        t.(tasks := t.tasks[k := t.tasks[k].(stage := Checked)],
           tokens := if t.tokens[i].repeat then t.tokens else t.tokens[i := t.tokens[i].(live := false)])
  }

  /** A task that found its token set calls. */
  function Begin(t: Timer, k: nat): Timer {
    if k < |t.tasks| && t.tasks[k].stage.Checked? then t.(tasks := t.tasks[k := t.tasks[k].(stage := Begun)]) else t
  }

  datatype Event = Starting(repeat: bool) | Stopping | Firing(token: nat) | Checking(task: nat) | Beginning(task: nat)

  function Step(t: Timer, e: Event): Timer {
    match e
    case Starting(repeat) => Start(t, repeat)
    case Stopping => Stop(t)
    case Firing(token) => Fire(t, token)
    case Checking(task) => Check(t, task)
    case Beginning(task) => Begin(t, task)
  }

  function Run(es: seq<Event>): Timer {
    if es == [] then NEW else Step(Run(es[..|es| - 1]), es[|es| - 1])
  }

  // ---------------------------------------------------------------- what every step keeps

  predicate Passed(t: Task) {
    t.stage.Checked? || t.stage.Begun?
  }

  predicate BothPassed(a: Task, b: Task) {
    Passed(a) && Passed(b) && a.token == b.token
  }

  /** Only the last token can be set; of a one-shot token at most one task passes, and only by clearing it. */
  predicate Sound(t: Timer) {
    && (forall k :: 0 <= k < |t.tasks| ==> t.tasks[k].token < |t.tokens|)
    && (forall i :: 0 <= i < |t.tokens| - 1 ==> !t.tokens[i].live)
    && (forall k :: 0 <= k < |t.tasks| && Passed(t.tasks[k]) ==>
        t.tokens[t.tasks[k].token].repeat || !t.tokens[t.tasks[k].token].live)
    && (forall j, k :: 0 <= j < k < |t.tasks| && BothPassed(t.tasks[j], t.tasks[k]) ==>
        t.tokens[t.tasks[j].token].repeat)
  }

  lemma StartSound(t: Timer, repeat: bool)
    requires Sound(t)
    ensures Sound(Start(t, repeat))
  {
  }

  lemma FireSound(t: Timer, token: nat)
    requires Sound(t)
    ensures Sound(Fire(t, token))
  {
  }

  lemma CheckSound(t: Timer, k: nat)
    requires Sound(t)
    ensures Sound(Check(t, k))
  {
  }

  lemma BeginSound(t: Timer, k: nat)
    requires Sound(t)
    ensures Sound(Begin(t, k))
  {
  }

  lemma StepSound(t: Timer, e: Event)
    requires Sound(t)
    ensures Sound(Step(t, e))
  {
    match e
    case Starting(repeat) => StartSound(t, repeat);
    case Stopping =>
    case Firing(token) => FireSound(t, token);
    case Checking(k) => CheckSound(t, k);
    case Beginning(k) => BeginSound(t, k);
  }

  lemma {:induction false} AlwaysSound(es: seq<Event>)
    ensures Sound(Run(es))
  {
    hide Step; hide Sound;
    if es == [] {
      NewSound();
    } else {
      AlwaysSound(es[..|es| - 1]);
      StepSound(Run(es[..|es| - 1]), es[|es| - 1]);
    }
  }

  lemma NewSound()
    ensures Sound(NEW)
  {
  }

  /** However often its timer fires, a one-shot start calls at most once. */
  lemma OneShotCallsOnce(es: seq<Event>, j: nat, k: nat)
    requires j < k < |Run(es).tasks| && Passed(Run(es).tasks[j]) && Passed(Run(es).tasks[k])
    requires Run(es).tasks[j].token == Run(es).tasks[k].token
    ensures Run(es).tasks[j].token < |Run(es).tokens| && Run(es).tokens[Run(es).tasks[j].token].repeat
  {
    AlwaysSound(es);
    hide Run;
  }

  // ---------------------------------------------------------------- after a stop

  /** Everything the timer ever started is over. */
  predicate Silent(t: Timer) {
    forall i :: 0 <= i < |t.tokens| ==> !t.tokens[i].live
  }

  lemma StopSilences(t: Timer)
    requires Sound(t)
    ensures Silent(Stop(t)) && Stop(t).tasks == t.tasks && |Stop(t).tokens| == |t.tokens|
  {
  }

  /** From the tokens made before `n` nothing is set any more, and nothing beyond `past` has passed. */
  predicate Over(t: Timer, n: nat, past: seq<Task>) {
    && n <= |t.tokens| && |past| <= |t.tasks|
    && (forall i :: 0 <= i < n ==> !t.tokens[i].live)
    && (forall k :: 0 <= k < |t.tasks| && t.tasks[k].token < n && Passed(t.tasks[k]) ==> k < |past| && Passed(past[k]))
  }

  lemma StepOver(t: Timer, e: Event, n: nat, past: seq<Task>)
    requires Sound(t) && Over(t, n, past)
    ensures Over(Step(t, e), n, past)
  {
  }

  /**
   After a stop has returned, a callback of an earlier start begins only if its task had found the token
   set before: whatever looks at its token later is dropped.
   */
  lemma {:induction false} StopIsFinal(es: seq<Event>, i: nat)
    requires i < |es| && es[i] == Stopping
    ensures Over(Run(es), |Run(es[..i]).tokens|, Run(es[..i]).tasks)
  {
    hide Step; hide Sound; hide Over;
    var last := |es| - 1;
    AlwaysSound(es[..last]);
    if i == last {
      StopOver(Run(es[..i]));
    } else {
      assert es[..last][..i] == es[..i];
      StopIsFinal(es[..last], i);
      StepOver(Run(es[..last]), es[last], |Run(es[..i]).tokens|, Run(es[..i]).tasks);
    }
  }

  lemma StopOver(t: Timer)
    requires Sound(t)
    ensures Over(Step(t, Stopping), |t.tokens|, t.tasks)
  {
    StopSilences(t);
  }

  /** That exception is real: a task that has looked at its token calls even if the stop comes in between. */
  lemma CheckedStillCalls(es: seq<Event>, k: nat) returns (more: seq<Event>)
    requires k < |Run(es).tasks| && Run(es).tasks[k].stage.Checked?
    ensures more == es + [Stopping, Beginning(k)]
    ensures k < |Run(more).tasks| && Run(more).tasks[k].stage.Begun?
  {
    more := es + [Stopping, Beginning(k)];
    var t := Run(es);
    assert more[..|es| + 1][..|es|] == es && more[..|es| + 1][|es|] == Stopping;
    assert Run(more[..|es| + 1]) == Stop(t);
    assert more[..|more| - 1] == more[..|es| + 1];
  }

  /** From the beginning: a repeating timer is started, fires, is stopped, and calls after the stop. */
  lemma CallsAfterStop() returns (es: seq<Event>)
    ensures es == [Starting(true), Firing(0), Checking(0)] + [Stopping, Beginning(0)]
    ensures Run(es) == Timer([Token(false, true)], [Task(0, Begun)])
  {
    var first := [Starting(true), Firing(0), Checking(0)];
    assert first[..2][..1] == [Starting(true)] && first[..2][..1][..0] == [] && first[..3] == first &&
      first[..3][..2] == first[..2];
    var t := Timer([Token(true, true)], []);
    assert Run(first[..2][..1]) == Start(NEW, true) == t;
    assert Run(first[..2]) == Fire(t, 0);
    assert Run(first).tasks == [Task(0, Checked)] && Run(first).tokens == [Token(true, true)];
    es := CheckedStillCalls(first, 0);
    var t3 := Run(first);
    assert es[..|es| - 1] == first + [Stopping] && (first + [Stopping])[..3] == first;
    assert Run(first + [Stopping]) == Stop(t3);
    assert Run(es) == Begin(Stop(t3), 0);
  }

  // ---------------------------------------------------------------- the timer as an object

  class TimerHandle {
    var tokens: seq<Token>
    var tasks: seq<Task>

    ghost function State(): Timer
      reads this
    {
      Timer(tokens, tasks)
    }

    ghost predicate Valid()
      reads this
    {
      Sound(State())
    }

    constructor ()
      ensures Valid() && State() == NEW
    {
      tokens, tasks := [], [];
    }

    /** When this returns, nothing that was started is live. */
    method StopTimer()
      requires Valid()
      modifies this`tokens
      ensures Valid() && State() == Stop(old(State())) && Silent(State())
    {
      StopSilences(State());
      StepSound(State(), Stopping);
      hide Sound;
      if tokens != [] {
        tokens := tokens[|tokens| - 1 := tokens[|tokens| - 1].(live := false)];
      }
    }

    method StartTimer(repeat: bool)
      requires Valid()
      modifies this`tokens
      ensures Valid() && State() == Start(old(State()), repeat)
    {
      StepSound(State(), Starting(repeat));
      StopTimer();
      hide Sound;
      tokens := tokens + [Token(true, repeat)];
    }

    /** What the timer manager calls. */
    method Wrapped(token: nat)
      requires Valid() && token < |tokens|
      modifies this`tasks
      ensures Valid() && State() == Fire(old(State()), token)
    {
      StepSound(State(), Firing(token));
      hide Sound;
      if !tokens[token].live {
        return;
      }
      tasks := tasks + [Task(token, Posted)];
    }

    /** The first half of a posted task; returns whether it goes on to call. */
    method LookAtToken(k: nat) returns (call: bool)
      requires Valid() && k < |tasks| && tasks[k].stage.Posted?
      modifies this
      ensures Valid() && State() == Check(old(State()), k) && call == old(tokens[tasks[k].token].live)
    {
      StepSound(State(), Checking(k));
      var token := tasks[k].token;
      hide Sound;
      call := tokens[token].live;
      if call && !tokens[token].repeat {
        tokens := tokens[token := tokens[token].(live := false)];
      }
      tasks := tasks[k := tasks[k].(stage := if call then Checked else Dropped)];
    }
  }
}
