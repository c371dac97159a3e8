/**
 A connection of the HTTP server: bytes arrive at any time, and at most one worker at a time takes requests
 off the buffer and answers them.
 */
module RequestPipeline {
  import opened Sizes
  import opened Text
  import opened Incremental
  import opened StreamBuffer
  import opened RequestCodec
  import opened BodyScan
  import opened RequestScanner
  import Chunked

  // ---------------------------------------------------------------- the protocol

  /**
   `working`: a worker is going to look at the buffer again. `stuck`: it does not come back from looking, and keeps
   the lock that arrivals need.
   */
  datatype Connection = Connection(view: string, processing: bool, working: bool, stuck: bool, log: seq<Answer>)

  const FRESH := Connection("", false, false, false, [])

  /** `Work`: the worker looks at the buffer once, answers what it found and learns whether the answer was sent. */
  datatype Event = Arrive(data: string) | Work(sent: bool)

  function AfterArrival(c: Connection, data: string): Connection {
    if c.stuck then c
    else c.(view := c.view + data, processing := true, working := c.working || !c.processing)
  }

  /** An exception takes the worker away and leaves the connection marked as busy. */
  function AfterWork(max: nat, c: Connection, sent: bool): Connection {
    if !c.working then c
    else if |c.view| > max then Connection("", false, false, false, c.log + [TooLarge])
    else
      match Extract(c.view)
      case Hangs => c.(working := false, stuck := true)
      case Escapes => c.(working := false)
      case Sees(v) =>
        if v.NeedMore? then c.(processing := false, working := false)
        else if v.Reject? then c.(view := "", working := false, log := c.log + [Malformed])
        else c.(view := c.view[v.size..], working := sent && !v.last, log := c.log + v.out)
  }

  function Step(max: nat, c: Connection, e: Event): Connection {
    match e
    case Arrive(data) => AfterArrival(c, data)
    case Work(sent) => AfterWork(max, c, sent)
  }

  function Run(max: nat, es: seq<Event>): Connection {
    if es == [] then FRESH else Step(max, Run(max, es[..|es| - 1]), es[|es| - 1])
  }

  /** Everything that arrived. */
  function Arrived(es: seq<Event>): string {
    if es == [] then ""
    else
      var e := es[|es| - 1];
      Arrived(es[..|es| - 1]) + if e.Arrive? then e.data else ""
  }

  // ---------------------------------------------------------------- no request is stranded

  predicate Sound(c: Connection) {
    && (c.working ==> c.processing && !c.stuck) && (c.stuck ==> c.processing)
    && (!c.processing ==> Extract(c.view) == Sees(NeedMore))
  }

  lemma NothingToExtract()
    ensures Scan("").NeedMore? && Extract("") == Sees(NeedMore)
  {
  }

  lemma StepSound(max: nat, c: Connection, e: Event)
    requires Sound(c)
    ensures Sound(Step(max, c, e))
  {
    NothingToExtract();
    hide Extract;
  }

  /**
   Whatever the interleaving of arrivals and work: when nobody is processing the connection, its buffer
   holds no request that could be taken off.
   */
  lemma {:induction false} NoStrandedRequest(max: nat, es: seq<Event>)
    ensures var c := Run(max, es);
      && (c.working ==> c.processing && !c.stuck) && (c.stuck ==> c.processing)
      && (!c.processing ==> Extract(c.view) == Sees(NeedMore))
  {
    hide Step; hide Extract;
    if es == [] {
      NothingToExtract();
    } else {
      NoStrandedRequest(max, es[..|es| - 1]);
      StepSound(max, Run(max, es[..|es| - 1]), es[|es| - 1]);
    }
  }

  // ---------------------------------------------------------------- what the worker finds

  /** Whenever the worker looks at the buffer, it is within the limit. */
  predicate Fits(max: nat, es: seq<Event>) {
    forall i :: 0 <= i < |es| && es[i].Work? && Run(max, es[..i]).working ==> |Run(max, es[..i]).view| <= max
  }

  /** Whenever the worker looks at the buffer, no sum wraps around. */
  predicate Exact(max: nat, es: seq<Event>) {
    forall i :: 0 <= i < |es| && es[i].Work? && Run(max, es[..i]).working ==> !Wraps(Run(max, es[..i]).view)
  }

  lemma FrontFits(max: nat, es: seq<Event>)
    requires es != []
    ensures var front, e := es[..|es| - 1], es[|es| - 1];
      Fits(max, es) <==> Fits(max, front) && (e.Work? && Run(max, front).working ==> |Run(max, front).view| <= max)
    ensures var front, e := es[..|es| - 1], es[|es| - 1];
      Exact(max, es) <==> Exact(max, front) && (e.Work? && Run(max, front).working ==> !Wraps(Run(max, front).view))
  {
    hide Run; hide Wraps;
    var front := es[..|es| - 1];
    assert forall i :: 0 <= i < |front| ==> front[..i] == es[..i] && front[i] == es[i];
    assert forall i :: 0 <= i < |es| ==> i < |front| || es[..i] == front;
  }

  lemma ExtractNeverTooLarge(s: string)
    ensures Extract(s).Sees? && Extract(s).verdict.Item? ==> TooLarge !in Extract(s).verdict.out
  {
    hide ParseHead; hide ScanBehind; hide KnownMethod; hide KeepAlive; hide HeadEnd; hide Declared; hide BodyText;
    hide Chunked.Decode; hide BodySize; hide SendsChunks;
  }

  /** Nothing is answered as too large if and only if the worker always finds the buffer within the limit. */
  lemma {:induction false} NeverTooLarge(max: nat, es: seq<Event>)
    ensures TooLarge !in Run(max, es).log <==> Fits(max, es)
  {
    if es != [] {
      var front, e := es[..|es| - 1], es[|es| - 1];
      NeverTooLarge(max, front);
      FrontFits(max, es);
      ExtractNeverTooLarge(Run(max, front).view);
      hide Fits; hide Extract; hide Wraps;
    }
  }

  /** On the way through all that arrived, no sum wraps around. */
  predicate StaysExact(s: string)
    decreases |s|
  {
    !Wraps(s) && (Scan(s).Item? ==> StaysExact(s[Scan(s).size..]))
  }

  lemma ExactStep(s: string)
    ensures StaysExact(s) <==> !Wraps(s) && (Scan(s).Item? ==> StaysExact(s[Scan(s).size..]))
  {
    hide Wraps; hide Scan;
  }

  /** A turn of the worker, with more to come. */
  lemma WorkStaysExact(max: nat, c: Connection, sent: bool, more: string)
    requires c.working && c.processing && !c.stuck && |c.view| <= max && StaysExact(c.view + more)
    ensures !Wraps(c.view)
    ensures var r := AfterWork(max, c, sent);
      !r.stuck && (r.working || !r.processing ==> StaysExact(r.view + more))
  {
    hide StaysExact; hide Wraps; hide Extract; hide Scan;
    ExactStep(c.view + more);
    WrapsStable(c.view, more);
    ExtractIsScan(c.view);
    var v := Scan(c.view);
    if v.Item? {
      ScanStable(c.view, more);
      assert (c.view + more)[v.size..] == c.view[v.size..] + more;
    }
  }

  /** What a run has left to do, with more to come, stays exact if all that arrives does. */
  lemma {:induction false} RunStaysExact(max: nat, es: seq<Event>, more: string)
    requires Fits(max, es) && StaysExact(Arrived(es) + more)
    ensures Exact(max, es)
    ensures var c := Run(max, es); !c.stuck && (c.working || !c.processing ==> StaysExact(c.view + more))
  {
    hide StaysExact; hide Fits; hide Exact; hide Wraps; hide AfterWork; hide Scan; hide Extract;
    if es == [] {
      NothingYet(max);
    } else {
      var front, e := es[..|es| - 1], es[|es| - 1];
      FrontFits(max, es);
      var c := Run(max, front);
      if e.Arrive? {
        Associate(Arrived(front), e.data, more);
        RunStaysExact(max, front, e.data + more);
        Associate(c.view, e.data, more);
      } else {
        assert Arrived(es) == Arrived(front);
        RunStaysExact(max, front, more);
        NoStrandedRequest(max, front);
        if c.working {
          WorkStaysExact(max, c, e.sent, more);
        } else {
          Away(max, c, e.sent);
        }
      }
    }
  }

  lemma NothingYet(max: nat)
    ensures Exact(max, [])
  {
  }

  lemma Away(max: nat, c: Connection, sent: bool)
    requires !c.working
    ensures AfterWork(max, c, sent) == c
  {
  }

  /** A condition on the bytes alone: if no sum wraps around on the way through them, the worker never meets one. */
  lemma ArrivedExact(max: nat, es: seq<Event>)
    requires Fits(max, es) && StaysExact(Arrived(es))
    ensures Exact(max, es)
  {
    hide StaysExact; hide Run;
    assert Arrived(es) + "" == Arrived(es);
    RunStaysExact(max, es, "");
  }

  // ---------------------------------------------------------------- the answers depend only on the bytes

  predicate AllSent(es: seq<Event>) {
    forall e :: e in es && e.Work? ==> e.sent
  }

  /** The answers to a whole input. */
  ghost function Answers(o: Outcome<char, Answer>): seq<Answer> {
    if o.status == Failed then o.pieces + [Malformed] else o.pieces
  }

  /** The connection is somewhere on the way through what arrived. */
  ghost predicate OnTheWay(c: Connection, o: Outcome<char, Answer>) {
    if c.stuck then false
    else if c.working then var r := Drained(c.view); o == r.(pieces := c.log + r.pieces)
    else if !c.processing then o == Outcome(c.log, c.view, Open)
    else c.log == Answers(o) && o.status != Open
  }

  lemma ArrivalOnTheWay(c: Connection, arrived: string, data: string)
    requires Sound(c) && OnTheWay(c, Drained(arrived))
    ensures OnTheWay(AfterArrival(c, data), Drained(arrived + data))
  {
    hide Extract; hide Drained;
    DrainedAppend(arrived, data);
    if c.working {
      DrainedAppend(c.view, data);
      var r := Drained(c.view);
      if r.status == Open {
        var more := Drained(r.rest + data);
        assert c.log + r.pieces + more.pieces == c.log + (r.pieces + more.pieces);
      }
    }
  }

  lemma WorkOnTheWay(max: nat, c: Connection, o: Outcome<char, Answer>)
    requires Sound(c) && OnTheWay(c, o) && (c.working ==> |c.view| <= max && !Wraps(c.view))
    ensures OnTheWay(AfterWork(max, c, true), o)
  {
    ExtractIsScan(c.view);
    hide Scan; hide Extract; hide Wraps; hide Drained;
    if c.working {
      DrainStep(c.view);
      var v := Scan(c.view);
      if v.Item? && !v.last {
        var r := Drained(c.view[v.size..]);
        assert c.log + (v.out + r.pieces) == c.log + v.out + r.pieces;
      } else {
        assert c.log + [] == c.log;
      }
    }
  }

  lemma {:induction false} AlwaysOnTheWay(max: nat, es: seq<Event>)
    requires AllSent(es) && Fits(max, es) && Exact(max, es)
    ensures OnTheWay(Run(max, es), Drained(Arrived(es)))
  {
    hide AfterWork; hide AfterArrival; hide Drained; hide OnTheWay; hide Fits; hide Exact; hide Wraps; hide Extract;
    if es == [] {
      FreshOnTheWay();
    } else {
      var front, e := es[..|es| - 1], es[|es| - 1];
      FrontFits(max, es);
      assert AllSent(front) && e in es;
      AlwaysOnTheWay(max, front);
      NoStrandedRequest(max, front);
      if e.Arrive? {
        ArrivalOnTheWay(Run(max, front), Arrived(front), e.data);
      } else {
        assert Arrived(es) == Arrived(front);
        WorkOnTheWay(max, Run(max, front), Drained(Arrived(es)));
      }
    }
  }

  lemma FreshOnTheWay()
    ensures OnTheWay(FRESH, Drained(""))
  {
    NothingToExtract();
    DrainStep("");
  }

  /**
   Once the worker has nothing left to do, the answers are those of everything that arrived, taken at
   once and in order: how arrivals and work were interleaved makes no difference.
   */
  lemma ServesTheStream(max: nat, es: seq<Event>)
    requires AllSent(es) && Fits(max, es) && Exact(max, es) && !Run(max, es).working
    ensures Run(max, es).log == Answers(Drained(Arrived(es)))
  {
    hide Run; hide Arrived; hide Drained;
    AlwaysOnTheWay(max, es);
  }

  // ---------------------------------------------------------------- after the end

  predicate Ended(c: Connection) {
    c.processing && !c.working
  }

  /** Work goes on with further events. */
  function RunFrom(max: nat, c: Connection, es: seq<Event>): Connection {
    if es == [] then c else Step(max, RunFrom(max, c, es[..|es| - 1]), es[|es| - 1])
  }

  lemma {:induction false} SilentAfterEnd(max: nat, c: Connection, es: seq<Event>)
    requires Ended(c)
    ensures Ended(RunFrom(max, c, es)) && RunFrom(max, c, es).log == c.log
  {
    hide Extract;
    if es != [] {
      SilentAfterEnd(max, c, es[..|es| - 1]);
    }
  }

  lemma RunFromThen(max: nat, c: Connection, es: seq<Event>, e: Event)
    ensures RunFrom(max, c, es + [e]) == Step(max, RunFrom(max, c, es), e)
  {
    hide Step;
    assert (es + [e])[..|es|] == es;
  }

  /** After a request that was too large, whatever arrives before the close takes effect is still answered. */
  lemma AnswersAfterTooLarge(max: nat, c: Connection, data: string, sent: bool)
    requires c.working && |c.view| > max
    ensures var r, v := AfterWork(max, c, true), Extract(data);
      && r.log == c.log + [TooLarge]
      && RunFrom(max, r, [Arrive(data), Work(sent)]).log ==
        if |data| > max then r.log + [TooLarge]
        else if !v.Sees? || v.verdict.NeedMore? then r.log
        else if v.verdict.Reject? then r.log + [Malformed]
        else r.log + v.verdict.out
  {
    hide Extract;
    var r := AfterWork(max, c, true);
    RunFromThen(max, r, [], Arrive(data));
    RunFromThen(max, r, [Arrive(data)], Work(sent));
    assert [] + [Arrive(data)] == [Arrive(data)] && [Arrive(data)] + [Work(sent)] == [Arrive(data), Work(sent)];
    assert "" + data == data;
  }

  /**
   A turn of the worker that gives its last answer, because the answer closes the connection or could not be
   sent, is followed by no other answer, whatever happens, if and only if the buffer was within the limit.
   */
  lemma LastAnswer(max: nat, c: Connection, sent: bool)
    requires c.working && c.processing
    requires AfterWork(max, c, sent).log != c.log && !AfterWork(max, c, sent).working
    ensures var r := AfterWork(max, c, sent);
      |c.view| <= max <==> forall es :: RunFrom(max, r, es).log == r.log
  {
    hide Extract;
    var r := AfterWork(max, c, sent);
    if |c.view| <= max {
      assert Ended(r);
      forall es ensures RunFrom(max, r, es).log == r.log {
        SilentAfterEnd(max, r, es);
      }
    } else {
      var data := seq(max + 1, i => 'a');
      AnswersAfterTooLarge(max, c, data, true);
      assert |RunFrom(max, r, [Arrive(data), Work(true)]).log| > |r.log|;
    }
  }

  // ---------------------------------------------------------------- from writer to application

  /** What a client hands to the writer. */
  datatype Outgoing = Outgoing(verb: string, target: string, headers: seq<Header>, body: string)

  function Written(r: Outgoing): string {
    Build(r.verb, r.target, r.headers, r.body)
  }

  function Received(r: Outgoing): Request {
    Arriving(r.verb, r.target, r.headers, r.body)
  }

  /** A request that can be written into memory, of a method the server knows, and that does not ask to close. */
  predicate Pipelined(r: Outgoing) {
    && Writable(r.verb, r.target, r.headers, r.body) && |Written(r)| <= SIZE_MAX
    && KnownMethod(r.verb) && KeepAlive(Received(r).(body := []))
  }

  /** A writable request of a known method that does not mention the connection can be pipelined. */
  lemma QuietIsPipelined(r: Outgoing)
    requires Writable(r.verb, r.target, r.headers, r.body) && |Written(r)| <= SIZE_MAX && KnownMethod(r.verb)
    requires forall h :: h in r.headers ==> !SameIgnoringCase(h.name, "Connection")
    ensures Pipelined(r)
  {
    var head := Received(r).(body := []);
    assert !SameIgnoringCase("Content-Length", "Connection") by {
      assert |"Content-Length"| != |"Connection"|;
    }
    assert head.headers == r.headers + [LengthHeader(r.body)];
    hide Writable; hide Written; hide KnownMethod; hide SameIgnoringCase; hide KeepAlive;
    QuietIsKeptAlive(head);
  }

  lemma WrittenEncodes(r: Outgoing)
    requires Pipelined(r)
    ensures Encodes(Scanner(), Written(r), [Served(Received(r))])
  {
    hide Lawful; hide Scan; hide Build; hide Encodes; hide Writable; hide KnownMethod; hide KeepAlive; hide Arriving;
    forall rest ensures Scanner()(Written(r) + rest) == Item([Served(Received(r))], |Written(r)|, false) {
      WrittenIsOneItem(r.verb, r.target, r.headers, r.body, rest);
      assert Scanner()(Written(r) + rest) == Scan(Written(r) + rest);
    }
    WrittenNotEmpty(r);
    hide Scanner;
    CompleteEncodes(Scanner(), Written(r), [Served(Received(r))]);
  }

  lemma WrittenNotEmpty(r: Outgoing)
    ensures Written(r) != []
  {
    hide StartLine; hide Lines; hide Sent;
  }

  function WrittenTexts(rs: seq<Outgoing>): seq<string> {
    seq(|rs|, i requires 0 <= i < |rs| => Written(rs[i]))
  }

  function Replies(rs: seq<Outgoing>): seq<Answer> {
    seq(|rs|, i requires 0 <= i < |rs| => Served(Received(rs[i])))
  }

  /** What the worker extracts from the beginning of written requests, `k` of which are gone. */
  lemma ExtractsNext(rs: seq<Outgoing>, k: nat, view: string)
    requires (forall r :: r in rs ==> Pipelined(r)) && k < |rs| && view <= Flatten(WrittenTexts(rs)[k..])
    ensures Extract(view) == Sees(
      if |view| < |Written(rs[k])| then NeedMore else Item([Served(Received(rs[k]))], |Written(rs[k])|, false))
  {
    var texts, r := WrittenTexts(rs), rs[k];
    FlattenFront(texts[k..]);
    var rest := Flatten(texts[k..][1..]);
    assert texts[k..][0] == Written(r) && Pipelined(r);
    hide Flatten; hide WrittenTexts;
    NeverWrapsNext(r, rest, view);
    ExtractIsScan(view);
    WrittenEncodes(r);
    ScansNext(r, rest, view);
  }

  lemma NeverWrapsNext(r: Outgoing, rest: string, view: string)
    requires Pipelined(r) && view <= Written(r) + rest
    ensures !Wraps(view)
  {
    hide Writable; hide Build; hide KnownMethod; hide KeepAlive; hide Wraps;
    WrittenNeverWraps(r.verb, r.target, r.headers, r.body, rest, view);
  }

  lemma ScansNext(r: Outgoing, rest: string, view: string)
    requires Encodes(Scanner(), Written(r), [Served(Received(r))]) && view <= Written(r) + rest
    ensures Scan(view) ==
      if |view| < |Written(r)| then NeedMore else Item([Served(Received(r))], |Written(r)|, false)
  {
    hide Scan; hide Written; hide Received;
    var text := Written(r);
    assert Scanner()(view) == Scan(view);
    hide Scanner;
    if |view| < |text| {
      assert view == text[..|view|];
    } else {
      assert view == text + view[|text|..];
    }
  }

  // ---------------------------------------------------------------- where a connection of written requests stands

  /** The first requests are answered, in order, and the buffer holds what arrived behind them. */
  predicate InPlace(rs: seq<Outgoing>, arrived: string, c: Connection) {
    && |c.log| <= |rs| && c.log == Replies(rs)[..|c.log|]
    && arrived == Flatten(WrittenTexts(rs)[..|c.log|]) + c.view
    && (c.processing ==> c.working) && !c.stuck
  }

  /** The buffer holds the beginning of the requests that are not answered. */
  lemma ViewAhead(rs: seq<Outgoing>, arrived: string, c: Connection)
    requires InPlace(rs, arrived, c) && arrived <= Flatten(WrittenTexts(rs))
    ensures c.view <= Flatten(WrittenTexts(rs)[|c.log|..])
    ensures arrived == Flatten(WrittenTexts(rs)) ==> c.view == Flatten(WrittenTexts(rs)[|c.log|..])
  {
    var texts, k := WrittenTexts(rs), |c.log|;
    FlattenSplit(texts, k);
    var gone, ahead := Flatten(texts[..k]), Flatten(texts[k..]);
    hide Flatten; hide WrittenTexts; hide Replies;
    assert c.view == arrived[|gone|..] && ahead == (gone + ahead)[|gone|..];
  }

  lemma WorkWaits(max: nat, c: Connection)
    requires c.working && |c.view| <= max && Extract(c.view) == Sees(NeedMore)
    ensures AfterWork(max, c, true) == c.(processing := false, working := false)
  {
    hide Extract;
  }

  lemma WorkTakes(max: nat, c: Connection, out: seq<Answer>, size: nat)
    requires c.working && |c.view| <= max && size <= |c.view| && Extract(c.view) == Sees(Item(out, size, false))
    ensures AfterWork(max, c, true) == c.(view := c.view[size..], log := c.log + out)
  {
    hide Extract;
  }

  lemma WaitsInPlace(rs: seq<Outgoing>, arrived: string, c: Connection)
    requires InPlace(rs, arrived, c)
    ensures InPlace(rs, arrived, c.(processing := false, working := false))
  {
    hide Flatten; hide WrittenTexts; hide Replies;
  }

  lemma NothingAhead(rs: seq<Outgoing>, c: Connection)
    requires |c.log| == |rs| && c.view <= Flatten(WrittenTexts(rs)[|c.log|..])
    ensures Extract(c.view) == Sees(NeedMore)
  {
    hide Extract; hide Written;
    assert WrittenTexts(rs)[|c.log|..] == [] && c.view == [];
    NothingToExtract();
  }

  lemma WorkInPlace(max: nat, rs: seq<Outgoing>, arrived: string, c: Connection)
    requires (forall r :: r in rs ==> Pipelined(r)) && arrived <= Flatten(WrittenTexts(rs))
    requires InPlace(rs, arrived, c) && c.working && c.processing && |c.view| <= max
    ensures InPlace(rs, arrived, AfterWork(max, c, true))
  {
    ViewAhead(rs, arrived, c);
    var k := |c.log|;
    assert k <= |rs| == |WrittenTexts(rs)| && forall i :: 0 <= i < |rs| ==> WrittenTexts(rs)[i] == Written(rs[i]);
    hide *;
    if k == |rs| {
      NothingAhead(rs, c);
    } else {
      ExtractsNext(rs, k, c.view);
    }
    if k == |rs| || |c.view| < |Written(rs[k])| {
      WorkWaits(max, c);
      WaitsInPlace(rs, arrived, c);
    } else {
      WorkTakes(max, c, [Served(Received(rs[k]))], |Written(rs[k])|);
      TakenInPlace(rs, arrived, c, k);
    }
  }

  lemma TakenInPlace(rs: seq<Outgoing>, arrived: string, c: Connection, k: nat)
    requires InPlace(rs, arrived, c) && k == |c.log| < |rs| && c.working && c.processing
    requires c.view <= Flatten(WrittenTexts(rs)[k..]) && |WrittenTexts(rs)[k]| <= |c.view|
    ensures InPlace(rs, arrived, c.(view := c.view[|WrittenTexts(rs)[k]|..], log := c.log + [Served(Received(rs[k]))]))
  {
    hide Written; hide Received;
    var texts := WrittenTexts(rs);
    FlattenFront(texts[k..]);
    assert c.view[..|texts[k]|] == texts[k];
    assert texts[..k + 1][..k] == texts[..k];
    var gone, rest := Flatten(texts[..k]), c.view[|texts[k]|..];
    assert c.view == texts[k] + rest;
    assert gone + (texts[k] + rest) == gone + texts[k] + rest;
    assert Replies(rs)[..k + 1] == Replies(rs)[..k] + [Served(Received(rs[k]))];
  }

  lemma ArrivalInPlace(rs: seq<Outgoing>, arrived: string, c: Connection, data: string)
    requires InPlace(rs, arrived, c)
    ensures InPlace(rs, arrived + data, AfterArrival(c, data))
  {
    var gone := Flatten(WrittenTexts(rs)[..|c.log|]);
    hide Flatten; hide Written; hide Received;
    assert gone + c.view + data == gone + (c.view + data);
  }

  lemma {:induction false} AlwaysInPlace(max: nat, rs: seq<Outgoing>, es: seq<Event>)
    requires (forall r :: r in rs ==> Pipelined(r)) && Arrived(es) <= Flatten(WrittenTexts(rs))
    requires AllSent(es) && Fits(max, es)
    ensures InPlace(rs, Arrived(es), Run(max, es))
  {
    hide Pipelined; hide AfterWork; hide AfterArrival; hide Fits; hide InPlace; hide Flatten; hide WrittenTexts;
    hide Extract;
    if es == [] {
      FreshInPlace(rs);
    } else {
      var front, e := es[..|es| - 1], es[|es| - 1];
      FrontFits(max, es);
      assert AllSent(front) && e in es && Arrived(front) <= Arrived(es);
      AlwaysInPlace(max, rs, front);
      NoStrandedRequest(max, front);
      if e.Arrive? {
        ArrivalInPlace(rs, Arrived(front), Run(max, front), e.data);
      } else {
        assert Arrived(es) == Arrived(front);
        if Run(max, front).working {
          WorkInPlace(max, rs, Arrived(front), Run(max, front));
        } else {
          Away(max, Run(max, front), e.sent);
        }
      }
    }
  }

  lemma FreshInPlace(rs: seq<Outgoing>)
    ensures InPlace(rs, "", FRESH)
  {
    assert WrittenTexts(rs)[..0] == [] && Replies(rs)[..0] == [];
  }

  /**
   Requests written one behind the other into a connection, however their bytes are split into arrivals and
   whatever the worker does in between: once the worker has nothing left to do, exactly the requests that
   have arrived completely are answered, in order, and the buffer holds a proper part of the next one.
   */
  lemma ServesPromptly(max: nat, rs: seq<Outgoing>, es: seq<Event>) returns (k: nat)
    requires (forall r :: r in rs ==> Pipelined(r)) && Arrived(es) <= Flatten(WrittenTexts(rs))
    requires AllSent(es) && Fits(max, es) && !Run(max, es).working
    ensures k <= |rs| && Run(max, es).log == Replies(rs)[..k]
    ensures Arrived(es) == Flatten(WrittenTexts(rs)[..k]) + Run(max, es).view
    ensures if k < |rs| then Run(max, es).view < Written(rs[k]) else Run(max, es).view == []
  {
    var c, texts := Run(max, es), WrittenTexts(rs);
    k := |c.log|;
    AlwaysInPlace(max, rs, es);
    NoStrandedRequest(max, es);
    ViewAhead(rs, Arrived(es), c);
    hide Run; hide Pipelined; hide Written; hide Received; hide Extract; hide Fits;
    if k < |rs| {
      ExtractsNext(rs, k, c.view);
      FlattenFront(texts[k..]);
      assert texts[k..][0] == Written(rs[k]);
    } else {
      assert texts[k..] == [];
    }
  }

  /** When they have all arrived they are all answered, complete and in order. */
  lemma ServesEveryRequest(max: nat, rs: seq<Outgoing>, es: seq<Event>)
    requires (forall r :: r in rs ==> Pipelined(r)) && Arrived(es) == Flatten(WrittenTexts(rs))
    requires AllSent(es) && Fits(max, es) && !Run(max, es).working
    ensures Run(max, es).log == Replies(rs) && Run(max, es).view == []
  {
    hide Run; hide Pipelined; hide Written; hide Received; hide Fits;
    var k := ServesPromptly(max, rs, es);
    var texts, c := WrittenTexts(rs), Run(max, es);
    FlattenSplit(texts, k);
    if k < |rs| {
      FlattenFront(texts[k..]);
    }
    assert Replies(rs)[..|rs|] == Replies(rs);
  }

  // ---------------------------------------------------------------- a condition for the sender

  lemma {:induction false} FlattenMonotone(texts: seq<string>, a: nat, b: nat)
    requires a <= b <= |texts|
    ensures |Flatten(texts[..a])| <= |Flatten(texts[..b])|
  {
    if a < b {
      FlattenMonotone(texts, a, b - 1);
      assert texts[..b][..b - 1] == texts[..b - 1];
    }
  }

  /**
   A sender that never has more than the limit on the way beyond the requests whose answers it has seen keeps
   the buffer within the limit: `seen[i]` is how many answers it has seen before event `i`.
   */
  predicate Paced(max: nat, rs: seq<Outgoing>, es: seq<Event>, seen: seq<nat>) {
    && |seen| == |es|
    && forall i :: 0 <= i < |es| ==>
      && seen[i] <= |Run(max, es[..i]).log| && seen[i] <= |rs|
      && |Arrived(es[..i])| <= max + |Flatten(WrittenTexts(rs)[..seen[i]])|
  }

  lemma FrontPaced(max: nat, rs: seq<Outgoing>, es: seq<Event>, seen: seq<nat>)
    requires es != [] && Paced(max, rs, es, seen)
    ensures Paced(max, rs, es[..|es| - 1], seen[..|es| - 1])
    ensures var front, s := es[..|es| - 1], seen[|es| - 1];
      s <= |Run(max, front).log| && s <= |WrittenTexts(rs)| &&
      |Arrived(front)| <= max + |Flatten(WrittenTexts(rs)[..s])|
  {
    assert |WrittenTexts(rs)| == |rs|;
    hide Run; hide Arrived; hide Flatten; hide WrittenTexts;
    var front := es[..|es| - 1];
    assert forall i :: 0 <= i < |front| ==> front[..i] == es[..i];
  }

  lemma FrontArrived(es: seq<Event>)
    requires es != []
    ensures Arrived(es[..|es| - 1]) <= Arrived(es) && (AllSent(es) ==> AllSent(es[..|es| - 1]))
  {
  }

  lemma ViewWithin(max: nat, rs: seq<Outgoing>, arrived: string, c: Connection, seen: nat)
    requires InPlace(rs, arrived, c) && seen <= |c.log| && |arrived| <= max + |Flatten(WrittenTexts(rs)[..seen])|
    ensures |c.view| <= max
  {
    hide Written; hide Received;
    FlattenMonotone(WrittenTexts(rs), seen, |c.log|);
    hide Flatten; hide WrittenTexts;
  }

  lemma {:induction false} PacedFits(max: nat, rs: seq<Outgoing>, es: seq<Event>, seen: seq<nat>)
    requires (forall r :: r in rs ==> Pipelined(r)) && Arrived(es) <= Flatten(WrittenTexts(rs))
    requires AllSent(es) && Paced(max, rs, es, seen)
    ensures Fits(max, es)
  {
    if es != [] {
      var last := |es| - 1;
      var front := es[..last];
      hide *;
      FrontArrived(es);
      FrontPaced(max, rs, es, seen);
      PacedFits(max, rs, front, seen[..last]);
      AlwaysInPlace(max, rs, front);
      ViewWithin(max, rs, Arrived(front), Run(max, front), seen[last]);
      FrontFits(max, es);
    }
  }

  // ---------------------------------------------------------------- a plain request

  const PLAIN_GET := Outgoing("GET", "/", [], "")

  lemma PlainGetIsPipelined()
    ensures Pipelined(PLAIN_GET) && |Written(PLAIN_GET)| <= 1024
  {
    var h := LengthHeader("");
    GetIsToken();
    LengthFieldReadable(0);
    assert Digits(0, 10) == "0";
    assert Sent([], "") == [h] by { assert [] + [h] == [h]; }
    LinesOfOne(h);
    assert |StartLine("GET", "/")| == 14 && OneLine("/") && |h.name| == 14;
    hide IsToken; hide KnownMethod; hide KeepAlive; hide StartLine; hide Lines; hide Sent; hide LengthHeader;
    hide Digits;
    QuietIsPipelined(PLAIN_GET);
  }

  lemma PlainGetExtracts()
    ensures Extract(Written(PLAIN_GET)) == Sees(Item([Served(Received(PLAIN_GET))], |Written(PLAIN_GET)|, false))
  {
    PlainGetIsPipelined();
    hide Pipelined; hide Written; hide Received; hide Extract;
    var small := Written(PLAIN_GET);
    assert WrittenTexts([PLAIN_GET])[0..] == [small];
    FlattenFront([small]);
    assert [small][1..] == [] && small + [] == small;
    ExtractsNext([PLAIN_GET], 0, small);
  }

  lemma TooLargeThen(max: nat, big: string, small: string, answer: Answer) returns (es: seq<Event>)
    requires |big| > max && |small| <= max && Extract(small) == Sees(Item([answer], |small|, false))
    ensures Run(max, es).log == [TooLarge, answer]
  {
    hide Extract;
    es := [];
    assert Run(max, es) == FRESH;
    hide Run;
    es := Then(max, es, Arrive(big));
    assert "" + big == big;
    es := Then(max, es, Work(true));
    assert Run(max, es) == Connection("", false, false, false, [TooLarge]);
    es := Then(max, es, Arrive(small));
    assert "" + small == small;
    es := Then(max, es, Work(true));
  }

  /** From the beginning, with any limit the server allows: a request that is too large, and then one that is served. */
  lemma TooLargeThenServed(max: nat) returns (es: seq<Event>)
    requires max >= 1024
    ensures Run(max, es).log == [TooLarge, Served(Received(PLAIN_GET))]
  {
    PlainGetIsPipelined();
    PlainGetExtracts();
    hide *;
    es := TooLargeThen(max, seq(max + 1, i => 'a'), Written(PLAIN_GET), Served(Received(PLAIN_GET)));
  }

  lemma Then(max: nat, es: seq<Event>, e: Event) returns (more: seq<Event>)
    ensures more == es + [e] && Run(max, more) == Step(max, Run(max, es), e)
  {
    hide Step;
    more := es + [e];
    assert more[..|es|] == es;
  }

  // ---------------------------------------------------------------- sums that wrap around

  /** After an attempt that hangs or throws, no event adds an answer. */
  lemma Silenced(max: nat, c: Connection, sent: bool, es: seq<Event>)
    requires c.working && c.processing && |c.view| <= max && !Extract(c.view).Sees?
    ensures RunFrom(max, AfterWork(max, c, sent), es).log == c.log
  {
    hide Extract;
    SilentAfterEnd(max, AfterWork(max, c, sent), es);
  }

  lemma {:induction false} StuckForEver(max: nat, c: Connection, es: seq<Event>)
    requires c.stuck && !c.working
    ensures RunFrom(max, c, es) == c
  {
    hide Extract;
    if es != [] {
      StuckForEver(max, c, es[..|es| - 1]);
    }
  }

  lemma ArriveAndWork(max: nat, data: string) returns (es: seq<Event>)
    ensures var c := Run(max, es); c == AfterWork(max, Connection(data, true, true, false, []), true)
  {
    hide AfterWork; hide Run;
    es := JustArrived(max, data);
    es := Then(max, es, Work(true));
  }

  lemma HangingRequest() returns (data: string)
    ensures |data| <= 1024 && Extract(data) == Hangs
  {
    var body := "1\r\nX\r\n-6\r\n";
    assert |body| == 10;
    hide *;
    ScanHangs();
    var end := ChunkedPostExtracts(body);
    data := ChunkedPost(body);
  }

  lemma WorkHangs(max: nat, c: Connection)
    requires c.working && |c.view| <= max && Extract(c.view) == Hangs
    ensures AfterWork(max, c, true) == c.(working := false, stuck := true)
  {
    hide Extract;
  }

  /** From the beginning: a small request whose worker never comes back, and nothing ever happens again. */
  lemma ServerHangs(max: nat) returns (es: seq<Event>)
    requires max >= 1024
    ensures Run(max, es).stuck && Run(max, es).log == []
    ensures forall more :: RunFrom(max, Run(max, es), more) == Run(max, es)
  {
    hide *;
    var data := HangingRequest();
    es := ArriveAndWork(max, data);
    WorkHangs(max, Connection(data, true, true, false, []));
    forall more ensures RunFrom(max, Run(max, es), more) == Run(max, es) {
      StuckForEver(max, Run(max, es), more);
    }
  }

  /** One more turn at a request that takes nothing off. */
  lemma ServedOnceMore(max: nat, es: seq<Event>, data: string, answer: Answer) returns (more: seq<Event>)
    requires Run(max, es).working && Run(max, es).view == data && |data| <= max
    requires Extract(data) == Sees(Item([answer], 0, false))
    ensures Run(max, more).working && Run(max, more).view == data && Run(max, more).log == Run(max, es).log + [answer]
  {
    hide Run; hide Extract;
    more := Then(max, es, Work(true));
    assert data[0..] == data;
  }

  lemma NothingTaken() returns (answer: Answer)
    ensures |LengthOnly(WORD - 56)| <= 1024 && Extract(LengthOnly(WORD - 56)) == Sees(Item([answer], 0, false))
  {
    WrappedRequest();
    var look := Extract(LengthOnly(WORD - 56));
    hide *;
    answer := look.verdict.out[0];
  }

  lemma JustArrived(max: nat, data: string) returns (es: seq<Event>)
    ensures Run(max, es) == Connection(data, true, true, false, [])
  {
    assert Run(max, []) == FRESH;
    hide Run;
    es := Then(max, [], Arrive(data));
    assert "" + data == data;
  }

  /** The request whose declared length wraps around to nothing is served as often as the worker looks. */
  lemma {:induction false} ServedAgainAndAgain(max: nat, k: nat) returns (es: seq<Event>)
    requires max >= 1024
    ensures Run(max, es).working && Run(max, es).view == LengthOnly(WORD - 56) && |Run(max, es).log| == k
  {
    var data := LengthOnly(WORD - 56);
    var answer := NothingTaken();
    hide *;
    if k == 0 {
      es := JustArrived(max, data);
    } else {
      es := ServedAgainAndAgain(max, k - 1);
      es := ServedOnceMore(max, es, data, answer);
    }
  }

  // ---------------------------------------------------------------- the connection as an object

  /** On the way through the buffer, no attempt to extract a request hangs and every request takes something off. */
  predicate Finishes(s: string)
    decreases |s|
  {
    var look := Extract(s);
    && look != Hangs
    && (look.Sees? && look.verdict.Item? ==> look.verdict.size > 0 && Finishes(s[look.verdict.size..]))
  }

  /** A turn after which the worker goes on takes at least four bytes off, unless a declared length wraps around. */
  lemma WorkTakesFour(max: nat, c: Connection, sent: bool)
    requires c.working && AfterWork(max, c, sent).working
    ensures |AfterWork(max, c, sent).view| <= |c.view| - 4 || LengthWraps(c.view)
  {
    TakesFour(c.view);
    hide Extract; hide LengthWraps;
  }

  lemma WorkFinishes(max: nat, c: Connection, sent: bool)
    requires c.working && AfterWork(max, c, sent).working && Finishes(c.view)
    ensures |AfterWork(max, c, sent).view| < |c.view| && Finishes(AfterWork(max, c, sent).view)
  {
    hide Extract;
  }

  lemma {:induction false} ExactFinishes(s: string)
    requires StaysExact(s)
    ensures Finishes(s)
    decreases |s|
  {
    ExtractIsScan(s);
    hide Extract; hide Scan; hide Wraps;
    if Scan(s).Item? {
      ExactFinishes(s[Scan(s).size..]);
    }
  }

  /** The worker looks at the buffer until it has nothing left to do, with nothing arriving meanwhile. */
  function WorkedOff(max: nat, c: Connection, sends: seq<bool>): (r: Connection)
    requires c.working ==> Finishes(c.view)
    ensures !r.working
    decreases c.working, |c.view|
  {
    if !c.working then c
    else
      var sent := sends == [] || sends[0];
      var next := AfterWork(max, c, sent);
      if !next.working then next
      else
        WorkFinishes(max, c, sent);
        hide AfterWork; hide Finishes;
        WorkedOff(max, next, if sends == [] then [] else sends[1..])
  }

  class ClientState {
    const maxRequestSize: nat
    const stream: StreamBuffer<char>
    var processing: bool
    ghost var working: bool
    var log: seq<Answer>

    ghost predicate Valid()
      reads this, stream
    {
      stream.Valid() && Sound(State())
    }

    ghost function State(): Connection
      reads this, stream
    {
      Connection(stream.View(), processing, working, false, log)
    }

    constructor (max: nat)
      ensures Valid() && fresh(stream) && maxRequestSize == max && State() == FRESH
    {
      NothingToExtract();
      maxRequestSize, processing, working, log := max, false, false, [];
      stream := new StreamBuffer<char>(4096, 2);
    }

    /** The caller starts a worker when this returns true. */
    method HandleDataReceived(data: string) returns (shouldProcess: bool)
      requires Valid()
      modifies this, stream
      ensures Valid() && State() == AfterArrival(old(State()), data)
      ensures shouldProcess == !old(processing)
    {
      hide Extract;
      stream.Compact();
      stream.Append(data);
      shouldProcess := !processing;
      if !processing {
        processing := true;
        working := true;
      }
    }

    /** One turn of the worker, where it ends; returns whether the worker goes on. */
    method ProcessOne(sent: bool) returns (again: bool)
      requires Valid() && working
      requires |stream.View()| <= maxRequestSize ==> Extract(stream.View()) != Hangs
      modifies this, stream
      ensures Valid() && State() == AfterWork(maxRequestSize, old(State()), sent)
      ensures again == working
    {
      hide Extract;
      StepSound(maxRequestSize, State(), Work(sent));
      var pending := stream.View();
      if |pending| > maxRequestSize {
        log := log + [TooLarge];
        processing := false;
        stream.Clear();
        working := false;
        return false;
      }
      var look := Extract(pending);
      if look.Escapes? {
        working := false;
        return false;
      }
      var v := look.verdict;
      if v.NeedMore? {
        processing := false;
        working := false;
        return false;
      }
      if v.Reject? {
        stream.Consume(|pending|);
        log := log + [Malformed];
        working := false;
        return false;
      }
      stream.Consume(v.size);
      log := log + v.out;
      again := sent && !v.last;
      working := again;
    }

    /** The worker's loop, the answers being sent as `sends` says and successfully from then on. */
    method ProcessBufferedRequests(sends: seq<bool>)
      requires Valid() && working && Finishes(stream.View())
      modifies this, stream
      ensures Valid() && !working && State() == WorkedOff(maxRequestSize, old(State()), sends)
    {
      hide Extract; hide AfterWork;
      var again, rest := true, sends;
      while again
        invariant Valid() && again == working && (again ==> Finishes(stream.View()))
        invariant WorkedOff(maxRequestSize, State(), rest) == WorkedOff(maxRequestSize, old(State()), sends)
        decreases again, |stream.View()|
      {
        ghost var before := State();
        var sent := rest == [] || rest[0];
        again := ProcessOne(sent);
        if again {
          WorkFinishes(maxRequestSize, before, sent);
        }
        rest := if rest == [] then [] else rest[1..];
      }
    }
  }
}
