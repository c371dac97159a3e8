/**
 The client's side of the WebSocket closing handshake (section 5.5.1 of RFC 6455), from one call of
 `connect` on. API calls, timers and transport events come in any order; handling a close frame from
 the peer is two steps, because the user's close callback runs in the middle of it and may call back in.
 */
module CloseProtocol {
  import opened FrameCodec

  datatype Phase = Disconnected | Handshake | Connected | Closing

  /** The transport of this connection attempt: not up yet, up, or gone for good. */
  datatype Transport = Pending | Up | Gone

  datatype Session = Session(
    phase: Phase,
    connected: bool,
    closeFrameSent: bool,
    closeNotified: bool,
    answering: bool,
    transport: Transport,
    sent: seq<FrameType>,
    notices: nat)

  /** The state `connect` leaves behind. */
  const START := Session(Disconnected, false, false, false, false, Pending, [], 0)

  /** What can happen. `ok` is whether the transport takes the frame that is sent. */
  datatype Event =
    | TransportUp
    | HandshakeDone
    | SendCall(kind: FrameType, ok: bool)
    | CloseCall(ok: bool)
    | PingTimer(ok: bool)
    | PeerPing(ok: bool)
    | PeerClose
    | PeerCloseAnswered(ok: bool)
    | TransportGone

  /** A frame handed to the transport, which takes it only while it is up. */
  function Send(s: Session, kind: FrameType, ok: bool): Session {
    if ok && s.transport == Up then s.(sent := s.sent + [kind]) else s
  }

  /** `notifyClose` */
  function Notify(s: Session): Session {
    if s.closeNotified then s else s.(closeNotified := true, notices := s.notices + 1)
  }

  function Step(s: Session, e: Event): Session {
    match e
    case TransportUp =>
      if s.transport == Pending then s.(transport := Up, connected := false, phase := Handshake) else s
    case HandshakeDone =>
      if s.phase == Handshake then s.(phase := Connected, connected := true) else s
    case SendCall(kind, ok) =>
      if s.connected && s.phase == Connected && (kind == Text || kind == Binary) then Send(s, kind, ok) else s
    case CloseCall(ok) =>
      if s.phase == Disconnected || s.phase == Closing then s
      else if s.connected then Send(s.(phase := Closing, closeFrameSent := true), Close, ok)
      else s.(phase := Closing)
    case PingTimer(ok) =>
      if s.connected && s.phase == Connected then Send(s, Ping, ok) else s
    case PeerPing(ok) =>
      if s.phase == Connected || s.phase == Closing then Send(s, Pong, ok) else s
    case PeerClose =>
      if s.phase == Connected || s.phase == Closing then Notify(s).(answering := true) else s
    case PeerCloseAnswered(ok) =>
      if !s.answering then s
      else if s.closeFrameSent then s.(answering := false)
      else Send(s.(answering := false, phase := Closing, closeFrameSent := true), Close, ok)
    case TransportGone =>
      var open := s.connected || s.phase == Closing;
      var down := s.(connected := false, closeFrameSent := false, phase := Disconnected, transport := Gone);
      if open then Notify(down) else down
  }

  function Run(events: seq<Event>): Session {
    if events == [] then START else Step(Run(events[..|events| - 1]), events[|events| - 1])
  }

  /** Data frames and a second close frame are forbidden behind a close frame. */
  predicate Orderly(sent: seq<FrameType>) {
    forall i, j :: 0 <= i < j < |sent| && sent[i] == Close ==> sent[j] == Ping || sent[j] == Pong
  }

  predicate Sound(s: Session) {
    && Orderly(s.sent)
    && s.notices == (if s.closeNotified then 1 else 0)
    && (s.transport == Pending ==> s.phase == Disconnected && !s.connected && s.sent == [])
    && (s.transport == Pending ==> !s.closeFrameSent && !s.answering)
    && (s.transport == Up ==> s.phase != Disconnected && (s.connected ==> s.phase != Handshake))
    && (s.transport == Up && Close in s.sent ==> s.closeFrameSent)
    && (s.transport == Up && s.closeFrameSent ==> s.phase == Closing)
    && (s.phase == Connected ==> s.connected)
    && (s.transport == Gone && s.phase == Closing ==> s.closeNotified)
    && (s.transport == Gone ==> s.phase == Disconnected || s.phase == Closing)
    && (s.answering ==> s.closeNotified)
    && (s.transport == Gone ==> !s.connected)
  }

  lemma StepSound(s: Session, e: Event)
    requires Sound(s)
    ensures Sound(Step(s, e))
  {
  }

  /**
   Whatever happens after `connect`, in any order: the protocol's order of frames is kept and the close
   callback runs at most once.
   */
  lemma {:induction false} AlwaysSound(events: seq<Event>)
    ensures Sound(Run(events))
    ensures Orderly(Run(events).sent) && Run(events).notices <= 1
  {
    if events != [] {
      AlwaysSound(events[..|events| - 1]);
      StepSound(Run(events[..|events| - 1]), events[|events| - 1]);
    }
  }

  function Count(sent: seq<FrameType>, kind: FrameType): nat {
    if sent == [] then 0 else Count(sent[..|sent| - 1], kind) + if sent[|sent| - 1] == kind then 1 else 0
  }

  lemma {:induction false} OneClose(sent: seq<FrameType>)
    requires Orderly(sent)
    ensures Count(sent, Close) <= 1 && (Count(sent, Close) == 0 <==> Close !in sent)
  {
    if sent != [] {
      var last := |sent| - 1;
      OneClose(sent[..last]);
      assert Close in sent[..last] ==> sent[last] != Close;
      assert Close in sent <==> Close in sent[..last] || sent[last] == Close;
    }
  }

  /** At most one close frame is sent, and behind it no text or binary frame. */
  lemma ClosesAtMostOnce(events: seq<Event>)
    ensures Count(Run(events).sent, Close) <= 1
    ensures forall i, j :: 0 <= i < j < |Run(events).sent| && Run(events).sent[i] == Close ==>
      Run(events).sent[j] != Text && Run(events).sent[j] != Binary
  {
    AlwaysSound(events);
    OneClose(Run(events).sent);
  }

  /** What any step may add to what was sent: nothing or one frame, and behind a close frame only ping or pong. */
  predicate Extends(before: seq<FrameType>, after: seq<FrameType>) {
    || after == before
    || exists kind :: after == before + [kind] && (Close in before ==> kind == Ping || kind == Pong)
  }

  lemma StepExtends(s: Session, e: Event)
    requires Sound(s)
    ensures Extends(s.sent, Step(s, e).sent) && s.notices <= Step(s, e).notices <= 1
  {
    StepSound(s, e);
    hide Orderly;
  }

  /**
   When the transport goes, the close callback has run exactly once if the session had been opened, or
   was being closed, and never otherwise.
   */
  lemma ToldExactlyOnce(events: seq<Event>)
    requires Run(events).transport == Up
    ensures var s := Run(events);
      Step(s, TransportGone).notices == if s.connected || s.phase == Closing then 1 else 0
  {
    AlwaysSound(events);
    NotifiedMeansOpen(events);
  }

  /** While the transport is up the close callback runs only for an open or closing session. */
  lemma {:induction false} NotifiedMeansOpen(events: seq<Event>)
    ensures var s := Run(events); s.closeNotified && s.transport == Up ==> s.connected || s.phase == Closing
    ensures var s := Run(events); s.transport == Pending ==> !s.closeNotified
  {
    if events != [] {
      NotifiedMeansOpen(events[..|events| - 1]);
      AlwaysSound(events[..|events| - 1]);
    }
  }

  /** A close frame from the peer on an open connection that takes it is answered, unless one was sent already. */
  lemma PeerCloseIsAnswered(events: seq<Event>)
    requires Run(events).transport == Up && Run(events).phase == Connected
    ensures Close in Step(Step(Run(events), PeerClose), PeerCloseAnswered(true)).sent
  {
    AlwaysSound(events);
  }

  // ---------------------------------------------------------------- the object

  class Client {
    var phase: Phase
    var connected: bool
    var closeFrameSent: bool
    var closeNotified: bool
    var answering: bool
    var transport: Transport
    var sent: seq<FrameType>
    var notices: nat

    ghost function State(): Session
      reads this
    {
      Session(phase, connected, closeFrameSent, closeNotified, answering, transport, sent, notices)
    }

    ghost predicate Valid()
      reads this
    {
      Sound(State())
    }

    constructor ()
      ensures Valid() && State() == START
    {
      phase, connected, closeFrameSent, closeNotified, answering := Disconnected, false, false, false, false;
      transport, sent, notices := Pending, [], 0;
    }

    method TransportSend(kind: FrameType, ok: bool)
      modifies `sent
      ensures State() == Send(old(State()), kind, ok)
    {
      if ok && transport == Up {
        sent := sent + [kind];
      }
    }

    method NotifyClose()
      modifies `closeNotified, `notices
      ensures State() == Notify(old(State()))
    {
      if closeNotified {
        return;
      }
      closeNotified := true;
      notices := notices + 1;
    }

    method HandleTcpConnected()
      requires Valid()
      modifies this
      ensures Valid() && State() == Step(old(State()), TransportUp)
      ensures sent == old(sent) && notices == old(notices)
    {
      StepSound(State(), TransportUp);
      if transport == Pending {
        transport := Up;
        connected := false;
        phase := Handshake;
      }
    }

    method HandleHandshakeResponse()
      requires Valid()
      modifies this
      ensures Valid() && State() == Step(old(State()), HandshakeDone)
      ensures sent == old(sent) && notices == old(notices)
    {
      StepSound(State(), HandshakeDone);
      if phase == Handshake {
        phase := Connected;
        connected := true;
      }
    }

    /** A message goes out exactly if the session is open and the transport takes it, and never behind a close frame. */
    method SendMessage(kind: FrameType, ok: bool)
      requires Valid() && (kind == Text || kind == Binary)
      modifies this
      ensures Valid() && State() == Step(old(State()), SendCall(kind, ok))
      ensures sent == if ok && transport == Up && phase == Connected then old(sent) + [kind] else old(sent)
      ensures Close in old(sent) ==> sent == old(sent)
    {
      StepSound(State(), SendCall(kind, ok));
      if connected && phase == Connected {
        TransportSend(kind, ok);
      }
    }

    /** However often it is called, one close frame goes out at most, and no message is taken from then on. */
    method CloseSession(ok: bool)
      requires Valid()
      modifies this
      ensures Valid() && State() == Step(old(State()), CloseCall(ok))
      ensures phase != Connected && phase != Handshake
      ensures sent == old(sent) || (Close !in old(sent) && sent == old(sent) + [Close])
      ensures ok && old(transport == Up && phase == Connected) ==> Close in sent
    {
      StepSound(State(), CloseCall(ok));
      if phase == Disconnected || phase == Closing {
        return;
      }
      phase := Closing;
      if connected {
        closeFrameSent := true;
        TransportSend(Close, ok);
      }
    }

    method SendPing(ok: bool)
      requires Valid()
      modifies this
      ensures Valid() && State() == Step(old(State()), PingTimer(ok))
      ensures sent == old(sent) || (Close !in old(sent) && sent == old(sent) + [Ping])
    {
      StepSound(State(), PingTimer(ok));
      if connected && phase == Connected {
        TransportSend(Ping, ok);
      }
    }

    /** A ping is answered as long as the transport is up and the session open or closing, behind a close frame too. */
    method HandlePing(ok: bool)
      requires Valid()
      modifies this
      ensures Valid() && State() == Step(old(State()), PeerPing(ok))
      ensures sent == if ok && transport == Up && (phase == Connected || phase == Closing) then old(sent) + [Pong]
        else old(sent)
    {
      StepSound(State(), PeerPing(ok));
      if phase == Connected || phase == Closing {
        TransportSend(Pong, ok);
      }
    }

    /** The first half of handling a close frame: the user of an open or closing session has then been told, once. */
    method HandleClose()
      requires Valid()
      modifies this
      ensures Valid() && State() == Step(old(State()), PeerClose)
      ensures sent == old(sent) && (phase == Connected || phase == Closing ==> notices == 1)
    {
      StepSound(State(), PeerClose);
      if phase == Connected || phase == Closing {
        NotifyClose();
        answering := true;
      }
    }

    /** The second half: the close frame is answered, if the user's callback has not sent one. */
    method AnswerClose(ok: bool)
      requires Valid()
      modifies this
      ensures Valid() && State() == Step(old(State()), PeerCloseAnswered(ok))
      ensures sent == old(sent) || (Close !in old(sent) && sent == old(sent) + [Close])
      ensures ok && old(answering && transport == Up && phase == Connected) ==> Close in sent
    {
      StepSound(State(), PeerCloseAnswered(ok));
      if answering {
        answering := false;
        if !closeFrameSent {
          closeFrameSent := true;
          phase := Closing;
          TransportSend(Close, ok);
        }
      }
    }

    /** The session is down, and the user of one that was open or closing has been told exactly once. */
    method HandleDisconnected()
      requires Valid()
      modifies this
      ensures Valid() && State() == Step(old(State()), TransportGone)
      ensures !connected && phase == Disconnected && sent == old(sent)
      ensures old(connected || phase == Closing) ==> notices == 1
    {
      StepSound(State(), TransportGone);
      var shouldNotifyClose := connected || phase == Closing;
      connected := false;
      closeFrameSent := false;
      phase := Disconnected;
      transport := Gone;
      if shouldNotifyClose {
        NotifyClose();
      }
    }

    /** Whatever happens, handled one after the other by the object. */
    method Handle(e: Event)
      requires Valid()
      modifies this
      ensures Valid() && State() == Step(old(State()), e)
      ensures Extends(old(sent), sent) && old(notices) <= notices <= 1
    {
      StepExtends(State(), e);
      match e
      case TransportUp => HandleTcpConnected();
      case HandshakeDone => HandleHandshakeResponse();
      case SendCall(kind, ok) =>
        if kind == Text || kind == Binary {
          SendMessage(kind, ok);
        }
      case CloseCall(ok) => CloseSession(ok);
      case PingTimer(ok) => SendPing(ok);
      case PeerPing(ok) => HandlePing(ok);
      case PeerClose => HandleClose();
      case PeerCloseAnswered(ok) => AnswerClose(ok);
      case TransportGone => HandleDisconnected();
    }
  }

  /**
   From `connect` on, a client that goes through any events has sent at most one close frame and told its user
   once at most.
   */
  method Live(events: seq<Event>) returns (client: Client)
    ensures fresh(client) && client.Valid() && client.State() == Run(events)
    ensures Count(client.sent, Close) <= 1 && client.notices <= 1
    ensures forall i, j :: 0 <= i < j < |client.sent| && client.sent[i] == Close ==>
      client.sent[j] != Text && client.sent[j] != Binary
  {
    client := new Client();
    assert events[..0] == [];
    for i := 0 to |events|
      invariant fresh(client) && client.Valid() && client.State() == Run(events[..i])
    {
      hide Sound; hide Step;
      assert events[..i + 1][..i] == events[..i];
      client.Handle(events[i]);
    }
    assert events[..|events|] == events;
    ClosesAtMostOnce(events);
    AlwaysSound(events);
  }
}
