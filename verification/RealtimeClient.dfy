/** The realtime subscription multiplexer (client/shell/client/sdk.js: subscribe, reconcile, acceptAcknowledgement,
    receiveFrame, ensureWs, closeSocket, failRealtime, retireSession, activateRealtimeSession), together with a server
    that answers each request once: it grants some of the channels asked for, or drops all of those given up. */
module RealtimeClient {
  import opened Wrappers

  type Channel = string

  datatype Request = Subscribe(channels: set<Channel>) | Unsubscribe(channels: set<Channel>)

  /** The connection's owner object, and what the server and the wire hold for it. */
  datatype Socket = Socket(
    id: nat,
    session: nat,
    lost: bool,
    authenticated: bool,
    granted: set<Channel>,
    denied: set<Channel>,
    pending: Option<Request>,
    closing: bool,
    restart: bool,
    server: set<Channel>,
    outgoing: Option<Request>,
    answer: Option<set<Channel>>)

  /** `sockets` are the connections whose close event has not happened yet. */
  datatype Client = Client(
    subscriptions: map<Channel, nat>,
    socket: Option<Socket>,
    sockets: set<nat>,
    created: nat,
    timer: bool,
    terminal: bool,
    session: nat,
    sessionActive: bool)

  datatype ErrorKind = SessionError | AuthError | OtherError

  datatype Event =
    | SubscribeCall(channel: Channel)
    | UnsubscribeCall(channel: Channel)
    | ReconnectCall
    | ActivateCall
    | RetireCall
    | Connected
    | ServerAnswers(grants: set<Channel>)
    | AnswerArrives
    | BadFrame
    | ErrorFrame(kind: ErrorKind)
    | LinkLost
    | Closed(refused: bool)
    | TimerFires

  // ----- steps -----

  function Wanted(s: Client): set<Channel> {
    s.subscriptions.Keys
  }

  function EnsureWs(s: Client): Client {
    if !s.sessionActive || s.terminal || s.subscriptions == map[] then s
    else if s.socket.Some? then
      if s.socket.value.closing then s.(socket := Some(s.socket.value.(restart := true))) else s
    else if s.timer then s
    else s.(socket := Some(Socket(s.created, s.session, false, false, {}, {}, None, false, false, {}, None, None)),
            sockets := s.sockets + {s.created}, created := s.created + 1)
  }

  function CloseSocket(s: Client, restart: bool): Client {
    var quiet := s.(timer := false);
    if s.socket.None? then quiet
    else quiet.(socket := Some(s.socket.value.(closing := true, restart := s.socket.value.restart || restart)))
  }

  function Retire(s: Client): Client {
    if !s.sessionActive then s
    else
      var ended := s.(sessionActive := false, subscriptions := map[], terminal := true,
                      socket := if s.socket.Some? then Some(s.socket.value.(restart := false)) else None);
      CloseSocket(ended, false)
  }

  function Fail(s: Client, kind: ErrorKind): Client {
    if kind == SessionError then Retire(s) else CloseSocket(s.(terminal := true), false)
  }

  function Reconnect(s: Client): Client {
    if !s.sessionActive then s else EnsureWs(CloseSocket(s.(terminal := false), true))
  }

  function ReconcileSocket(o: Socket, wanted: set<Channel>): Socket {
    if o.closing || !o.authenticated || o.pending.Some? || o.lost then o
    else
      var removed, added := o.granted - wanted, wanted - o.granted - o.denied;
      if removed == {} && added == {} then o
      else
        var request := if removed != {} then Unsubscribe(removed) else Subscribe(added);
        o.(pending := Some(request), outgoing := Some(request))
  }

  function Reconcile(s: Client): Client {
    if s.socket.None? then s else s.(socket := Some(ReconcileSocket(s.socket.value, Wanted(s))))
  }

  /** The pending request is over: what was granted is granted, what was asked for in vain is denied. */
  function Accepted(o: Socket, acknowledged: set<Channel>): Socket
    requires o.pending.Some?
  {
    var free := o.(pending := None, answer := None);
    match o.pending.value
    case Unsubscribe(channels) => free.(granted := o.granted - channels, denied := o.denied - channels)
    case Subscribe(channels) =>
      free.(granted := o.granted + channels * acknowledged, denied := o.denied + (channels - acknowledged))
  }

  function Undeny(s: Client, c: Channel): Client {
    if s.socket.None? then s else s.(socket := Some(s.socket.value.(denied := s.socket.value.denied - {c})))
  }

  function AddSubscription(s: Client, c: Channel): Client {
    if c in s.subscriptions then s.(subscriptions := s.subscriptions[c := s.subscriptions[c] + 1])
    else Undeny(s.(subscriptions := s.subscriptions[c := 1]), c)
  }

  function DropSubscription(s: Client, c: Channel): Client
    requires c in s.subscriptions
  {
    if s.subscriptions[c] > 1 then s.(subscriptions := s.subscriptions[c := s.subscriptions[c] - 1])
    else Undeny(s.(subscriptions := s.subscriptions - {c}), c)
  }

  /** Frames reach the client only while the connection is its own and not on its way out. */
  predicate Listening(s: Client) {
    s.socket.Some? && !s.socket.value.closing && s.socket.value.session == s.session && s.sessionActive
  }

  function ClosedNow(s: Client, refused: bool): Client
    requires s.socket.Some?
  {
    var o := s.socket.value;
    var gone := s.(socket := None, sockets := s.sockets - {o.id});
    if o.closing then if o.restart then EnsureWs(gone) else gone
    else if refused then Fail(gone, AuthError)
    else if s.subscriptions == map[] then gone
    else gone.(timer := true)
  }

  function Step(s: Client, e: Event): Client {
    match e
    case SubscribeCall(c) =>
      if !s.sessionActive || c == "" then s
      else
        var added := AddSubscription(s, c);
        if s.terminal then added else Reconcile(EnsureWs(added))
    case UnsubscribeCall(c) =>
      if !s.sessionActive || c !in s.subscriptions then s
      else
        var dropped := DropSubscription(s, c);
        if dropped.subscriptions == map[] then CloseSocket(dropped, false) else Reconcile(dropped)
    case ReconnectCall => Reconnect(s)
    case ActivateCall => Reconnect(Retire(s).(session := s.session + 1, sessionActive := true))
    case RetireCall => Retire(s)
    case Connected =>
      if !Listening(s) || s.socket.value.authenticated then s
      else Reconcile(s.(socket := Some(s.socket.value.(authenticated := true))))
    case ServerAnswers(grants) =>
      if s.socket.None? || s.socket.value.outgoing.None? then s
      else
        var o := s.socket.value;
        match o.outgoing.value {
          case Subscribe(channels) =>
            s.(socket := Some(o.(server := o.server + channels * grants, outgoing := None,
                                 answer := Some(channels * grants))))
          case Unsubscribe(channels) =>
            s.(socket := Some(o.(server := o.server - channels, outgoing := None, answer := Some(channels))))
        }
    case AnswerArrives =>
      if s.socket.None? || s.socket.value.answer.None? then s
      else if !Listening(s) then s.(socket := Some(s.socket.value.(answer := None)))
      else if s.socket.value.pending.None? then Fail(s, OtherError)
      else Reconcile(s.(socket := Some(Accepted(s.socket.value, s.socket.value.answer.value))))
    case BadFrame => if Listening(s) then Fail(s, OtherError) else s
    case ErrorFrame(kind) => if Listening(s) && kind != OtherError then Fail(s, kind) else s
    case LinkLost => if s.socket.None? then s else s.(socket := Some(s.socket.value.(lost := true)))
    case Closed(refused) => if s.socket.None? then s else ClosedNow(s, refused)
    case TimerFires => if s.timer then EnsureWs(s.(timer := false)) else s
  }

  const INITIAL := Client(map[], None, {}, 0, false, false, 0, true)

  function After(es: seq<Event>, i: nat): Client
    requires i <= |es|
  {
    if i == 0 then INITIAL else Step(After(es, i - 1), es[i - 1])
  }

  // ----- what every step keeps -----

  predicate Talking(o: Socket) {
    o.authenticated && !o.lost && !o.closing
  }

  predicate Settled(o: Socket, wanted: set<Channel>) {
    o.granted <= wanted && wanted <= o.granted + o.denied
  }

  /** Exactly one of request and answer is on the wire while something is pending, and the two sides agree about the
      rest. */
  predicate SocketOk(o: Socket, wanted: set<Channel>) {
    && o.granted !! o.denied
    && (o.pending.None? ==> o.outgoing.None? && o.answer.None? && (!o.closing ==> o.granted == o.server))
    && (o.pending.Some? && !o.closing ==>
          && (o.outgoing.Some? <==> o.answer.None?)
          && (o.outgoing.Some? ==> o.outgoing == o.pending && o.server == o.granted)
          && (match o.pending.value
              case Subscribe(channels) =>
                channels !! o.granted && channels !! o.denied && channels != {}
                && (o.answer.Some? ==> o.answer.value <= channels && o.server == o.granted + o.answer.value)
              case Unsubscribe(channels) =>
                channels <= o.granted && channels != {} && (o.answer.Some? ==> o.server == o.granted - channels)))
    && (o.pending.None? && Talking(o) ==> Settled(o, wanted))
    && (!o.authenticated ==> o.pending.None? && o.granted == {} && o.denied == {})
    && (o.outgoing.None? || o.answer.None?)
  }

  predicate Inv(s: Client) {
    && s.sockets == (if s.socket.Some? then {s.socket.value.id} else {})
    && (forall id :: id in s.sockets ==> id < s.created)
    && (s.socket.Some? ==> SocketOk(s.socket.value, Wanted(s)))
    && (s.socket.Some? && !s.socket.value.closing ==>
        s.sessionActive && !s.terminal && s.socket.value.session == s.session
                                                      && s.subscriptions != map[])
    && (!s.sessionActive ==> s.terminal && s.subscriptions == map[])
    && (s.timer ==> s.socket.None? && !s.terminal && s.sessionActive)
  }

  /** All of a socket's bookkeeping except that it has caught up with the client's wishes. */
  predicate WireOk(o: Socket) {
    SocketOk(o.(lost := true), {})
  }

  lemma WireSettled(o: Socket, wanted: set<Channel>)
    ensures SocketOk(o, wanted) <==> WireOk(o) && (o.pending.None? && Talking(o) ==> Settled(o, wanted))
  {
  }

  /** Reconciling turns any consistent socket into one that is settled or has asked for what it lacks. */
  lemma ReconcileOk(o: Socket, wanted: set<Channel>)
    requires WireOk(o)
    ensures SocketOk(ReconcileSocket(o, wanted), wanted)
  {
    if o.closing || !o.authenticated || o.pending.Some? || o.lost {
      WireSettled(o, wanted);
    } else {
      var removed, added := o.granted - wanted, wanted - o.granted - o.denied;
      if removed == {} && added == {} {
        forall c | c in o.granted
          ensures c in wanted
        {
          assert c !in removed;
        }
        forall c | c in wanted
          ensures c in o.granted + o.denied
        {
          assert c !in added;
        }
      }
    }
  }

  lemma AcceptedOk(o: Socket)
    requires WireOk(o) && o.pending.Some? && o.answer.Some? && !o.closing
    ensures WireOk(Accepted(o, o.answer.value))
  {
    match o.pending.value
    case Subscribe(channels) => assert channels * o.answer.value == o.answer.value;
    case Unsubscribe(_) =>
  }

  lemma ClosingOk(o: Socket, restart: bool, wanted: set<Channel>)
    requires WireOk(o)
    ensures SocketOk(o.(closing := true, restart := restart), wanted)
  {
  }

  /** Nothing but the socket and the timer is touched when closing. */
  lemma CloseInv(s: Client, restart: bool)
    requires s.sockets == (if s.socket.Some? then {s.socket.value.id} else {})
    requires forall id :: id in s.sockets ==> id < s.created
    requires s.socket.Some? ==> WireOk(s.socket.value)
    requires !s.sessionActive ==> s.terminal && s.subscriptions == map[]
    ensures Inv(CloseSocket(s, restart))
  {
    hide WireOk, SocketOk;
    if s.socket.Some? {
      ClosingOk(s.socket.value, s.socket.value.restart || restart, Wanted(s));
    }
  }

  lemma RetireInv(s: Client)
    requires Inv(s)
    ensures Inv(Retire(s)) && !Retire(s).sessionActive
  {
    hide SocketOk, WireOk, CloseSocket;
    if s.sessionActive {
      var ended := s.(sessionActive := false, subscriptions := map[], terminal := true,
                      socket := if s.socket.Some? then Some(s.socket.value.(restart := false)) else None);
      if s.socket.Some? {
        RestartOk(s.socket.value, Wanted(s), false);
      }
      CloseInv(ended, false);
      CloseKeeps(ended, false);
    }
  }

  lemma CloseKeeps(s: Client, restart: bool)
    ensures CloseSocket(s, restart).sessionActive == s.sessionActive && CloseSocket(s, restart).terminal == s.terminal
  {
  }

  lemma RestartOk(o: Socket, wanted: set<Channel>, restart: bool)
    requires SocketOk(o, wanted)
    ensures WireOk(o.(restart := restart)) && SocketOk(o.(restart := restart), wanted)
  {
    WireSettled(o, wanted);
  }

  lemma FailInv(s: Client, kind: ErrorKind)
    requires Inv(s)
    ensures Inv(Fail(s, kind))
  {
    hide SocketOk, WireOk, CloseSocket, Retire;
    RetireInv(s);
    if s.socket.Some? {
      WireSettled(s.socket.value, Wanted(s));
    }
    CloseInv(s.(terminal := true), false);
  }

  lemma EnsureInv(s: Client)
    requires Inv(s)
    ensures Inv(EnsureWs(s))
  {
    hide SocketOk;
    if s.socket.Some? {
      RestartOk(s.socket.value, Wanted(s), true);
    }
    FreshOk(s.created, s.session, Wanted(s));
  }

  lemma FreshOk(id: nat, session: nat, wanted: set<Channel>)
    ensures SocketOk(Socket(id, session, false, false, {}, {}, None, false, false, {}, None, None), wanted)
  {
  }

  lemma ReconnectInv(s: Client)
    requires Inv(s) || (s.sessionActive && s.subscriptions == map[] && exists session ::
                          Inv(s.(session := session, sessionActive := false)))
    ensures Inv(Reconnect(s))
  {
    hide SocketOk, WireOk, CloseSocket, EnsureWs;
    if s.sessionActive {
      if s.socket.Some? {
        WireSettled(s.socket.value, Wanted(s));
      }
      CloseInv(s.(terminal := false), true);
      EnsureInv(CloseSocket(s.(terminal := false), true));
    }
  }

  lemma UndenyOk(o: Socket, wanted: set<Channel>, c: Channel)
    requires SocketOk(o, wanted)
    ensures WireOk(o.(denied := o.denied - {c}))
  {
    WireSettled(o, wanted);
  }

  /** Everything but being settled. */
  predicate Consistent(s: Client) {
    && s.sockets == (if s.socket.Some? then {s.socket.value.id} else {})
    && (forall id :: id in s.sockets ==> id < s.created)
    && (s.socket.Some? ==> WireOk(s.socket.value))
    && (s.socket.Some? && !s.socket.value.closing ==>
        s.sessionActive && !s.terminal && s.socket.value.session == s.session
                                                      && s.subscriptions != map[])
    && (!s.sessionActive ==> s.terminal && s.subscriptions == map[])
    && (s.timer ==> s.socket.None? && !s.terminal && s.sessionActive)
  }

  lemma InvConsistent(s: Client)
    requires Inv(s)
    ensures Consistent(s)
  {
    if s.socket.Some? {
      WireSettled(s.socket.value, Wanted(s));
    }
  }

  lemma ReconcileInv(s: Client)
    requires Consistent(s)
    ensures Inv(Reconcile(s))
  {
    hide SocketOk, WireOk;
    if s.socket.Some? {
      ReconcileOk(s.socket.value, Wanted(s));
    }
  }

  /** With no live socket there is nothing to settle. */
  lemma QuietInv(s: Client)
    requires Consistent(s) && (s.socket.Some? ==> s.socket.value.closing)
    ensures Inv(s)
  {
    if s.socket.Some? {
      WireSettled(s.socket.value, Wanted(s));
    }
  }

  lemma AddConsistent(s: Client, c: Channel)
    requires Inv(s) && s.sessionActive
    ensures Consistent(AddSubscription(s, c)) && AddSubscription(s, c).terminal == s.terminal
  {
    hide SocketOk, WireOk;
    InvConsistent(s);
    if s.socket.Some? {
      UndenyOk(s.socket.value, Wanted(s), c);
    }
  }

  lemma DropConsistent(s: Client, c: Channel)
    requires Inv(s) && s.sessionActive && c in s.subscriptions
    ensures var t := DropSubscription(s, c); Consistent(t) || (t.subscriptions == map[] && Inv(CloseSocket(t, false)))
  {
    hide SocketOk, WireOk, CloseSocket;
    InvConsistent(s);
    if s.socket.Some? {
      UndenyOk(s.socket.value, Wanted(s), c);
    }
    var t := DropSubscription(s, c);
    CloseInv(t, false);
  }

  lemma EnsureConsistent(s: Client)
    requires Consistent(s)
    ensures Consistent(EnsureWs(s))
  {
    hide SocketOk;
    if s.socket.Some? {
      RestartWire(s.socket.value);
    }
    FreshOk(s.created, s.session, {});
    WireSettled(Socket(s.created, s.session, false, false, {}, {}, None, false, false, {}, None, None), {});
  }

  lemma RestartWire(o: Socket)
    requires WireOk(o)
    ensures WireOk(o.(restart := true))
  {
  }

  lemma CallInv(s: Client, e: Event)
    requires Inv(s) && (e.SubscribeCall? || e.UnsubscribeCall?)
    ensures Inv(Step(s, e))
  {
    hide Inv, Consistent, CloseSocket, EnsureWs, Reconcile, AddSubscription, DropSubscription;
    if s.sessionActive {
      match e
      case SubscribeCall(c) =>
        AddConsistent(s, c);
        var added := AddSubscription(s, c);
        if s.terminal {
          TerminalQuiet(added);
        } else {
          EnsureConsistent(added);
          ReconcileInv(EnsureWs(added));
        }
      case UnsubscribeCall(c) =>
        if c in s.subscriptions {
          DropConsistent(s, c);
          var dropped := DropSubscription(s, c);
          if dropped.subscriptions == map[] {
            DroppedAll(s, c);
          } else {
            ReconcileInv(dropped);
          }
        }
    }
  }

  lemma TerminalQuiet(s: Client)
    requires Consistent(s) && s.terminal
    ensures Inv(s)
  {
    QuietInv(s);
  }

  lemma DroppedAll(s: Client, c: Channel)
    requires Inv(s) && s.sessionActive && c in s.subscriptions && DropSubscription(s, c).subscriptions == map[]
    ensures Inv(CloseSocket(DropSubscription(s, c), false))
  {
    hide SocketOk, WireOk, CloseSocket;
    InvConsistent(s);
    if s.socket.Some? {
      UndenyOk(s.socket.value, Wanted(s), c);
    }
    CloseInv(DropSubscription(s, c), false);
  }

  /** The server's side of a request. */
  lemma ServerInv(s: Client, grants: set<Channel>)
    requires Inv(s)
    ensures Inv(Step(s, ServerAnswers(grants)))
  {
    if s.socket.Some? && s.socket.value.outgoing.Some? {
      var o, t := s.socket.value, Step(s, ServerAnswers(grants));
      if !o.closing {
        assert SocketOk(t.socket.value, Wanted(t));
      }
    }
  }

  lemma AnswerInv(s: Client)
    requires Inv(s)
    ensures Inv(Step(s, AnswerArrives))
  {
    hide Reconcile, Fail, Accepted;
    if s.socket.Some? && s.socket.value.answer.Some? {
      var o := s.socket.value;
      WireSettled(o, Wanted(s));
      if Listening(s) {
        assert o.pending.Some?;
        AcceptedOk(o);
        AcceptedFrame(o);
        ReconcileInv(s.(socket := Some(Accepted(o, o.answer.value))));
      }
    }
  }

  lemma AcceptedFrame(o: Socket)
    requires o.pending.Some? && o.answer.Some?
    ensures var t := Accepted(o, o.answer.value); t.id == o.id && t.closing == o.closing && t.session == o.session
  {
  }

  lemma ConnectedInv(s: Client)
    requires Inv(s) && Listening(s) && !s.socket.value.authenticated
    ensures Inv(Step(s, Connected))
  {
    hide Reconcile;
    var o := s.socket.value.(authenticated := true);
    WireSettled(s.socket.value, Wanted(s));
    assert WireOk(o);
    ReconcileInv(s.(socket := Some(o)));
  }

  lemma ClosedInv(s: Client, refused: bool)
    requires Inv(s) && s.socket.Some?
    ensures Inv(ClosedNow(s, refused))
  {
    hide SocketOk, EnsureWs, Fail;
    var gone := s.(socket := None, sockets := s.sockets - {s.socket.value.id});
    assert Inv(gone);
    EnsureInv(gone);
    FailInv(gone, AuthError);
  }

  lemma StepInv(s: Client, e: Event)
    requires Inv(s)
    ensures Inv(Step(s, e))
  {
    hide Inv, Retire, Reconnect, EnsureWs, Fail, CloseSocket, Reconcile, ClosedNow, Accepted, AddSubscription,
        DropSubscription;
    match e
    case SubscribeCall(_) => CallInv(s, e);
    case UnsubscribeCall(_) => CallInv(s, e);
    case ReconnectCall => ReconnectInv(s);
    case ActivateCall => ActivateInv(s);
    case RetireCall => RetireInv(s);
    case Connected =>
      if Listening(s) && !s.socket.value.authenticated {
        ConnectedInv(s);
      }
    case ServerAnswers(grants) => ServerInv(s, grants);
    case AnswerArrives => AnswerInv(s);
    case BadFrame => FailInv(s, OtherError);
    case ErrorFrame(kind) => FailInv(s, kind);
    case LinkLost => LostInv(s);
    case Closed(refused) =>
      if s.socket.Some? {
        ClosedInv(s, refused);
      }
    case TimerFires => TimerInv(s);
  }

  lemma ActivateInv(s: Client)
    requires Inv(s)
    ensures Inv(Reconnect(Retire(s).(session := s.session + 1, sessionActive := true)))
  {
    hide SocketOk, Retire, Reconnect;
    RetireInv(s);
    var t := Retire(s).(session := s.session + 1, sessionActive := true);
    assert t.(session := Retire(s).session, sessionActive := false) == Retire(s);
    ReconnectInv(t);
  }

  lemma LostInv(s: Client)
    requires Inv(s)
    ensures Inv(Step(s, LinkLost))
  {
    if s.socket.Some? {
      WireSettled(s.socket.value, Wanted(s));
      WireSettled(s.socket.value.(lost := true), Wanted(s));
    }
  }

  lemma TimerInv(s: Client)
    requires Inv(s)
    ensures Inv(Step(s, TimerFires))
  {
    hide SocketOk, EnsureWs;
    if s.timer {
      EnsureInv(s.(timer := false));
    }
  }

  // ----- whole runs -----

  lemma {:induction false} RunInv(es: seq<Event>, i: nat)
    requires i <= |es|
    ensures Inv(After(es, i))
  {
    hide Step;
    if i > 0 {
      RunInv(es, i - 1);
      StepInv(After(es, i - 1), es[i - 1]);
    }
  }

  /** In every run: at most one connection is alive, at most one request or answer is on its way: the pending one. */
  lemma OneSocketOneRequest(es: seq<Event>, i: nat)
    requires i <= |es|
    ensures var s := After(es, i);
            && (forall a, b :: a in s.sockets && b in s.sockets ==> a == b)
            && (s.socket.Some? ==>
                  && s.sockets == {s.socket.value.id}
                  && (s.socket.value.outgoing.None? || s.socket.value.answer.None?)
                  && (s.socket.value.outgoing.Some? || s.socket.value.answer.Some? ==> s.socket.value.pending.Some?)
                  && (s.socket.value.outgoing.Some? && !s.socket.value.closing ==>
                        s.socket.value.outgoing == s.socket.value.pending))
  {
    RunInv(es, i);
  }

  /** In every run, when nothing is pending on a live authenticated connection the client's granted set is the server's,
      holds nothing unwanted, and everything wanted was granted or refused. */
  lemma IdleMeansAgreed(es: seq<Event>, i: nat)
    requires i <= |es|
    ensures var s := After(es, i);
            s.socket.Some? && Talking(s.socket.value) && s.socket.value.pending.None? ==>
              && s.socket.value.granted == s.socket.value.server
              && s.socket.value.granted <= Wanted(s) <= s.socket.value.granted + s.socket.value.denied
              && s.socket.value.granted !! s.socket.value.denied
  {
    RunInv(es, i);
  }

  /** One round trip: the server answers with some grants and the answer arrives. */
  function RoundTrip(s: Client, grants: set<Channel>): Client {
    var t := if s.socket.Some? && s.socket.value.answer.Some? then s else Step(s, ServerAnswers(grants));
    Step(t, AnswerArrives)
  }

  predicate Busy(s: Client) {
    s.socket.Some? && s.socket.value.pending.Some?
  }

  predicate Online(s: Client) {
    s.socket.Some? && Talking(s.socket.value)
  }

  /** The same on the socket alone. */
  function Answered(o: Socket, grants: set<Channel>): Socket
    requires o.pending.Some?
  {
    if o.answer.Some? then o
    else match o.pending.value
      case Subscribe(channels) => o.(server := o.server + channels * grants, outgoing := None,
                                     answer := Some(channels * grants))
      case Unsubscribe(channels) => o.(server := o.server - channels, outgoing := None, answer := Some(channels))
  }

  lemma RoundTripSocket(s: Client, grants: set<Channel>)
    requires Inv(s) && Online(s) && Busy(s)
    ensures var o := s.socket.value;
            && Answered(o, grants).answer.Some? && Answered(o, grants).pending.Some?
            && RoundTrip(s, grants)
            == s.(socket := Some(ReconcileSocket(Accepted(Answered(o, grants), Answered(o, grants).answer.value),
                                                 Wanted(s))))
  {
    hide ReconcileSocket, Accepted;
  }

  lemma RoundTripInv(s: Client, grants: set<Channel>)
    requires Inv(s)
    ensures Inv(RoundTrip(s, grants))
  {
    hide Step, Inv;
    StepInv(s, ServerAnswers(grants));
    StepInv(s, AnswerArrives);
    StepInv(Step(s, ServerAnswers(grants)), AnswerArrives);
  }

  /** The pending request is exactly what reconciling asks for now. */
  predicate UpToDate(o: Socket, wanted: set<Channel>) {
    o.pending == Some(if o.granted - wanted != {} then Unsubscribe(o.granted - wanted)
                      else Subscribe(wanted - o.granted - o.denied))
  }

  /** A round trip leaves a connection that is done or whose request is up to date; one that gave up channels leaves at
      most a subscription to ask for, and a subscription up to date leaves nothing. */
  lemma AfterRoundTrip(s: Client, grants: set<Channel>)
    requires Inv(s) && Online(s) && Busy(s)
    ensures var t, o := RoundTrip(s, grants), s.socket.value;
            && Online(t) && Wanted(t) == Wanted(s)
            && (Busy(t) ==> UpToDate(t.socket.value, Wanted(s)))
            && (UpToDate(o, Wanted(s)) && o.granted - Wanted(s) != {} ==> t.socket.value.granted - Wanted(s) == {})
            && (UpToDate(o, Wanted(s)) && o.granted - Wanted(s) == {} ==> !Busy(t))
  {
    hide Inv, RoundTrip, SocketOk;
    RoundTripSocket(s, grants);
    var o, wanted := s.socket.value, Wanted(s);
    if UpToDate(o, wanted) {
      var a := Answered(o, grants);
      var accepted := Accepted(a, a.answer.value);
      if o.granted - wanted != {} {
        assert accepted.granted == o.granted - (o.granted - wanted);
        assert accepted.granted - wanted == {};
      } else {
        BusyAnswer(s);
        NothingLeft(o, a, wanted);
      }
    }
  }

  lemma BusyAnswer(s: Client)
    requires Inv(s) && Online(s) && Busy(s)
    ensures SocketOk(s.socket.value, Wanted(s))
  {
  }

  lemma NothingLeft(o: Socket, a: Socket, wanted: set<Channel>)
    requires SocketOk(o, wanted) && !o.closing && UpToDate(o, wanted) && o.granted - wanted == {}
    requires a.answer.Some? && a.granted == o.granted && a.denied == o.denied && a.pending == o.pending
    ensures var t := Accepted(a, a.answer.value); t.granted - wanted == {} && wanted - t.granted - t.denied == {}
  {
    var t := Accepted(a, a.answer.value);
    var channels := wanted - o.granted - o.denied;
    forall c | c in t.granted
      ensures c in wanted
    {
      assert c in o.granted || c in channels;
      assert c in o.granted ==> c !in o.granted - wanted ==> c in wanted;
    }
    forall c | c in wanted
      ensures c in t.granted + t.denied
    {
      assert c in o.granted || c in o.denied || c in channels;
    }
  }

  function Tried(s: Client, grants: set<Channel>): Client {
    if Busy(s) then RoundTrip(s, grants) else s
  }

  /** From any reachable connected state, with no further calls: finish the request under way, if any, and at most two
      more round trips later, whatever the server grants, client and server agree and every wish is granted or
      refused. */
  lemma Converges(es: seq<Event>, i: nat, g0: set<Channel>, g1: set<Channel>, g2: set<Channel>)
    requires i <= |es| && Online(After(es, i))
    ensures var s := After(es, i);
            var t := Tried(Tried(Tried(s, g0), g1), g2);
            && Online(t) && !Busy(t) && Wanted(t) == Wanted(s)
            && t.socket.value.granted == t.socket.value.server
            && t.socket.value.granted <= Wanted(s) <= t.socket.value.granted + t.socket.value.denied
  {
    hide Step, RoundTrip, Inv;
    RunInv(es, i);
    var s := After(es, i);
    TriedOnce(s, g0);
    var s0 := Tried(s, g0);
    TriedOnce(s0, g1);
    var s1 := Tried(s0, g1);
    TriedOnce(s1, g2);
    Agreed(Tried(s1, g2));
  }

  lemma TriedOnce(s: Client, grants: set<Channel>)
    requires Inv(s) && Online(s)
    ensures var t := Tried(s, grants);
            && Inv(t) && Online(t) && Wanted(t) == Wanted(s)
            && (Busy(t) ==> Busy(s) && UpToDate(t.socket.value, Wanted(t)))
            && (Busy(t) && UpToDate(s.socket.value, Wanted(s)) ==> t.socket.value.granted - Wanted(t) == {})
            && (UpToDate(s.socket.value, Wanted(s)) && s.socket.value.granted - Wanted(s) == {} ==> !Busy(t))
  {
    hide Step, RoundTrip, Inv;
    if Busy(s) {
      RoundTripInv(s, grants);
      AfterRoundTrip(s, grants);
    }
  }

  lemma Agreed(s: Client)
    requires Inv(s) && Online(s) && !Busy(s)
    ensures s.socket.value.granted == s.socket.value.server
    ensures s.socket.value.granted <= Wanted(s) <= s.socket.value.granted + s.socket.value.denied
  {
  }

  // ----- the module's variables as an object -----

  class Multiplexer {
    var subscriptions: map<Channel, nat>
    var socket: Option<Socket>
    var sockets: set<nat>
    var created: nat
    var timer: bool
    var terminal: bool
    var session: nat
    var sessionActive: bool

    function View(): Client
      reads this
    {
      Client(subscriptions, socket, sockets, created, timer, terminal, session, sessionActive)
    }

    constructor ()
      ensures View() == INITIAL && Inv(View())
    {
      subscriptions, socket, sockets, created := map[], None, {}, 0;
      timer, terminal, session, sessionActive := false, false, 0, true;
    }

    method EnsureSocket()
      modifies this
      ensures View() == EnsureWs(old(View()))
    {
      if !sessionActive || terminal || subscriptions == map[] {
        return;
      }
      if socket.Some? {
        if socket.value.closing {
          socket := Some(socket.value.(restart := true));
        }
        return;
      }
      if timer {
        return;
      }
      socket := Some(Socket(created, session, false, false, {}, {}, None, false, false, {}, None, None));
      sockets := sockets + {created};
      created := created + 1;
    }

    method CloseOwned(restart: bool)
      modifies this`timer, this`socket
      ensures View() == CloseSocket(old(View()), restart)
    {
      timer := false;
      if socket.Some? {
        socket := Some(socket.value.(closing := true, restart := socket.value.restart || restart));
      }
    }

    method RetireSession()
      modifies this
      ensures View() == Retire(old(View()))
    {
      hide CloseSocket;
      if !sessionActive {
        return;
      }
      sessionActive := false;
      subscriptions := map[];
      if socket.Some? {
        socket := Some(socket.value.(restart := false));
      }
      terminal := true;
      CloseOwned(false);
    }

    method FailWith(kind: ErrorKind)
      modifies this
      ensures View() == Fail(old(View()), kind)
    {
      hide CloseSocket, Retire;
      if kind == SessionError {
        RetireSession();
        return;
      }
      terminal := true;
      CloseOwned(false);
    }

    method ReconcileNow()
      modifies this`socket
      ensures View() == Reconcile(old(View()))
    {
      if socket.None? {
        return;
      }
      var o := socket.value;
      if o.closing || !o.authenticated || o.pending.Some? || o.lost {
        return;
      }
      var removed := o.granted - subscriptions.Keys;
      var added := subscriptions.Keys - o.granted - o.denied;
      if removed == {} && added == {} {
        return;
      }
      var request := if removed != {} then Request.Unsubscribe(removed) else Request.Subscribe(added);
      socket := Some(o.(pending := Some(request), outgoing := Some(request)));
    }

    /** Channel by channel through the pending request. */
    method AcceptAcknowledgement(acknowledged: set<Channel>)
      requires socket.Some? && socket.value.pending.Some?
      modifies this`socket
      ensures View() == old(View()).(socket := Some(Accepted(old(socket.value), acknowledged)))
    {
      var pending := socket.value.pending.value;
      socket := Some(socket.value.(pending := None, answer := None));
      ghost var start := socket.value;
      var todo := pending.channels;
      while todo != {}
        invariant todo <= pending.channels && socket.Some?
        invariant socket.value == start.(granted := socket.value.granted, denied := socket.value.denied)
        invariant var done := pending.channels - todo;
                  if pending.Unsubscribe?
                  then socket.value.granted == start.granted - done && socket.value.denied == start.denied - done
                  else socket.value.granted == start.granted + done * acknowledged
                       && socket.value.denied == start.denied + (done - acknowledged)
        decreases |todo|
      {
        var channel :| channel in todo;
        var o := socket.value;
        if pending.Unsubscribe? {
          socket := Some(o.(granted := o.granted - {channel}, denied := o.denied - {channel}));
        } else if channel in acknowledged {
          socket := Some(o.(granted := o.granted + {channel}));
        } else {
          socket := Some(o.(denied := o.denied + {channel}));
        }
        todo := todo - {channel};
      }
      assert pending.channels - todo == pending.channels;
    }

    method OnAnswer()
      requires Inv(View())
      modifies this
      ensures Inv(View()) && View() == Step(old(View()), AnswerArrives)
    {
      hide Inv, Accepted, Reconcile, Fail;
      StepInv(View(), AnswerArrives);
      if socket.None? || socket.value.answer.None? {
        return;
      }
      if socket.value.closing || socket.value.session != session || !sessionActive {
        socket := Some(socket.value.(answer := None));
        return;
      }
      if socket.value.pending.None? {
        FailWith(OtherError);
        return;
      }
      AcceptAcknowledgement(socket.value.answer.value);
      ReconcileNow();
    }

    method SubscribeTo(c: Channel)
      requires Inv(View())
      modifies this
      ensures Inv(View()) && View() == Step(old(View()), SubscribeCall(c))
    {
      hide Inv, EnsureWs, Reconcile;
      StepInv(View(), SubscribeCall(c));
      if !sessionActive || c == "" {
        return;
      }
      if c in subscriptions {
        subscriptions := subscriptions[c := subscriptions[c] + 1];
      } else {
        subscriptions := subscriptions[c := 1];
        if socket.Some? {
          socket := Some(socket.value.(denied := socket.value.denied - {c}));
        }
      }
      if !terminal {
        EnsureSocket();
        ReconcileNow();
      }
    }

    method UnsubscribeFrom(c: Channel)
      requires Inv(View())
      modifies this
      ensures Inv(View()) && View() == Step(old(View()), UnsubscribeCall(c))
    {
      hide Inv, CloseSocket, Reconcile;
      StepInv(View(), UnsubscribeCall(c));
      if !sessionActive || c !in subscriptions {
        return;
      }
      if subscriptions[c] > 1 {
        subscriptions := subscriptions[c := subscriptions[c] - 1];
      } else {
        subscriptions := subscriptions - {c};
        if socket.Some? {
          socket := Some(socket.value.(denied := socket.value.denied - {c}));
        }
      }
      if subscriptions == map[] {
        CloseOwned(false);
      } else {
        ReconcileNow();
      }
    }

    method OnClose(refused: bool)
      requires Inv(View()) && socket.Some?
      modifies this
      ensures Inv(View()) && View() == Step(old(View()), Closed(refused))
    {
      hide Inv, EnsureWs, Fail;
      StepInv(View(), Closed(refused));
      var owner := socket.value;
      socket := None;
      sockets := sockets - {owner.id};
      if owner.closing {
        if owner.restart {
          EnsureSocket();
        }
        return;
      }
      if refused {
        FailWith(AuthError);
        return;
      }
      if subscriptions != map[] {
        timer := true;
      }
    }

    method ReconnectSession()
      requires Inv(View())
      modifies this
      ensures Inv(View()) && View() == Step(old(View()), ReconnectCall)
    {
      hide Inv, CloseSocket, EnsureWs;
      StepInv(View(), ReconnectCall);
      if sessionActive {
        terminal := false;
        CloseOwned(true);
        EnsureSocket();
      }
    }
  }
}
