/**
 * What every event does to the connection, as one table (Source/Raw/raw_client.cpp:102-264,
 * raw_session.cpp, Network/error_handler.cpp:38-73): the handlers, which pass errors on to each other
 * and to Disconnect, follow it in every state of every run.
 */
module Connections {
  import opened Common
  import opened Session
  import opened SessionProofs
  import opened Bridge
  import opened BridgeProofs
  import opened BridgeTheorems

  /** The connection without what goes over it: state, timers, attempts, sessions begun and calls of OnDisconnect. */
  datatype Line = Line(
    conn: ConnectState, reconnect: Timer, timeout: Timer, resolves: nat, connects: nat, session: nat, losses: nat)

  function LineOf(s: State): Line { Line(s.conn, s.reconnect, s.timeout, s.resolves, s.connects, s.session, s.losses) }

  // ----- The table -----

  function Armed(t: Timer, armed: bool): Timer { Timer(armed, t.fired) }

  function Expired(t: Timer): Timer { if t.armed then Timer(false, t.fired + 1) else t }

  /** The wait before the next attempt begins. */
  function Waiting(l: Line): Line { l.(conn := Connecting, reconnect := Armed(l.reconnect, true)) }

  /** Neither wait is pending any more, and OnDisconnect has been called. */
  function Ended(l: Line): Line {
    l.(conn := Disconnected, reconnect := Armed(l.reconnect, false), timeout := Armed(l.timeout, false), losses := l.losses + 1)
  }

  /** A session or an attempt is given up; where there is none, the wait for the next begins at once. */
  function GivenUp(l: Line): Line { if l.conn.Disconnected? then Waiting(l) else Waiting(Ended(l)) }

  /** An attempt begins; in a session nothing does. */
  function Dialled(l: Line): Line {
    if l.conn.Connected? then l
    else l.(conn := Connecting, timeout := Armed(l.timeout, true), resolves := l.resolves + 1)
  }

  function InSession(l: Line): Line {
    l.(conn := Connected, reconnect := Armed(l.reconnect, false), timeout := Armed(l.timeout, false), session := l.session + 1)
  }

  /** The event is the completion of something that is under way. */
  predicate Completes(s: State, e: Event) {
    match e
    case EvReconnectFired(_) => s.reconnect.fired > 0
    case EvTimeoutFired(_) => s.timeout.fired > 0
    case EvResolved(_) => s.resolves > 0
    case EvConnectDone(_) => s.connects > 0
    case EvWriteDone(_) => s.writes > 0
    case EvReadFailed(k, _, _) => s.readers[k] > 0
    case _ => true
  }

  /** `l` with the completed wait or attempt taken away. */
  function Completed(l: Line, e: Event): Line {
    match e
    case EvReconnectFired(_) => if l.reconnect.fired > 0 then l.(reconnect := Timer(l.reconnect.armed, l.reconnect.fired - 1)) else l
    case EvTimeoutFired(_) => if l.timeout.fired > 0 then l.(timeout := Timer(l.timeout.armed, l.timeout.fired - 1)) else l
    case EvResolved(_) => if l.resolves > 0 then l.(resolves := l.resolves - 1) else l
    case EvConnectDone(_) => if l.connects > 0 then l.(connects := l.connects - 1) else l
    case _ => l
  }

  /** The table: rows are events, with the line after what they complete. */
  function NextLine(l: Line, e: Event): Line {
    match e
    case EvConnect => Dialled(l)
    case EvDisconnect(again) => if l.conn.Disconnected? || again then GivenUp(l) else Ended(l)
    case EvTickEnd => if l.conn.Disconnected? then Waiting(l) else l
    case EvReconnectExpires => l.(reconnect := Expired(l.reconnect))
    case EvTimeoutExpires => l.(timeout := Expired(l.timeout))
    case EvReconnectFired(ok) => Dialled(if ok then l else GivenUp(l))
    case EvTimeoutFired(ok) => if ok then GivenUp(l) else if l.conn.Connected? then l else Waiting(l)
    case EvResolved(ResolveFailed(_)) => GivenUp(l)
    case EvResolved(NoIPv4) => l
    case EvResolved(Found) => l.(connects := l.connects + 1)
    case EvConnectDone(Opened) => if l.conn.Connected? then GivenUp(l) else InSession(l)
    case EvConnectDone(_) => GivenUp(l)
    case EvWriteDone(Some(err)) => if Closing(err) then GivenUp(l) else l
    case EvReadFailed(_, err, inBody) => if Closing(err) && (l.conn.Connected? || !inBody) then GivenUp(l) else l
    case _ => l
  }

  function LineAfter(s: State, e: Event): Line {
    if Completes(s, e) then NextLine(Completed(LineOf(s), e), e) else LineOf(s)
  }

  // ----- The handlers follow it -----

  lemma DisconnectLine(s: State, again: bool)
    ensures LineOf(Disconnect(s, again)) == NextLine(LineOf(s), EvDisconnect(again))
  {}

  lemma ErrorLine(s: State, e: Err, critical: bool)
    ensures LineOf(HandleError(s, e, critical)) == if critical || Closing(e) then GivenUp(LineOf(s)) else LineOf(s)
  {
    hide Disconnect;
    WhichErrorsClose(e, critical);
    DisconnectLine(s, true);
  }

  lemma ActivityLine(s: State, again: Task, e: Err)
    ensures LineOf(HandleActivityError(s, again, e)) == if Closing(e) then GivenUp(LineOf(s)) else LineOf(s)
  {
    hide HandleError;
    ErrorLine(s, e, false);
    ErrorLine(PostTask(s, again), e, false);
  }

  lemma ReconnectLine(s: State, ok: bool)
    ensures LineOf(ReconnectFired(s, ok)) == LineAfter(s, EvReconnectFired(ok))
  {
    hide HandleError;
    if s.reconnect.fired > 0 {
      ErrorLine(s.(reconnect := s.reconnect.(fired := s.reconnect.fired - 1)), PROTOCOL, true);
    }
  }

  lemma TimeoutLine(s: State, ok: bool)
    ensures LineOf(TimeoutFired(s, ok)) == LineAfter(s, EvTimeoutFired(ok))
  {
    hide HandleError;
    if s.timeout.fired > 0 {
      var s1 := s.(timeout := s.timeout.(fired := s.timeout.fired - 1));
      var e := Err(NoError, false, false);
      ErrorLine(s1, e, true);
      ErrorLine((if ok then HandleError(s1, e, true) else s1).(conn := Disconnected), PROTOCOL, true);
    }
  }

  lemma ResolvedLine(s: State, r: Resolution)
    ensures LineOf(Resolved(s, r)) == LineAfter(s, EvResolved(r))
  {
    hide HandleError;
    WhichErrorsClose(NO_IPV4, false);
    if s.resolves > 0 {
      var s1 := s.(resolves := s.resolves - 1);
      ErrorLine(s1, NO_IPV4, false);
      if r.ResolveFailed? {
        ErrorLine(s1, r.e, true);
      }
    }
  }

  lemma ConnectDoneLine(s: State, c: Connection)
    ensures LineOf(ConnectDone(s, c)) == LineAfter(s, EvConnectDone(c))
  {
    hide HandleError;
    WhichErrorsClose(PROTOCOL, false);
    if s.connects > 0 {
      var s1 := s.(connects := s.connects - 1);
      ErrorLine(s1, PROTOCOL, true);
      ErrorLine(s1, PROTOCOL, false);
      match c
      case ConnectFailed(e) => ErrorLine(s1, e, true);
      case NotOpen =>
      case Opened => ErrorLine(SessionStart(s1), PROTOCOL, true);
    }
  }

  lemma WriteDoneLine(s: State, w: Option<Err>)
    ensures LineOf(WriteDone(s, w)) == LineAfter(s, EvWriteDone(w))
  {
    hide HandleActivityError, GivenUp;
    if s.writes > 0 && w.Some? {
      ActivityLine(s.(writes := s.writes - 1), WriteAgainTask, w.value);
    }
  }

  lemma ReadFailedLine(s: State, k: nat, e: Err, inBody: bool)
    ensures LineOf(ReadFailed(s, k, e, inBody)) == LineAfter(s, EvReadFailed(k, e, inBody))
  {
    hide HandleActivityError, GivenUp;
    if s.readers[k] > 0 {
      ActivityLine(TakeRead(s, k), ReadTask(k), e);
    }
  }

  lemma OthersLine(s: State, k: nat)
    ensures LineOf(ReadMalformed(s, k)) == LineOf(ReadUnknown(s, k)) == LineOf(RunTask(s)) == LineOf(s)
  {
    hide HandleActivityError, GivenUp;
    WhichErrorsClose(PROTOCOL, false);
    if s.readers[k] > 0 {
      ActivityLine(TakeRead(s, k), ReadTask(k), PROTOCOL);
    }
  }

  lemma ConnectLine(s: State)
    ensures LineOf(Connect(s)) == NextLine(LineOf(s), EvConnect)
  {}

  lemma WaitsLine(s: State)
    ensures LineOf(TickEnd(s)) == NextLine(LineOf(s), EvTickEnd)
    ensures LineOf(ReconnectExpires(s)) == NextLine(LineOf(s), EvReconnectExpires)
    ensures LineOf(TimeoutExpires(s)) == NextLine(LineOf(s), EvTimeoutExpires)
  {}

  lemma ClientStepLine(s: State, e: Event)
    requires OfClientOnly(e)
    ensures LineOf(ClientStep(s, e)) == LineAfter(s, e)
  {
    hide Connect, Disconnect, TickEnd, ReconnectExpires, TimeoutExpires, ReconnectFired, TimeoutFired, Resolved, ConnectDone;
    hide RunTask, WriteDone, ReadFailed, ReadMalformed, ReadUnknown;
    match e
    case EvConnect => ConnectLine(s);
    case EvDisconnect(again) => DisconnectLine(s, again);
    case EvReconnectFired(ok) => ReconnectLine(s, ok);
    case EvTimeoutFired(ok) => TimeoutLine(s, ok);
    case EvResolved(found) => ResolvedLine(s, found);
    case EvConnectDone(c) => ConnectDoneLine(s, c);
    case EvRunTask => OthersLine(s, 0);
    case EvWriteDone(err) => WriteDoneLine(s, err);
    case EvReadFailed(k, err, inBody) => ReadFailedLine(s, k, err, inBody);
    case EvReadMalformed(k) => OthersLine(s, k);
    case EvReadUnknown(k) => OthersLine(s, k);
    case _ => WaitsLine(s);
  }

  lemma FramedLine(s: State, s': State)
    requires Framed(s, s')
    ensures LineOf(s') == LineOf(s)
  {}

  lemma HandledLine(s: State, k: nat, ok: bool)
    ensures LineOf(ReadHandled(s, k, ok)) == LineOf(s)
  {
    hide HandleActivityError;
    WhichErrorsClose(PROTOCOL, false);
    ActivityLine(s, ReadTask(k), PROTOCOL);
  }

  lemma PacketLine(h: Host, k: nat, w: Handler)
    requires HostInv(h)
    ensures LineOf(PacketRead(h, k, w).client) == LineOf(h.client)
  {
    hide HostInv, Handle, ReadHandled, OfClient, Framed, LineOf;
    if h.client.readers[k] > 0 {
      TakenKeeps(h, k);
      TakenLine(h.client, k);
      var h1 := h.(client := TakeRead(h.client, k));
      if h1.client.conn.Connected? {
        HandleKeeps(h1, w);
        var (h2, ok) := Handle(h1, w);
        FramedLine(h1.client, h2.client);
        HandledLine(h2.client, k, ok);
        OfClientClient(h2, ReadHandled(h2.client, k, ok));
      }
    }
  }

  lemma TakenLine(s: State, k: nat)
    requires s.readers[k] > 0
    ensures LineOf(TakeRead(s, k)) == LineOf(s)
  {}

  lemma StepLine(h: Host, e: Event)
    requires HostInv(h)
    ensures LineOf(Step(h, e).client) == LineAfter(h.client, e)
  {
    hide HostInv, SendPacket, SendSync, CleanupStore, PacketRead, ClientStep, OfClient, Framed, LineOf;
    FramedRefl(h.client);
    match e
    case EvSendPacket(r) =>
      SendPacketKeeps(h, r);
      FramedLine(h.client, Step(h, e).client);
    case EvSync(data, authority, encOk) =>
      SyncFramed(h, data, authority, encOk);
      FramedLine(h.client, Step(h, e).client);
    case EvCleanup(now) => CleanupKeeps(h, now);
    case EvPacket(k, w) => PacketLine(h, k, w);
    case _ =>
      ClientStepLine(h.client, e);
      OfClientClient(h, ClientStep(h.client, e));
  }

  /** In every run every event does to the connection what the table says. */
  lemma RunFollowsTable(events: seq<Event>, e: Event)
    ensures LineOf(Run(events + [e]).client) == LineAfter(Run(events).client, e)
  {
    hide Run, Step, LineOf, LineAfter;
    RunKeeps(events);
    RunAppend(events, e);
    StepLine(Run(events), e);
  }

  /** An attempt that fails, in whichever way, is given up at once: the timers and the host notice. */
  lemma FailedAttemptIsRetried(s: State, e: Event)
    requires s.conn.Connecting? && Completes(s, e)
    requires (e.EvResolved? && e.found.ResolveFailed?) || (e.EvConnectDone? && !e.c.Opened?)
    ensures var s' := ClientStep(s, e);
            && s'.conn.Connecting? && s'.reconnect.armed && !s'.timeout.armed && s'.losses == s.losses + 1
            && s'.resolves == s.resolves - (if e.EvResolved? then 1 else 0)
            && s'.connects == s.connects - (if e.EvConnectDone? then 1 else 0)
  {
    hide ClientStep;
    ClientStepLine(s, e);
    LineFields(ClientStep(s, e));
  }

  lemma LineFields(s: State)
    ensures var l := LineOf(s);
            && l.conn == s.conn && l.reconnect == s.reconnect && l.timeout == s.timeout
            && l.resolves == s.resolves && l.connects == s.connects && l.losses == s.losses
  {}

  // ----- What a session begins and goes on with -----

  /** A new session has an empty queue, no encryption, and, where PostTask has room, its own read chain. */
  lemma SessionBegins(s: State)
    requires Inv(s) && !s.conn.Connected? && s.connects > 0
    ensures var s' := ConnectDone(s, Opened);
            && s'.conn.Connected? && s'.session == s.session + 1 && s'.queue == [] && !s'.encrypted && !s'.crypto
            && s'.log == s.log + [Started(s'.session)] && s'.readers == s.readers && s'.writes == s.writes
            && Chains(s') == Chains(s) + if |s.tasks| < MAX_PENDING_TASKS then multiset{s'.session} else multiset{}
  {
    TasksAppend(s.tasks, ReadTask(s.session + 1));
  }

  /** A posted read is started while connected, and otherwise its chain ends. */
  lemma PostedReadStarts(s: State, k: nat)
    requires s.tasks != [] && s.tasks[0] == ReadTask(k)
    ensures var s' := RunTask(s);
            && s'.readers[k] == s.readers[k] + (if s.conn.Connected? then 1 else 0)
            && Chains(s) == Chains(s') + if s.conn.Connected? then multiset{} else multiset{k}
  {
    TasksTail(s.tasks);
  }

  /** A posted write takes the first frame of the queue to the socket, whole and first. */
  lemma PostedWriteStarts(s: State)
    requires Inv(s) && s.tasks != [] && !s.tasks[0].ReadTask?
    ensures var s' := RunTask(s);
            && s'.tasks == s.tasks[1..] && s'.readers == s.readers && s'.conn == s.conn
            && if s.queue == [] then s'.writes == s.writes && s'.log == s.log && s'.queue == []
               else s'.writes == s.writes + 1 && s'.log == s.log + [Issued(s.queue[0])] && s'.queue == s.queue[1..]
  {}

  /** Exactly when Send refuses a packet, and how, it does nothing else. */
  lemma SendRefuses(s: State, data: Bytes, encrypt: bool, encOk: bool)
    requires Isolated(s)
    ensures var o := Send(s, data, encrypt, encOk);
            && (o.res.EmptyPacket? <==> data == [] || data[0] == 0)
            && (o.res.NotConnected? <==> data != [] && data[0] != 0 && !s.conn.Connected?)
            && (o.res.EncryptionFailed? <==>
                  data != [] && data[0] != 0 && s.conn.Connected? && encrypt && s.encrypted && !encOk)
            && (!o.res.Success? ==> o.s == s && o.data == data)
  {}
}
