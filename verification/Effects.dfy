/** What a single event can change of the operations under way: posted tasks, reads, writes and attempts. */
module Effects {
  import opened Common
  import opened Session
  import opened SessionProofs
  import opened Bridge
  import opened BridgeProofs

  /** The read that the event completes. */
  function ReadsOf(e: Event): multiset<nat> {
    match e
    case EvReadFailed(k, _, _) => multiset{k}
    case EvReadMalformed(k) => multiset{k}
    case EvReadUnknown(k) => multiset{k}
    case EvPacket(k, _) => multiset{k}
    case _ => multiset{}
  }

  function TasksLeft(s: State, e: Event): seq<Task> { if e.EvRunTask? && s.tasks != [] then s.tasks[1..] else s.tasks }

  /**
   * Sessions only begin, and attempts only end, by completed connects; only posted tasks write; and
   * without a connection nothing is posted or read any more.
   */
  ghost predicate Effect(s: State, e: Event, s': State) {
    && s'.session == s.session
    && (!e.EvRunTask? ==> s'.writes <= s.writes)
    && TasksLeft(s, e) <= s'.tasks
    && s'.connects == s.connects + (if e == EvResolved(Found) && s.resolves > 0 then 1 else 0)
    && (if s.conn.Connected? then s'.conn.Connected? ==> s'.resolves <= s.resolves
        else !s'.conn.Connected? && s'.tasks == TasksLeft(s, e) && s'.readers == s.readers - ReadsOf(e))
  }

  /** No operation is touched, and no connection made. */
  ghost predicate Still(s: State, s': State) {
    && s'.session == s.session && s'.tasks == s.tasks && s'.readers == s.readers
    && s'.writes == s.writes && s'.resolves == s.resolves && s'.connects == s.connects
    && (s'.conn.Connected? ==> s.conn.Connected?)
  }

  lemma ErrorStill(s: State, e: Err, critical: bool)
    ensures Still(s, HandleError(s, e, critical))
  {}

  lemma CallsStill(s: State, needReconnect: bool)
    ensures Still(s, s) && Still(s, Disconnect(s, needReconnect)) && Still(s, TickEnd(s))
    ensures Still(s, ReconnectExpires(s)) && Still(s, TimeoutExpires(s))
  {}

  /** An attempt may begin. */
  ghost predicate Dials(s: State, s': State) {
    Still(s, s'.(resolves := s.resolves)) && (s'.conn.Connected? ==> s'.resolves == s.resolves)
  }

  lemma ConnectDials(s: State)
    ensures Dials(s, Connect(s))
  {}

  lemma ReconnectDials(s: State, ok: bool)
    ensures Dials(s, ReconnectFired(s, ok))
  {
    hide HandleError;
    if s.reconnect.fired > 0 {
      var s1 := s.(reconnect := s.reconnect.(fired := s.reconnect.fired - 1));
      ErrorStill(s1, PROTOCOL, true);
      ConnectDials(if ok then s1 else HandleError(s1, PROTOCOL, true));
    }
  }

  lemma TimeoutStill(s: State, ok: bool)
    ensures Still(s, TimeoutFired(s, ok))
  {
    hide HandleError;
    if s.timeout.fired > 0 {
      var s1 := s.(timeout := s.timeout.(fired := s.timeout.fired - 1));
      var e := Err(NoError, false, false);
      ErrorStill(s1, e, true);
      var s2 := if ok then HandleError(s1, e, true) else s1;
      ErrorStill(s2.(conn := Disconnected), PROTOCOL, true);
    }
  }

  lemma ResolvedEffect(s: State, found: Resolution)
    ensures Effect(s, EvResolved(found), Resolved(s, found))
  {
    hide HandleError;
    if s.resolves > 0 {
      var s1 := s.(resolves := s.resolves - 1);
      match found
      case ResolveFailed(e) => ErrorStill(s1, e, true);
      case NoIPv4 => ErrorStill(s1, NO_IPV4, false);
      case Found =>
    }
  }

  /** Going on posts at most `again`, and only while connected. */
  lemma ActivityEffect(s: State, again: Task, e: Err)
    ensures var s' := HandleActivityError(s, again, e);
            && Still(s, s'.(tasks := s.tasks)) && s.tasks <= s'.tasks
            && (!s.conn.Connected? ==> s'.tasks == s.tasks)
  {
    hide HandleError;
    ErrorStill(s, e, false);
    ErrorStill(PostTask(s, again), e, false);
  }

  /** A read is over, and its chain goes on at most while connected. */
  lemma TakenEffect(s: State, k: nat, e: Err, event: Event)
    requires s.readers[k] > 0 && ReadsOf(event) == multiset{k} && !event.EvRunTask? && !event.EvResolved?
    ensures Effect(s, event, TakeRead(s, k)) && Effect(s, event, HandleActivityError(TakeRead(s, k), ReadTask(k), e))
  {
    hide HandleActivityError;
    ActivityEffect(TakeRead(s, k), ReadTask(k), e);
  }

  lemma NoReadEffect(s: State, k: nat, event: Event)
    requires s.readers[k] == 0 && ReadsOf(event) == multiset{k} && !event.EvRunTask? && !event.EvResolved?
    ensures Effect(s, event, s)
  {
    assert s.readers - multiset{k} == s.readers;
  }

  lemma ReadsEffect(s: State, k: nat, e: Err, inBody: bool)
    ensures Effect(s, EvReadFailed(k, e, inBody), ReadFailed(s, k, e, inBody))
    ensures Effect(s, EvReadMalformed(k), ReadMalformed(s, k))
    ensures Effect(s, EvReadUnknown(k), ReadUnknown(s, k))
  {
    hide HandleActivityError, TakeRead, Effect;
    if s.readers[k] > 0 {
      TakenEffect(s, k, e, EvReadFailed(k, e, inBody));
      TakenEffect(s, k, PROTOCOL, EvReadMalformed(k));
      TakenEffect(s, k, PROTOCOL, EvReadUnknown(k));
    } else {
      NoReadEffect(s, k, EvReadFailed(k, e, inBody));
      NoReadEffect(s, k, EvReadMalformed(k));
      NoReadEffect(s, k, EvReadUnknown(k));
    }
  }

  lemma WriteDoneEffect(s: State, e: Option<Err>)
    ensures Effect(s, EvWriteDone(e), WriteDone(s, e))
  {
    hide HandleActivityError;
    if s.writes > 0 && e.Some? {
      ActivityEffect(s.(writes := s.writes - 1), WriteAgainTask, e.value);
    }
    assert s.readers - multiset{} == s.readers;
  }

  lemma RunTaskEffect(s: State)
    requires Isolated(s)
    ensures Effect(s, EvRunTask, RunTask(s))
  {
    assert s.readers - multiset{} == s.readers;
  }

  lemma StillEffect(s: State, e: Event, s': State)
    requires Still(s, s') && !e.EvRunTask? && !e.EvResolved? && ReadsOf(e) == multiset{}
    ensures Effect(s, e, s')
  {
    assert s.readers - multiset{} == s.readers;
  }

  lemma DialsEffect(s: State, e: Event, s': State)
    requires Dials(s, s') && !e.EvRunTask? && !e.EvResolved? && ReadsOf(e) == multiset{}
    ensures Effect(s, e, s')
  {
    assert s.readers - multiset{} == s.readers;
  }

  lemma ClientEffect(s: State, e: Event)
    requires Isolated(s) && OfClientOnly(e) && !e.EvConnectDone?
    ensures Effect(s, e, ClientStep(s, e))
  {
    hide Effect, Still, Dials, Isolated, Connect, Disconnect, ReconnectExpires, TimeoutExpires, ReconnectFired, TimeoutFired;
    hide Resolved, RunTask, WriteDone, ReadFailed, ReadMalformed, ReadUnknown, TickEnd;
    CallsStill(s, e.EvDisconnect? && e.needReconnect);
    match e
    case EvConnect =>
      ConnectDials(s);
      DialsEffect(s, e, Connect(s));
    case EvDisconnect(needReconnect) => StillEffect(s, e, Disconnect(s, needReconnect));
    case EvTickEnd => StillEffect(s, e, TickEnd(s));
    case EvReconnectExpires => StillEffect(s, e, ReconnectExpires(s));
    case EvTimeoutExpires => StillEffect(s, e, TimeoutExpires(s));
    case EvReconnectFired(ok) =>
      ReconnectDials(s, ok);
      DialsEffect(s, e, ReconnectFired(s, ok));
    case EvTimeoutFired(ok) =>
      TimeoutStill(s, ok);
      StillEffect(s, e, TimeoutFired(s, ok));
    case EvResolved(found) => ResolvedEffect(s, found);
    case EvRunTask => RunTaskEffect(s);
    case EvWriteDone(err) => WriteDoneEffect(s, err);
    case EvReadFailed(k, err, inBody) => ReadsEffect(s, k, err, inBody);
    case EvReadMalformed(k) => ReadsEffect(s, k, PROTOCOL, false);
    case EvReadUnknown(k) => ReadsEffect(s, k, PROTOCOL, false);
  }

  lemma HandledEffect(s: State, k: nat, ok: bool)
    requires s.conn.Connected?
    ensures var s' := ReadHandled(s, k, ok); Still(s, s'.(tasks := s.tasks)) && s.tasks <= s'.tasks
  {
    hide HandleActivityError;
    ActivityEffect(s, ReadTask(k), PROTOCOL);
  }

  lemma PacketEffect(h: Host, k: nat, w: Handler)
    requires HostInv(h)
    ensures Effect(h.client, EvPacket(k, w), PacketRead(h, k, w).client)
  {
    hide HostInv, Handle, ReadHandled, OfClient;
    if h.client.readers[k] == 0 {
      assert h.client.readers - multiset{k} == h.client.readers;
    } else {
      TakenKeeps(h, k);
      var h1 := h.(client := TakeRead(h.client, k));
      if h1.client.conn.Connected? {
        HandleKeeps(h1, w);
        var (h2, ok) := Handle(h1, w);
        HandledEffect(h2.client, k, ok);
        OfClientClient(h2, ReadHandled(h2.client, k, ok));
      }
    }
  }

  /** Sends do nothing without a connection. */
  lemma SendsEffect(s: State, e: Event, s': State)
    requires Framed(s, s') && (!s.conn.Connected? ==> s' == s)
    requires !e.EvRunTask? && !e.EvResolved? && ReadsOf(e) == multiset{}
    ensures Effect(s, e, s')
  {
    assert s.readers - multiset{} == s.readers;
  }

  lemma ClosedSends(h: Host, r: Req, data: Bytes, authority: bool, encOk: bool)
    requires !h.client.conn.Connected?
    ensures SendPacket(h, r).0.client == h.client && SendSync(h, data, authority, encOk).client == h.client
  {}

  lemma StepEffect(h: Host, e: Event)
    requires HostInv(h) && !e.EvConnectDone?
    ensures Effect(h.client, e, Step(h, e).client)
  {
    hide HostInv, SendPacket, SendSync, CleanupStore, PacketRead, ClientStep, OfClient, Framed, Effect;
    FramedRefl(h.client);
    match e
    case EvSendPacket(r) =>
      SendPacketKeeps(h, r);
      if !h.client.conn.Connected? {
        ClosedSends(h, r, [], false, false);
      }
      SendsEffect(h.client, e, Step(h, e).client);
    case EvSync(data, authority, encOk) =>
      SyncFramed(h, data, authority, encOk);
      if !h.client.conn.Connected? {
        ClosedSends(h, Req([], false, false, 0), data, authority, encOk);
      }
      SendsEffect(h.client, e, Step(h, e).client);
    case EvCleanup(now) =>
      CleanupKeeps(h, now);
      SendsEffect(h.client, e, Step(h, e).client);
    case EvPacket(k, w) => PacketEffect(h, k, w);
    case _ =>
      ClientIsolated(h);
      ClientEffect(h.client, e);
      OfClientClient(h, ClientStep(h.client, e));
  }

  lemma ClientIsolated(h: Host)
    requires HostInv(h)
    ensures Isolated(h.client)
  {}

  /** A completed connect uses its attempt up; only one that opens a session posts anything. */
  lemma ConnectDoneEffect(s: State, c: Connection)
    ensures var s' := ConnectDone(s, c);
            && s'.connects == (if s.connects > 0 then s.connects - 1 else 0)
            && s'.resolves == s.resolves && s'.writes == s.writes && s'.readers == s.readers && s.tasks <= s'.tasks
            && (!s'.conn.Connected? ==> s'.tasks == s.tasks)
            && (s'.conn.Connected? ==> s.conn.Connected? || s.connects > 0)
            && (if s'.session == s.session then s'.conn.Connected? ==> s.conn.Connected? else s'.conn.Connected?)
  {
    hide HandleError;
    if s.connects > 0 {
      var s1 := s.(connects := s.connects - 1);
      match c
      case ConnectFailed(e) => ErrorStill(s1, e, true);
      case NotOpen => ErrorStill(s1, PROTOCOL, true);
      case Opened =>
        if s1.conn.Connected? {
          ErrorStill(s1, PROTOCOL, false);
          ErrorStill(SessionStart(s1), PROTOCOL, true);
        }
    }
  }
}
