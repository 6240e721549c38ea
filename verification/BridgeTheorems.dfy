/** What holds in every run of the bridge client and its host. */
module BridgeTheorems {
  import opened Common
  import opened Session
  import opened SessionProofs
  import opened Bridge
  import opened BridgeProofs

  // ----- Never stuck, and isolated sessions -----

  /** Whoever is connecting has a timer running or about to be handled, in every order of events. */
  lemma NeverStuck(events: seq<Event>)
    ensures var s := Run(events).client; s.conn.Connecting? ==> Pending(s.reconnect) || Pending(s.timeout)
    ensures !Run(events + [EvTickEnd]).client.conn.Disconnected?
  {
    RunKeeps(events);
    assert (events + [EvTickEnd])[..|events|] == events;
  }

  /** Every session starts in the plain handshake with an empty queue: none outlives its connection. */
  lemma SessionsAreIsolated(events: seq<Event>)
    ensures var s := Run(events).client;
            && (!s.conn.Connected? ==> s.queue == [] && !s.encrypted && !s.crypto)
            && (s.encrypted <==> s.crypto)
            && |s.queue| <= MAX_WRITE_QUEUE_SIZE && |s.tasks| <= MAX_PENDING_TASKS
  {
    RunKeeps(events);
  }

  // ----- What ends a session -----

  /** The errors after which a read or write is not continued. */
  predicate Closing(e: Err) {
    || e.tellsClosed || e.tellsEof
    || e.code in {ConnectionReset, ConnectionAborted, NetworkDown, BrokenPipe, OperationAborted, ShutDown, Eof}
  }

  /** Critical operations always close the session; handler failures and malformed frames never do. */
  lemma WhichErrorsClose(e: Err, critical: bool)
    ensures CloseDecision(e, critical).CloseNone? <==> !critical && !Closing(e)
    ensures !Closing(PROTOCOL) && !Closing(NO_IPV4)
  {}

  /** What takes a connected client out of its session. */
  predicate Ends(s: State, e: Event) {
    match e
    case EvDisconnect(_) => true
    case EvReconnectFired(ok) => s.reconnect.fired > 0 && !ok
    case EvTimeoutFired(ok) => s.timeout.fired > 0 && ok
    case EvResolved(found) => s.resolves > 0 && found.ResolveFailed?
    case EvConnectDone(_) => s.connects > 0
    case EvWriteDone(err) => s.writes > 0 && err.Some? && Closing(err.value)
    case EvReadFailed(k, err, _) => s.readers[k] > 0 && Closing(err)
    case _ => false
  }

  lemma ErrorEndsIff(s: State, e: Err, critical: bool)
    requires s.conn.Connected?
    ensures HandleError(s, e, critical).conn.Connected? <==> !critical && !Closing(e)
  {
    WhichErrorsClose(e, critical);
  }

  lemma ActivityEndsIff(s: State, again: Task, e: Err)
    requires s.conn.Connected?
    ensures HandleActivityError(s, again, e).conn.Connected? <==> !Closing(e)
  {
    hide HandleError;
    ErrorEndsIff(s, e, false);
    ErrorEndsIff(PostTask(s, again), e, false);
  }

  lemma TimersEndIff(s: State, ok: bool)
    requires s.conn.Connected?
    ensures ReconnectFired(s, ok).conn.Connected? <==> !Ends(s, EvReconnectFired(ok))
    ensures TimeoutFired(s, ok).conn.Connected? <==> !Ends(s, EvTimeoutFired(ok))
  {}

  lemma ResolvedEndsIff(s: State, found: Resolution)
    requires s.conn.Connected?
    ensures Resolved(s, found).conn.Connected? <==> !Ends(s, EvResolved(found))
  {
    hide HandleError, Closing;
    if s.resolves > 0 {
      var s1 := s.(resolves := s.resolves - 1);
      match found
      case ResolveFailed(e) => ErrorEndsIff(s1, e, true);
      case NoIPv4 =>
        ErrorEndsIff(s1, NO_IPV4, false);
        WhichErrorsClose(NO_IPV4, false);
      case Found =>
    }
  }

  lemma ConnectDoneEndsIff(s: State, c: Connection)
    requires s.conn.Connected?
    ensures ConnectDone(s, c).conn.Connected? <==> !Ends(s, EvConnectDone(c))
  {
    hide HandleError, Closing;
    if s.connects > 0 {
      var s1 := s.(connects := s.connects - 1);
      match c
      case ConnectFailed(e) => ErrorEndsIff(s1, e, true);
      case NotOpen => ErrorEndsIff(s1, PROTOCOL, true);
      case Opened =>
        WhichErrorsClose(PROTOCOL, false);
        ErrorEndsIff(s1, PROTOCOL, false);
        ErrorEndsIff(SessionStart(s1), PROTOCOL, true);
    }
  }

  lemma ReadsEndIff(s: State, k: nat, e: Err, inBody: bool)
    requires s.conn.Connected?
    ensures ReadFailed(s, k, e, inBody).conn.Connected? <==> !Ends(s, EvReadFailed(k, e, inBody))
    ensures ReadMalformed(s, k).conn.Connected? && ReadUnknown(s, k).conn.Connected?
  {
    hide HandleActivityError, Closing;
    if s.readers[k] > 0 {
      WhichErrorsClose(PROTOCOL, false);
      ActivityEndsIff(TakeRead(s, k), ReadTask(k), e);
      ActivityEndsIff(TakeRead(s, k), ReadTask(k), PROTOCOL);
    }
  }

  lemma WritesEndIff(s: State, w: Option<Err>)
    requires s.conn.Connected?
    ensures RunTask(s).conn.Connected?
    ensures WriteDone(s, w).conn.Connected? <==> !Ends(s, EvWriteDone(w))
  {
    hide HandleActivityError, Closing;
    if s.writes > 0 && w.Some? {
      ActivityEndsIff(s.(writes := s.writes - 1), WriteAgainTask, w.value);
    }
  }

  lemma CallsEndIff(s: State, needReconnect: bool)
    requires s.conn.Connected?
    ensures Connect(s).conn.Connected? && TickEnd(s).conn.Connected? && !Disconnect(s, needReconnect).conn.Connected?
    ensures ReconnectExpires(s).conn.Connected? && TimeoutExpires(s).conn.Connected?
  {}

  lemma ClientStepEndsIff(s: State, e: Event)
    requires s.conn.Connected?
    ensures ClientStep(s, e).conn.Connected? <==> !Ends(s, e)
  {
    hide Connect, Disconnect, ReconnectExpires, TimeoutExpires, ReconnectFired, TimeoutFired, Resolved, ConnectDone;
    hide RunTask, WriteDone, ReadFailed, ReadMalformed, ReadUnknown, TickEnd;
    CallsEndIff(s, e.EvDisconnect? && e.needReconnect);
    match e
    case EvReconnectFired(ok) => TimersEndIff(s, ok);
    case EvTimeoutFired(ok) => TimersEndIff(s, ok);
    case EvResolved(found) => ResolvedEndsIff(s, found);
    case EvConnectDone(c) => ConnectDoneEndsIff(s, c);
    case EvRunTask => WritesEndIff(s, None);
    case EvWriteDone(err) => WritesEndIff(s, err);
    case EvReadFailed(k, err, inBody) => ReadsEndIff(s, k, err, inBody);
    case EvReadMalformed(k) => ReadsEndIff(s, k, PROTOCOL, false);
    case EvReadUnknown(k) => ReadsEndIff(s, k, PROTOCOL, false);
    case _ =>
  }

  lemma PacketNeverEnds(h: Host, k: nat, w: Handler)
    requires HostInv(h) && h.client.conn.Connected?
    ensures PacketRead(h, k, w).client.conn.Connected?
  {
    hide HostInv, Handle, TakeRead, OfClient, HandleActivityError;
    if h.client.readers[k] > 0 {
      TakenKeeps(h, k);
      var h1 := h.(client := TakeRead(h.client, k));
      HandleKeeps(h1, w);
      var (h2, ok) := Handle(h1, w);
      ActivityEndsIff(h2.client, ReadTask(k), PROTOCOL);
      OfClientClient(h2, ReadHandled(h2.client, k, ok));
    }
  }

  lemma StepEndsIff(h: Host, e: Event)
    requires HostInv(h) && h.client.conn.Connected?
    ensures Step(h, e).client.conn.Connected? <==> !Ends(h.client, e)
  {
    hide HostInv, SendPacket, SendSync, CleanupStore, PacketRead, ClientStep, OfClient;
    match e
    case EvSendPacket(r) => SendPacketKeeps(h, r);
    case EvSync(data, authority, encOk) => SyncFramed(h, data, authority, encOk);
    case EvCleanup(now) => CleanupKeeps(h, now);
    case EvPacket(k, w) => PacketNeverEnds(h, k, w);
    case _ =>
      ClientStepEndsIff(h.client, e);
      OfClientClient(h, ClientStep(h.client, e));
  }

  /**
   * In every run, exactly these events end a session: a call of Disconnect, a failed reconnect timer,
   * a completed connect timeout, a late attempt that fails or connects once more, and a read or write
   * that fails with a closing error. No packet, handler failure, malformed frame or send ever does.
   */
  lemma SessionEndsIff(events: seq<Event>, e: Event)
    requires Run(events).client.conn.Connected?
    ensures Run(events + [e]).client.conn.Connected? <==> !Ends(Run(events).client, e)
  {
    RunKeeps(events);
    StepEndsIff(Run(events), e);
    assert (events + [e])[..|events|] == events;
  }

  // ----- The write queue -----

  lemma {:induction false} EntryFollows(log: seq<Entry>, i: nat)
    requires WellOrdered(log) && i < |log|
    ensures WellOrdered(log[..i]) && Follows(log[..i], log[i])
    decreases |log|
  {
    var n := |log| - 1;
    if i < n {
      EntryFollows(log[..n], i);
      assert log[..n][..i] == log[..i];
    }
  }

  /**
   * Nothing is lost or reordered in the write queue: all frames ever accepted are, in order, those
   * issued, dropped as oldest or discarded with their session, followed by those still queued; and
   * a frame is dropped only while the queue is full.
   */
  lemma WritesAreConserved(events: seq<Event>)
    ensures var s := Run(events).client;
            && AcceptedFrames(s.log) == LeftFrames(s.log) + s.queue
            && forall i :: 0 <= i < |s.log| && s.log[i].DroppedOldest? ==>
                 |AcceptedFrames(s.log[..i])| - |LeftFrames(s.log[..i])| == MAX_WRITE_QUEUE_SIZE
  {
    RunKeeps(events);
    var log := Run(events).client.log;
    forall i | 0 <= i < |log| && log[i].DroppedOldest?
      ensures |AcceptedFrames(log[..i])| - |LeftFrames(log[..i])| == MAX_WRITE_QUEUE_SIZE
    {
      EntryFollows(log, i);
    }
  }

  // ----- The switch to encryption -----

  /** No session ends between positions `i` and `j` of the log. */
  ghost predicate SameSession(log: seq<Entry>, i: nat, j: nat) {
    i <= j <= |log| && forall k :: i <= k < j ==> !log[k].Stopped?
  }

  lemma {:induction false} EncryptedStays(log: seq<Entry>, i: nat, j: nat)
    requires WellOrdered(log) && SameSession(log, i, j) && PhaseOf(log[..i]).Encrypted?
    ensures PhaseOf(log[..j]).Encrypted?
    decreases j
  {
    if i < j {
      EncryptedStays(log, i, j - 1);
      EntryFollows(log, j - 1);
      assert log[..j][..j - 1] == log[..j - 1];
    }
  }

  lemma PlainBeforeEncrypted(log: seq<Entry>, on: nat, i: nat)
    requires WellOrdered(log) && on < |log| && log[on].EncryptionOn? && i < |log| && log[i].Accepted?
    ensures on > 0 && log[on - 1].Accepted? && !log[on - 1].wanted && !log[on - 1].frame.isSealed
    ensures i < on && SameSession(log, i, on) ==> !log[i].frame.isSealed
    ensures on < i && SameSession(log, on, i) ==> (log[i].frame.isSealed <==> log[i].wanted)
  {
    EntryFollows(log, on);
    EntryFollows(log, on - 1);
    EntryFollows(log, i);
    assert log[..on][on - 1] == log[on - 1];
    if i < on && SameSession(log, i, on) && PhaseOf(log[..i]).Encrypted? {
      EncryptedStays(log, i, on);
    }
    if on < i && SameSession(log, on, i) {
      assert log[..on + 1][..on] == log[..on];
      EncryptedStays(log, on + 1, i);
    }
  }

  lemma RunIsOrdered(events: seq<Event>)
    ensures WellOrdered(Run(events).client.log)
  {
    RunKeeps(events);
  }

  /**
   * In any run, encryption begins right behind a frame sent in the clear (the public key); in the
   * same session every frame accepted before is plain, and every frame accepted later is encrypted
   * exactly if its sender asked for it.
   */
  lemma PlainThenEncrypted(events: seq<Event>, on: nat, i: nat)
    requires var log := Run(events).client.log;
             on < |log| && log[on].EncryptionOn? && i < |log| && log[i].Accepted?
    ensures var log := Run(events).client.log;
            && on > 0 && log[on - 1].Accepted? && !log[on - 1].wanted && !log[on - 1].frame.isSealed
            && (i < on && SameSession(log, i, on) ==> !log[i].frame.isSealed)
            && (on < i && SameSession(log, on, i) ==> (log[i].frame.isSealed <==> log[i].wanted))
  {
    hide Run, WellOrdered;
    RunIsOrdered(events);
    PlainBeforeEncrypted(Run(events).client.log, on, i);
  }

  // ----- Read chains -----

  /** Each session has at most one read chain, posted or in flight, and only sessions begun have any. */
  lemma OneReadChainPerSession(events: seq<Event>, k: nat)
    ensures var s := Run(events).client;
            Chains(s)[k] <= 1 && (Chains(s)[k] == 1 ==> 1 <= k <= s.session)
  {
    RunKeeps(events);
  }

  // ----- Saving and replaying -----

  /** No call of SendPacket has its packet accepted twice, whether directly or by any replay. */
  lemma EachPacketAcceptedAtMostOnce(events: seq<Event>)
    ensures var h := Run(events);
            && (forall i, j :: 0 <= i < j < |h.sent| ==> h.sent[i] != h.sent[j])
            && (forall c :: c in h.sent ==> c < h.calls)
            && |h.store| <= MAX_UNPROCESSED_COUNT
            && (forall p :: p in h.store && !p.used ==> p.data != [] && IsSyncPacket(p.data[0]) && p.call !in h.sent)
  {
    RunKeeps(events);
    var h := Run(events);
    forall p | p in h.store && !p.used
      ensures p.data != [] && IsSyncPacket(p.data[0]) && p.call !in h.sent
    {
      var i :| 0 <= i < |h.store| && h.store[i] == p;
    }
  }

  /** Packet `i` of the store is accepted in a replay pass, in a session that is `encrypted`. */
  predicate Goes(store: seq<Saved>, encrypted: bool, encOks: seq<bool>, i: nat)
    requires i < |store|
  {
    !store[i].used && (store[i].encrypt && encrypted ==> Encrypts(encOks, i))
  }

  function GoingCalls(store: seq<Saved>, encrypted: bool, encOks: seq<bool>, n: nat): seq<nat>
    requires n <= |store|
  {
    if n == 0 then []
    else GoingCalls(store, encrypted, encOks, n - 1) + if Goes(store, encrypted, encOks, n - 1) then [store[n - 1].call] else []
  }

  function GoingFrames(store: seq<Saved>, encrypted: bool, encOks: seq<bool>, n: nat): seq<WireFrame>
    requires n <= |store|
  {
    if n == 0 then []
    else
      GoingFrames(store, encrypted, encOks, n - 1)
      + if Goes(store, encrypted, encOks, n - 1) then [WireFrame(store[n - 1].data, store[n - 1].encrypt && encrypted)] else []
  }

  lemma SendAccepts(s: State, data: Bytes, encrypt: bool, encOk: bool)
    requires Isolated(s)
    ensures var o := Send(s, data, encrypt, encOk);
            && o.s.encrypted == s.encrypted && o.s.crypto == s.crypto && o.s.conn == s.conn
            && AcceptedFrames(o.s.log) == AcceptedFrames(s.log)
               + if o.res.Success? then [WireFrame(data, encrypt && s.encrypted)] else []
  {
    hide AcceptedFrames, HandleError;
    RefusedUnchanged(s);
    var f := WireFrame(data, Encrypting(s, encrypt));
    if |s.queue| >= MAX_WRITE_QUEUE_SIZE {
      LogAppend(s.log, DroppedOldest(s.queue[0]));
    } else {
      assert s.log + RoomLog(s.queue) == s.log;
    }
    LogAppend(s.log + RoomLog(s.queue), Accepted(f, encrypt));
  }

  lemma ReplayOneDoes(h: Host, i: nat, encOk: bool)
    requires Isolated(h.client) && h.client.conn.Connected? && i < |h.store|
    requires if h.store[i].used then h.store[i].data == [] else Sendable(h.store[i].data)
    ensures var r, p := ReplayOne(h, i, encOk), h.store[i];
            var goes := !p.used && (p.encrypt && h.client.encrypted ==> encOk);
            && r.sent == (if goes then h.sent + [p.call] else h.sent)
            && AcceptedFrames(r.client.log) == AcceptedFrames(h.client.log)
               + (if goes then [WireFrame(p.data, p.encrypt && h.client.encrypted)] else [])
            && r.client.conn == h.client.conn && r.client.encrypted == h.client.encrypted && r.client.crypto == h.client.crypto
            && (forall k :: i < k < |h.store| ==> r.store[k] == h.store[k])
  {
    var p := h.store[i];
    SendAccepts(h.client, p.data, p.encrypt, encOk);
    SendSucceeds(h.client, p.data, p.encrypt, encOk);
  }

  /** After `n` turns the pass has done its work on the first `n` packets and not touched the others. */
  ghost predicate ReplayedSoFar(h: Host, r: Host, encOks: seq<bool>, n: nat)
    requires n <= |h.store|
  {
    && r.sent == h.sent + GoingCalls(h.store, h.client.encrypted, encOks, n)
    && AcceptedFrames(r.client.log) == AcceptedFrames(h.client.log) + GoingFrames(h.store, h.client.encrypted, encOks, n)
    && r.client.conn == h.client.conn && r.client.encrypted == h.client.encrypted && r.client.crypto == h.client.crypto
    && |r.store| == |h.store| && (forall k :: n <= k < |h.store| ==> r.store[k] == h.store[k])
  }

  lemma GoingNext(store: seq<Saved>, encrypted: bool, encOks: seq<bool>, n: nat)
    requires n < |store|
    ensures var goes := Goes(store, encrypted, encOks, n);
            && GoingCalls(store, encrypted, encOks, n + 1)
               == GoingCalls(store, encrypted, encOks, n) + (if goes then [store[n].call] else [])
            && GoingFrames(store, encrypted, encOks, n + 1)
               == GoingFrames(store, encrypted, encOks, n)
                  + (if goes then [WireFrame(store[n].data, store[n].encrypt && encrypted)] else [])
  {}

  lemma ReplaySoFarStep(h: Host, r: Host, encOks: seq<bool>, n: nat)
    requires Isolated(h.client) && h.client.conn.Connected? && StoreOk(h.store) && n < |h.store|
    requires ReplayedSoFar(h, r, encOks, n) && Isolated(r.client)
    ensures ReplayedSoFar(h, ReplayOne(r, n, Encrypts(encOks, n)), encOks, n + 1)
  {
    hide GoingCalls, GoingFrames, AcceptedFrames, Send;
    ReplayOneDoes(r, n, Encrypts(encOks, n));
    GoingNext(h.store, h.client.encrypted, encOks, n);
  }

  lemma ReplayNothing(h: Host, encOks: seq<bool>)
    ensures ReplayedSoFar(h, Replay(h, encOks, 0), encOks, 0)
  {}

  lemma IsolatedSoFar(h: Host, r: Host, encOks: seq<bool>, n: nat)
    requires Isolated(h.client) && h.client.conn.Connected? && n <= |h.store| && ReplayedSoFar(h, r, encOks, n)
    ensures Isolated(r.client)
  {}

  lemma {:induction false} ReplaySoFar(h: Host, encOks: seq<bool>, n: nat)
    requires Isolated(h.client) && h.client.conn.Connected? && StoreOk(h.store) && n <= |h.store|
    ensures ReplayedSoFar(h, Replay(h, encOks, n), encOks, n)
  {
    hide ReplayedSoFar, Isolated, StoreOk, ReplayOne;
    if n == 0 {
      ReplayNothing(h, encOks);
    } else {
      ReplaySoFar(h, encOks, n - 1);
      IsolatedSoFar(h, Replay(h, encOks, n - 1), encOks, n - 1);
      ReplaySoFarStep(h, Replay(h, encOks, n - 1), encOks, n - 1);
    }
  }

  /** Strictly increasing, and below `bound`. */
  ghost predicate Increasing(calls: seq<nat>, bound: nat) {
    && (forall i, j :: 0 <= i < j < |calls| ==> calls[i] < calls[j])
    && (forall i :: 0 <= i < |calls| ==> calls[i] < bound)
  }

  lemma IncreasingAppend(calls: seq<nat>, c: nat, bound: nat)
    requires Increasing(calls, c) && c < bound
    ensures Increasing(calls + [c], bound) && Increasing(calls, bound)
  {}

  lemma {:induction false} GoingInOrder(store: seq<Saved>, encrypted: bool, encOks: seq<bool>, n: nat, bound: nat)
    requires InOrder(store) && n <= |store|
    requires forall k :: 0 <= k < n ==> store[k].call < bound
    ensures Increasing(GoingCalls(store, encrypted, encOks, n), bound)
  {
    if n > 0 {
      var last := store[n - 1].call;
      var before := GoingCalls(store, encrypted, encOks, n - 1);
      GoingInOrder(store, encrypted, encOks, n - 1, last);
      IncreasingAppend(before, last, bound);
      assert before + [] == before;
    }
  }

  /**
   * A replay pass hands over exactly the unused packets (those whose encryption works), each once,
   * in the order in which they were saved, and behind everything accepted before.
   */
  lemma ReplayKeepsOrder(h: Host, encOks: seq<bool>)
    requires HostInv(h) && h.client.conn.Connected?
    ensures var n := |h.store|;
            var r := Replay(h, encOks, n);
            && r.sent == h.sent + GoingCalls(h.store, h.client.encrypted, encOks, n)
            && AcceptedFrames(r.client.log) == AcceptedFrames(h.client.log) + GoingFrames(h.store, h.client.encrypted, encOks, n)
            && Increasing(GoingCalls(h.store, h.client.encrypted, encOks, n), h.calls)
  {
    ReplaySoFar(h, encOks, |h.store|);
    GoingInOrder(h.store, h.client.encrypted, encOks, |h.store|, h.calls);
  }

  /** The frames that requests come to, sent one after the other while connected. */
  function ReqFrames(reqs: seq<Req>, encrypted: bool): seq<WireFrame> {
    if reqs == [] then []
    else
      var r := reqs[|reqs| - 1];
      ReqFrames(reqs[..|reqs| - 1], encrypted)
      + if Sendable(r.data) && (r.encrypt && encrypted ==> r.encOk) then [WireFrame(r.data, r.encrypt && encrypted)] else []
  }

  /** The settings refresh goes out in order, each frame in the clear or encrypted as asked. */
  lemma {:induction false} RefreshIsSent(s: State, reqs: seq<Req>)
    requires Isolated(s) && s.conn.Connected?
    ensures var s' := DirectSends(s, reqs);
            && Isolated(s') && s'.conn.Connected? && s'.encrypted == s.encrypted
            && AcceptedFrames(s'.log) == AcceptedFrames(s.log) + ReqFrames(reqs, s.encrypted)
  {
    hide Send, AcceptedFrames;
    if reqs != [] {
      var before, r := DirectSends(s, reqs[..|reqs| - 1]), reqs[|reqs| - 1];
      RefreshIsSent(s, reqs[..|reqs| - 1]);
      SendAccepts(before, r.data, r.encrypt, r.encOk);
      SendSucceeds(before, r.data, r.encrypt, r.encOk);
    }
  }

  /** The state in which the replay of a successful key exchange begins. */
  function AfterKeyExchange(h: Host, pub: Bytes, now: int): Host {
    var h1 := SendPacket(h, Req(pub, false, true, now)).0;
    h1.(client := EnableEncryption(h1.client, true).s)
  }

  lemma KeyExchangePublishes(h: Host, pub: Bytes, now: int)
    requires HostInv(h) && h.client.conn.Connected? && !h.client.encrypted && Sendable(pub)
    ensures var h2 := AfterKeyExchange(h, pub, now);
            && h2.store == h.store && h2.sent == h.sent + [h.calls]
            && h2.client.encrypted && h2.client.crypto && h2.client.conn.Connected? && Inv(h2.client)
            && AcceptedFrames(h2.client.log) == AcceptedFrames(h.client.log) + [WireFrame(pub, false)]
  {
    var r := Req(pub, false, true, now);
    SendPacketClient(h, r);
    SendAccepts(h.client, pub, false, true);
    SendSucceeds(h.client, pub, false, true);
    var h1 := SendPacket(h, r).0;
    EnableKeeps(h1.client, true);
    LogAppend(h1.client.log, EncryptionOn);
  }

  /**
   * A successful key exchange publishes the key in the clear and then hands over, encrypted where
   * they ask for it and in their order, the packets saved while disconnected, and then the settings.
   */
  lemma KeyExchangeSendsBacklog(h: Host, w: Handler)
    requires HostInv(h) && h.client.conn.Connected? && !h.client.encrypted
    requires w.KeyExchange? && w.haveKey && w.keyOk && Sendable(w.pub)
    ensures var n := |h.store|;
            && Handle(h, w).1
            && Handle(h, w).0.sent == h.sent + [h.calls] + GoingCalls(h.store, true, w.encOks, n)
            && Handle(h, w).0.client.encrypted
            && AcceptedFrames(Handle(h, w).0.client.log)
               == AcceptedFrames(h.client.log) + [WireFrame(w.pub, false)]
                  + GoingFrames(h.store, true, w.encOks, n) + ReqFrames(w.refresh, true)
  {
    var n := |h.store|;
    var h2 := AfterKeyExchange(h, w.pub, w.now);
    KeyExchangePublishes(h, w.pub, w.now);
    SendSucceeds(h.client, w.pub, false, true);
    ReplaySoFar(h2, w.encOks, n);
    ReplayInv(h2, w.encOks, n);
    var h3 := CleanupStore(Replay(h2, w.encOks, n), w.now);
    RefreshIsSent(h3.client, w.refresh);
    assert Handle(h, w).0 == h3.(client := DirectSends(h3.client, w.refresh));
  }

  lemma {:induction false} GoingContains(store: seq<Saved>, encOks: seq<bool>, n: nat, i: nat)
    requires i < n <= |store| && Goes(store, true, encOks, i)
    ensures store[i].call in GoingCalls(store, true, encOks, n)
  {
    if i < n - 1 {
      GoingContains(store, encOks, n - 1, i);
    }
  }

  /** The bridge's key packet `w` arrives on chain `k` in the plain phase of a session, and everything it needs works. */
  ghost predicate KeysExchanged(s: State, k: nat, w: Handler) {
    s.readers[k] > 0 && s.conn.Connected? && !s.encrypted && w.KeyExchange? && w.haveKey && w.keyOk && Sendable(w.pub)
  }

  lemma ExchangeDelivers(h: Host, k: nat, w: Handler, i: nat)
    requires HostInv(h) && KeysExchanged(h.client, k, w)
    requires i < |h.store| && !h.store[i].used && Encrypts(w.encOks, i)
    ensures h.store[i].call in PacketRead(h, k, w).sent
  {
    var h1 := h.(client := TakeRead(h.client, k));
    TakeReadKeeps(h.client, k);
    KeyExchangeSendsBacklog(h1, w);
    GoingContains(h.store, w.encOks, |h.store|, i);
    assert h.store[i].call in Handle(h1, w).0.sent;
  }

  lemma UnusedNotSent(h: Host, i: nat)
    requires HostInv(h) && i < |h.store| && !h.store[i].used
    ensures h.store[i].call !in h.sent
  {}

  /**
   * Whatever a run has saved and not sent is accepted at the next successful key exchange, if its
   * encryption works, and had not been accepted before.
   */
  lemma BacklogIsDelivered(events: seq<Event>, k: nat, w: Handler, i: nat)
    requires KeysExchanged(Run(events).client, k, w)
    requires i < |Run(events).store| && !Run(events).store[i].used && Encrypts(w.encOks, i)
    ensures Run(events).store[i].call !in Run(events).sent
    ensures Run(events).store[i].call in Run(events + [EvPacket(k, w)]).sent
  {
    hide HostInv, KeysExchanged, PacketRead;
    RunKeeps(events);
    UnusedNotSent(Run(events), i);
    ExchangeDelivers(Run(events), k, w, i);
    assert (events + [EvPacket(k, w)])[..|events|] == events;
  }

  /** A sync packet sent while there is no connection is kept, unused, as the newest of the store. */
  lemma DisconnectedSyncPacketIsSaved(h: Host, r: Req)
    requires !h.client.conn.Connected? && r.data != [] && IsSyncPacket(r.data[0])
    ensures var h' := SendPacket(h, r).0;
            && h'.store != [] && h'.store[|h'.store| - 1] == Saved(h.calls, r.data, r.encrypt, false, r.now)
            && h'.sent == h.sent && h'.client == h.client
  {}

  // ----- The sync packet -----

  /**
   * The cache is believed ready only while connected; in each such period at most one sync packet
   * is sent, and at most three failures are counted.
   */
  lemma SyncedAtMostOnce(events: seq<Event>)
    ensures var h := Run(events);
            && (h.cacheReady ==> h.client.conn.Connected?)
            && h.synced <= 1 && h.retries <= MAX_RETRY_COUNT
            && (h.cacheReady && h.synced == 1 ==> h.syncSent)
  {
    RunKeeps(events);
  }
}
