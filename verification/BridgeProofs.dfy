/** What every run of client and host together keeps. */
module BridgeProofs {
  import opened Common
  import opened Compaction
  import opened Session
  import opened SessionProofs
  import opened Bridge

  /** An event that concerns nothing but the client. */
  predicate OfClientOnly(e: Event) { !e.EvSendPacket? && !e.EvSync? && !e.EvCleanup? && !e.EvPacket? }

  // ----- The client's part -----

  /** Only Send and EnableEncryption have worked on the client. */
  ghost predicate Framed(s: State, s': State) {
    && s'.conn == s.conn && s'.session == s.session && s'.readers == s.readers && s'.losses == s.losses
    && s'.writes == s.writes && Chains(s') == Chains(s) && s.tasks <= s'.tasks
    && s'.resolves == s.resolves && s'.connects == s.connects && s'.reconnect == s.reconnect && s'.timeout == s.timeout
  }

  lemma FramedTrans(a: State, b: State, c: State)
    requires Framed(a, b) && Framed(b, c)
    ensures Framed(a, c)
  {}

  lemma FramedRefl(s: State)
    ensures Framed(s, s)
  {}

  lemma SendFramed(s: State, data: Bytes, encrypt: bool, encOk: bool)
    ensures Framed(s, Send(s, data, encrypt, encOk).s)
  {
    SendFrame(s, data, encrypt, encOk);
    SendChains(s, data, encrypt, encOk);
  }

  lemma {:induction false} DirectSendsKeep(s: State, reqs: seq<Req>)
    requires Inv(s)
    ensures Inv(DirectSends(s, reqs)) && Framed(s, DirectSends(s, reqs))
  {
    if reqs != [] {
      var before, r := DirectSends(s, reqs[..|reqs| - 1]), reqs[|reqs| - 1];
      DirectSendsKeep(s, reqs[..|reqs| - 1]);
      SendKeeps(before, r.data, r.encrypt, r.encOk);
      SendFramed(before, r.data, r.encrypt, r.encOk);
      FramedTrans(s, before, DirectSends(s, reqs));
    }
  }

  lemma ClientEvents(h: Host, e: Event)
    requires OfClientOnly(e)
    ensures Step(h, e).client == ClientStep(h.client, e)
  {
    hide ClientStep, SendPacket, SendSync, CleanupStore, PacketRead, OfClient;
    OfClientClient(h, ClientStep(h.client, e));
  }

  // ----- The host's part -----

  /** A saved packet is a sync packet not sent yet, or one whose bytes have been moved out. */
  ghost predicate StoreOk(store: seq<Saved>) {
    && |store| <= MAX_UNPROCESSED_COUNT
    && forall i :: 0 <= i < |store| ==>
         if store[i].used then store[i].data == [] else store[i].data != [] && IsSyncPacket(store[i].data[0])
  }

  /** Calls are saved in order; `sent` holds no call twice and exactly the used ones of the store. */
  ghost predicate CallsOk(store: seq<Saved>, sent: seq<nat>, calls: nat) {
    && InOrder(store)
    && (forall i :: 0 <= i < |store| ==> store[i].call < calls && (store[i].call in sent <==> store[i].used))
    && (forall c :: c in sent ==> c < calls)
    && (forall i, j :: 0 <= i < j < |sent| ==> sent[i] != sent[j])
  }

  /** The bridge's cache is only believed ready while connected, and synced at most once meanwhile. */
  ghost predicate SyncOk(h: Host) {
    && (h.cacheReady ==> h.client.conn.Connected?)
    && h.retries <= MAX_RETRY_COUNT
    && h.synced <= 1
    && (h.cacheReady && h.synced == 1 ==> h.syncSent)
  }

  ghost predicate HostInv(h: Host) {
    Inv(h.client) && StoreOk(h.store) && CallsOk(h.store, h.sent, h.calls) && SyncOk(h)
  }

  lemma DropOldestKeeps(store: seq<Saved>, sent: seq<nat>, calls: nat)
    requires StoreOk(store) && CallsOk(store, sent, calls) && store != []
    ensures StoreOk(store[1..]) && CallsOk(store[1..], sent, calls)
  {}

  lemma AppendKeeps(store: seq<Saved>, sent: seq<nat>, calls: nat, p: Saved)
    requires StoreOk(store) && CallsOk(store, sent, calls) && |store| < MAX_UNPROCESSED_COUNT
    requires p.call == calls && !p.used && p.data != [] && IsSyncPacket(p.data[0])
    ensures StoreOk(store + [p]) && CallsOk(store + [p], sent, calls + 1)
  {}

  lemma SaveKeeps(store: seq<Saved>, sent: seq<nat>, calls: nat, data: Bytes, encrypt: bool, now: int)
    requires StoreOk(store) && CallsOk(store, sent, calls)
    ensures StoreOk(Save(store, calls, data, encrypt, now))
    ensures CallsOk(Save(store, calls, data, encrypt, now), sent, calls + 1)
  {
    if data == [] || !IsSyncPacket(data[0]) {
      assert forall c :: c in sent ==> c < calls + 1;
    } else {
      hide InOrder;
      var full := |store| >= MAX_UNPROCESSED_COUNT;
      if full {
        DropOldestKeeps(store, sent, calls);
      }
      AppendKeeps(if full then store[1..] else store, sent, calls, Saved(calls, data, encrypt, false, now));
    }
  }

  lemma AddSent(store: seq<Saved>, sent: seq<nat>, calls: nat)
    requires CallsOk(store, sent, calls)
    ensures CallsOk(store, sent + [calls], calls + 1)
  {
    assert forall c :: c in sent + [calls] <==> c in sent || c == calls;
    assert forall i :: 0 <= i < |sent| ==> sent[i] in sent;
  }

  /** SendPacket, seen from the client. */
  lemma SendPacketClient(h: Host, r: Req)
    requires Inv(h.client)
    ensures Inv(SendPacket(h, r).0.client) && Framed(h.client, SendPacket(h, r).0.client)
  {
    hide Inv, Framed, Send, Save;
    FramedRefl(h.client);
    SendKeeps(h.client, r.data, r.encrypt, r.encOk);
    SendFramed(h.client, r.data, r.encrypt, r.encOk);
  }

  /** SendPacket, seen from the host. */
  lemma SendPacketHost(h: Host, r: Req)
    requires StoreOk(h.store) && CallsOk(h.store, h.sent, h.calls)
    ensures var h' := SendPacket(h, r).0;
            && StoreOk(h'.store) && CallsOk(h'.store, h'.sent, h'.calls)
            && h'.cacheReady == h.cacheReady && h'.retries == h.retries && h'.synced == h.synced && h'.syncSent == h.syncSent
  {
    if r.data != [] {
      SaveKeeps(h.store, h.sent, h.calls, r.data, r.encrypt, r.now);
      AddSent(h.store, h.sent, h.calls);
      SendFrame(h.client, r.data, r.encrypt, r.encOk);
    }
  }

  lemma SendPacketKeeps(h: Host, r: Req)
    requires HostInv(h)
    ensures HostInv(SendPacket(h, r).0) && Framed(h.client, SendPacket(h, r).0.client)
  {
    SendPacketClient(h, r);
    SendPacketHost(h, r);
  }

  lemma {:induction false} SendPacketsKeep(h: Host, reqs: seq<Req>)
    requires HostInv(h)
    ensures HostInv(SendPackets(h, reqs)) && Framed(h.client, SendPackets(h, reqs).client)
  {
    if reqs != [] {
      var before := SendPackets(h, reqs[..|reqs| - 1]);
      SendPacketsKeep(h, reqs[..|reqs| - 1]);
      SendPacketKeeps(before, reqs[|reqs| - 1]);
      FramedTrans(h.client, before.client, SendPackets(h, reqs).client);
    }
  }

  lemma ReplayOneClient(h: Host, i: nat, encOk: bool)
    requires Inv(h.client) && i < |h.store|
    ensures Inv(ReplayOne(h, i, encOk).client)
  {
    SendKeeps(h.client, h.store[i].data, h.store[i].encrypt, encOk);
  }

  /** A replayed packet is accepted at most once: its bytes are gone afterwards, and Send refuses none. */
  lemma ReplayOneHost(h: Host, i: nat, encOk: bool)
    requires StoreOk(h.store) && CallsOk(h.store, h.sent, h.calls) && i < |h.store|
    ensures var h' := ReplayOne(h, i, encOk);
            && StoreOk(h'.store) && CallsOk(h'.store, h'.sent, h'.calls)
            && h'.cacheReady == h.cacheReady && h'.retries == h.retries && h'.synced == h.synced && h'.syncSent == h.syncSent
  {
    var p := h.store[i];
    var o := Send(h.client, p.data, p.encrypt, encOk);
    SendFrame(h.client, p.data, p.encrypt, encOk);
    SendSucceeds(h.client, p.data, p.encrypt, encOk);
    if o.res.Success? {
      MarkUsed(h.store, h.sent, h.calls, i);
    }
  }

  lemma MarkUsed(store: seq<Saved>, sent: seq<nat>, calls: nat, i: nat)
    requires StoreOk(store) && CallsOk(store, sent, calls) && i < |store| && !store[i].used
    ensures var store' := store[i := store[i].(data := [], used := true)];
            StoreOk(store') && CallsOk(store', sent + [store[i].call], calls)
  {
    var store' := store[i := store[i].(data := [], used := true)];
    assert forall j :: 0 <= j < |store| ==> store'[j].call == store[j].call;
  }

  lemma {:induction false} ReplayInv(h: Host, encOks: seq<bool>, n: nat)
    requires Inv(h.client) && n <= |h.store|
    ensures Inv(Replay(h, encOks, n).client)
  {
    hide Inv, ReplayOne;
    if n > 0 {
      ReplayInv(h, encOks, n - 1);
      ReplayOneClient(Replay(h, encOks, n - 1), n - 1, Encrypts(encOks, n - 1));
    }
  }

  lemma ReplayOneFramed(h: Host, i: nat, encOk: bool)
    requires i < |h.store|
    ensures Framed(h.client, ReplayOne(h, i, encOk).client)
  {
    SendFramed(h.client, h.store[i].data, h.store[i].encrypt, encOk);
  }

  lemma {:induction false} ReplayFramed(h: Host, encOks: seq<bool>, n: nat)
    requires n <= |h.store|
    ensures Framed(h.client, Replay(h, encOks, n).client)
  {
    hide Framed, ReplayOne;
    if n > 0 {
      ReplayFramed(h, encOks, n - 1);
      ReplayOneFramed(Replay(h, encOks, n - 1), n - 1, Encrypts(encOks, n - 1));
      FramedTrans(h.client, Replay(h, encOks, n - 1).client, Replay(h, encOks, n).client);
    } else {
      FramedRefl(h.client);
    }
  }

  lemma {:induction false} ReplayHost(h: Host, encOks: seq<bool>, n: nat)
    requires StoreOk(h.store) && CallsOk(h.store, h.sent, h.calls) && n <= |h.store|
    ensures var h' := Replay(h, encOks, n);
            && StoreOk(h'.store) && CallsOk(h'.store, h'.sent, h'.calls)
            && h'.cacheReady == h.cacheReady && h'.retries == h.retries && h'.synced == h.synced && h'.syncSent == h.syncSent
  {
    hide StoreOk, CallsOk, ReplayOne;
    if n > 0 {
      ReplayHost(h, encOks, n - 1);
      ReplayOneHost(Replay(h, encOks, n - 1), n - 1, Encrypts(encOks, n - 1));
    }
  }

  lemma ReplayKeeps(h: Host, encOks: seq<bool>, n: nat)
    requires HostInv(h) && n <= |h.store|
    ensures HostInv(Replay(h, encOks, n)) && Framed(h.client, Replay(h, encOks, n).client)
  {
    ReplayInv(h, encOks, n);
    ReplayFramed(h, encOks, n);
    ReplayHost(h, encOks, n);
  }

  lemma UnexpiredMembers(store: seq<Saved>, now: int)
    ensures forall p :: p in Unexpired(store, now) <==> p in store && !p.used && now - p.created <= DATA_TIMEOUT
    ensures |Unexpired(store, now)| <= |store|
  {
    hide Kept;
    KeptMembers(store, Spent(now));
  }

  ghost predicate InOrder(store: seq<Saved>) { forall i, j :: 0 <= i < j < |store| ==> store[i].call < store[j].call }

  lemma UnexpiredInOrder(store: seq<Saved>, now: int)
    requires InOrder(store)
    ensures InOrder(Unexpired(store, now))
  {
    hide Kept;
    var r := Unexpired(store, now);
    forall i, k | 0 <= i < k < |r| ensures r[i].call < r[k].call {
      var j, l := KeptPositions(store, Spent(now), i, k);
    }
  }

  lemma UnexpiredKeeps(store: seq<Saved>, sent: seq<nat>, calls: nat, now: int)
    requires StoreOk(store) && CallsOk(store, sent, calls)
    ensures StoreOk(Unexpired(store, now)) && CallsOk(Unexpired(store, now), sent, calls)
  {
    UnexpiredMembers(store, now);
    UnexpiredInOrder(store, now);
    var r := Unexpired(store, now);
    forall i | 0 <= i < |r| ensures exists k :: 0 <= k < |store| && store[k] == r[i] {
      assert r[i] in store;
    }
  }

  lemma CleanupKeeps(h: Host, now: int)
    requires HostInv(h)
    ensures HostInv(CleanupStore(h, now)) && CleanupStore(h, now).client == h.client
  {
    UnexpiredKeeps(h.store, h.sent, h.calls, now);
  }

  lemma HandleKeyExchangeKeeps(h: Host, w: Handler)
    requires HostInv(h) && h.client.conn.Connected? && w.KeyExchange?
    ensures HostInv(Handle(h, w).0) && Framed(h.client, Handle(h, w).0.client)
  {
    if w.haveKey {
      var r := Req(w.pub, false, true, w.now);
      var (h1, ok) := SendPacket(h, r);
      SendPacketKeeps(h, r);
      if ok {
        SendSucceeds(h.client, w.pub, false, true);
        EnableKeeps(h1.client, w.keyOk);
        var e := EnableEncryption(h1.client, w.keyOk);
        var h2 := h1.(client := e.s);
        assert Framed(h1.client, h2.client);
        FramedTrans(h.client, h1.client, h2.client);
        if e.begins {
          var n := |h2.store|;
          ReplayKeeps(h2, w.encOks, n);
          var replayed := Replay(h2, w.encOks, n);
          FramedTrans(h.client, h2.client, replayed.client);
          CleanupKeeps(replayed, w.now);
          var h3 := CleanupStore(replayed, w.now);
          DirectSendsKeep(h3.client, w.refresh);
          FramedTrans(h.client, h3.client, DirectSends(h3.client, w.refresh));
        }
      }
    }
  }

  lemma HandleKeeps(h: Host, w: Handler)
    requires HostInv(h) && h.client.conn.Connected?
    ensures HostInv(Handle(h, w).0) && Framed(h.client, Handle(h, w).0.client)
  {
    match w
    case KeyExchange(_, _, _, _, _, _) => HandleKeyExchangeKeeps(h, w);
    case CacheStatus(ready) =>
    case Answers(reqs, ok) => SendPacketsKeep(h, reqs);
  }

  /** What the host believes of the bridge's cache survives an operation that did not lose the connection. */
  lemma OfClientKeeps(h: Host, client: State)
    requires HostInv(h) && Inv(client) && Advances(h.client, client)
    ensures HostInv(OfClient(h, client))
  {}

  /** Sessions are only added, and a connection is only ever left through OnDisconnect. */
  ghost predicate Advances(s: State, s': State) {
    && s'.session >= s.session
    && s'.losses >= s.losses
    && (s.conn.Connected? && s'.losses == s.losses ==> s'.conn.Connected?)
  }

  lemma HandleErrorAdvances(s: State, e: Err, critical: bool)
    ensures Advances(s, HandleError(s, e, critical))
  {}

  lemma ActivityAdvances(s: State, again: Task, e: Err)
    ensures Advances(s, HandleActivityError(s, again, e))
  {
    HandleErrorAdvances(PostTask(s, again), e, false);
    HandleErrorAdvances(s, e, false);
  }

  lemma ReconnectAdvances(s: State, ok: bool)
    ensures Advances(s, ReconnectFired(s, ok))
  {}

  lemma ResolvingAdvances(s: State, found: Resolution)
    ensures Advances(s, Resolved(s, found))
  {}

  lemma StartAdvances(s: State)
    requires !s.conn.Connected?
    ensures Advances(s, SessionStart(s))
  {}

  lemma ConnectingAdvances(s: State, c: Connection)
    ensures Advances(s, ConnectDone(s, c))
  {
    hide HandleError;
    if s.connects > 0 {
      var s1 := s.(connects := s.connects - 1);
      match c
      case ConnectFailed(e) => HandleErrorAdvances(s1, e, true);
      case NotOpen => HandleErrorAdvances(s1, PROTOCOL, true);
      case Opened =>
        if s1.conn.Connected? {
          HandleErrorAdvances(s1, PROTOCOL, false);
          HandleErrorAdvances(SessionStart(s1), PROTOCOL, true);
        } else {
          StartAdvances(s1);
        }
    }
  }

  lemma TimeoutAdvances(s: State, ok: bool)
    ensures Advances(s, TimeoutFired(s, ok))
  {}

  lemma WritingAdvances(s: State, e: Option<Err>)
    ensures Advances(s, RunTask(s)) && Advances(s, WriteDone(s, e))
  {
    if s.writes > 0 && e.Some? {
      ActivityAdvances(s.(writes := s.writes - 1), WriteAgainTask, e.value);
    }
  }

  lemma ReadingAdvances(s: State, k: nat, e: Err, inBody: bool)
    ensures Advances(s, ReadFailed(s, k, e, inBody)) && Advances(s, ReadMalformed(s, k)) && Advances(s, ReadUnknown(s, k))
  {
    if s.readers[k] > 0 {
      ActivityAdvances(TakeRead(s, k), ReadTask(k), e);
      ActivityAdvances(TakeRead(s, k), ReadTask(k), PROTOCOL);
    }
  }

  lemma CallsAdvance(s: State, needReconnect: bool)
    ensures Advances(s, s) && Advances(s, Connect(s)) && Advances(s, Disconnect(s, needReconnect)) && Advances(s, TickEnd(s))
    ensures Advances(s, ReconnectExpires(s)) && Advances(s, TimeoutExpires(s))
  {}

  lemma ClientAdvances(s: State, e: Event)
    ensures Advances(s, ClientStep(s, e))
  {
    hide Advances, Connect, Disconnect, ReconnectExpires, TimeoutExpires, ReconnectFired, TimeoutFired, Resolved, ConnectDone;
    hide RunTask, WriteDone, ReadFailed, ReadMalformed, ReadUnknown, TickEnd;
    CallsAdvance(s, e.EvDisconnect? && e.needReconnect);
    match e
    case EvReconnectFired(ok) => ReconnectAdvances(s, ok);
    case EvTimeoutFired(ok) => TimeoutAdvances(s, ok);
    case EvResolved(found) => ResolvingAdvances(s, found);
    case EvConnectDone(c) => ConnectingAdvances(s, c);
    case EvRunTask => WritingAdvances(s, None);
    case EvWriteDone(err) => WritingAdvances(s, err);
    case EvReadFailed(k, err, inBody) => ReadingAdvances(s, k, err, inBody);
    case EvReadMalformed(k) => ReadingAdvances(s, k, PROTOCOL, false);
    case EvReadUnknown(k) => ReadingAdvances(s, k, PROTOCOL, false);
    case _ =>
  }

  lemma CallsKeep(s: State, needReconnect: bool)
    requires Inv(s)
    ensures Inv(TickEnd(s)) && Inv(Disconnect(s, needReconnect))
  {
    TimersKeep(s, true);
    DisconnectKeeps(s, needReconnect);
  }

  lemma ClientStepKeeps(s: State, e: Event)
    requires Inv(s)
    ensures Inv(ClientStep(s, e))
  {
    hide Inv, Connect, Disconnect, ReconnectExpires, TimeoutExpires, ReconnectFired, TimeoutFired, Resolved, ConnectDone;
    hide RunTask, WriteDone, ReadFailed, ReadMalformed, ReadUnknown, TickEnd, Isolated;
    match e
    case EvConnect => ConnectKeeps(s);
    case EvDisconnect(needReconnect) => CallsKeep(s, needReconnect);
    case EvTickEnd => CallsKeep(s, true);
    case EvReconnectExpires => TimersKeep(s, true);
    case EvTimeoutExpires => TimersKeep(s, true);
    case EvReconnectFired(ok) => TimersKeep(s, ok);
    case EvTimeoutFired(ok) => TimersKeep(s, ok);
    case EvResolved(found) => ResolvedKeeps(s, found);
    case EvConnectDone(c) => ConnectDoneKeeps(s, c);
    case EvRunTask => RunTaskKeeps(s);
    case EvWriteDone(err) => WriteDoneKeeps(s, err);
    case EvReadFailed(k, err, inBody) => ReadEndsKeep(s, k, err, inBody);
    case EvReadMalformed(k) => ReadEndsKeep(s, k, PROTOCOL, false);
    case EvReadUnknown(k) => ReadEndsKeep(s, k, PROTOCOL, false);
    case _ =>
  }

  lemma TakenKeeps(h: Host, k: nat)
    requires HostInv(h) && h.client.readers[k] > 0
    ensures var s := TakeRead(h.client, k);
            && HostInv(h.(client := s)) && k !in Chains(s) && 1 <= k <= s.session
            && s.session == h.client.session && s.losses == h.client.losses && s.conn == h.client.conn
  {
    TakeReadKeeps(h.client, k);
  }

  lemma ReadHandledAdvances(s: State, k: nat, ok: bool)
    ensures Advances(s, ReadHandled(s, k, ok))
  {
    ActivityAdvances(s, ReadTask(k), PROTOCOL);
  }

  /** The handled packet's chain goes on, or does not, in the state its handler has left. */
  lemma HandledKeeps(h: Host, k: nat, ok: bool)
    requires HostInv(h) && 1 <= k <= h.client.session && k !in Chains(h.client)
    ensures HostInv(OfClient(h, ReadHandled(h.client, k, ok)))
  {
    hide StoreOk, CallsOk, Inv, ReadHandled, Advances, OfClient;
    ReadHandledKeeps(h.client, k, ok);
    ReadHandledAdvances(h.client, k, ok);
    OfClientKeeps(h, ReadHandled(h.client, k, ok));
  }

  lemma PacketReadKeeps(h: Host, k: nat, w: Handler)
    requires HostInv(h)
    ensures HostInv(PacketRead(h, k, w))
  {
    hide HostInv, Handle, ReadHandled, TakeRead, OfClient;
    if h.client.readers[k] > 0 {
      TakenKeeps(h, k);
      var h1 := h.(client := TakeRead(h.client, k));
      if h1.client.conn.Connected? {
        HandleKeeps(h1, w);
        HandledKeeps(Handle(h1, w).0, k, Handle(h1, w).1);
      }
    }
  }

  lemma SendSyncKeeps(h: Host, data: Bytes, authority: bool, encOk: bool)
    requires HostInv(h)
    ensures HostInv(SendSync(h, data, authority, encOk))
  {
    SendKeeps(h.client, data, true, encOk);
    SendFrame(h.client, data, true, encOk);
  }

  lemma ClientEventKeeps(h: Host, e: Event)
    requires HostInv(h)
    ensures HostInv(OfClient(h, ClientStep(h.client, e)))
  {
    hide ClientStep, Inv, StoreOk, CallsOk;
    ClientStepKeeps(h.client, e);
    ClientAdvances(h.client, e);
    OfClientKeeps(h, ClientStep(h.client, e));
  }

  lemma StepKeeps(h: Host, e: Event)
    requires HostInv(h)
    ensures HostInv(Step(h, e))
  {
    hide HostInv, SendPacket, SendSync, CleanupStore, PacketRead, ClientStep, OfClient;
    match e
    case EvSendPacket(r) => SendPacketKeeps(h, r);
    case EvSync(data, authority, encOk) => SendSyncKeeps(h, data, authority, encOk);
    case EvCleanup(now) => CleanupKeeps(h, now);
    case EvPacket(k, w) => PacketReadKeeps(h, k, w);
    case _ => ClientEventKeeps(h, e);
  }

  lemma PacketAdvances(h: Host, k: nat, w: Handler)
    requires HostInv(h)
    ensures Advances(h.client, PacketRead(h, k, w).client)
  {
    hide HostInv, Handle, ReadHandled, TakeRead, OfClient;
    if h.client.readers[k] > 0 {
      TakenKeeps(h, k);
      var h1 := h.(client := TakeRead(h.client, k));
      if h1.client.conn.Connected? {
        HandleKeeps(h1, w);
        var (h2, ok) := Handle(h1, w);
        ReadHandledAdvances(h2.client, k, ok);
        OfClientClient(h2, ReadHandled(h2.client, k, ok));
      }
    }
  }

  lemma FramedAdvances(s: State, s': State)
    requires Framed(s, s')
    ensures Advances(s, s')
  {}

  lemma SyncFramed(h: Host, data: Bytes, authority: bool, encOk: bool)
    ensures Framed(h.client, SendSync(h, data, authority, encOk).client)
  {
    hide Send, Framed;
    FramedRefl(h.client);
    SendFramed(h.client, data, true, encOk);
  }

  lemma OfClientClient(h: Host, client: State)
    ensures OfClient(h, client).client == client
  {}

  lemma StepAdvances(h: Host, e: Event)
    requires HostInv(h)
    ensures Advances(h.client, Step(h, e).client)
  {
    hide HostInv, SendPacket, SendSync, CleanupStore, PacketRead, ClientStep, OfClient, Framed, Advances;
    FramedRefl(h.client);
    match e
    case EvSendPacket(r) =>
      SendPacketKeeps(h, r);
      FramedAdvances(h.client, Step(h, e).client);
    case EvSync(data, authority, encOk) =>
      SyncFramed(h, data, authority, encOk);
      FramedAdvances(h.client, Step(h, e).client);
    case EvCleanup(now) =>
      CleanupKeeps(h, now);
      FramedAdvances(h.client, Step(h, e).client);
    case EvPacket(k, w) => PacketAdvances(h, k, w);
    case _ =>
      ClientAdvances(h.client, e);
      OfClientClient(h, ClientStep(h.client, e));
  }

  lemma {:induction false} RunKeeps(events: seq<Event>)
    ensures HostInv(Run(events))
  {
    if events == [] {
      InitialInv();
    } else {
      RunKeeps(events[..|events| - 1]);
      StepKeeps(Run(events[..|events| - 1]), events[|events| - 1]);
    }
  }

  lemma RunAppend(events: seq<Event>, e: Event)
    ensures Run(events + [e]) == Step(Run(events), e)
  {
    assert (events + [e])[..|events|] == events;
  }
}
