/**
 * When a queued frame can be left without anybody to write it. PostTask drops tasks at its cap, so
 * this is possible exactly when the cap is taken up by read tasks alone.
 */
module StrandedProofs {
  import opened Common
  import opened Session
  import opened SessionProofs
  import opened Bridge
  import opened BridgeProofs
  import opened Effects

  predicate IsWrite(t: Task) { t.WriteTask? || t.WriteAgainTask? }

  /** A write is in flight, or one is posted. */
  ghost predicate HasWriter(s: State) {
    s.writes > 0 || exists i :: 0 <= i < |s.tasks| && IsWrite(s.tasks[i])
  }

  /** A queued frame has somebody to write it. */
  ghost predicate NotStranded(s: State) { s.conn.Connected? && s.queue != [] ==> HasWriter(s) }

  /** The task cap is reached and every posted task is a read. */
  ghost predicate Crowded(s: State) {
    |s.tasks| >= MAX_PENDING_TASKS && forall i :: 0 <= i < |s.tasks| ==> s.tasks[i].ReadTask?
  }

  // ----- One operation -----

  lemma PostKeepsWriter(s: State, t: Task)
    requires HasWriter(s)
    ensures HasWriter(PostTask(s, t))
  {
    if s.writes == 0 {
      var i :| 0 <= i < |s.tasks| && IsWrite(s.tasks[i]);
      assert IsWrite(PostTask(s, t).tasks[i]);
    }
  }

  /** Unless crowded by reads, posting a write leaves a writer, and leaves room for another. */
  lemma PostedWrite(s: State, t: Task)
    requires IsWrite(t) && !Crowded(s)
    ensures HasWriter(PostTask(s, t)) && !Crowded(PostTask(s, t))
  {
    var tasks := PostTask(s, t).tasks;
    if |s.tasks| < MAX_PENDING_TASKS {
      assert tasks[|s.tasks|] == t;
    } else {
      var i :| 0 <= i < |s.tasks| && !s.tasks[i].ReadTask?;
      assert tasks == s.tasks && IsWrite(tasks[i]);
    }
  }

  lemma SendNotStranded(s: State, data: Bytes, encrypt: bool, encOk: bool)
    requires NotStranded(s) && !Crowded(s)
    ensures NotStranded(Send(s, data, encrypt, encOk).s) && !Crowded(Send(s, data, encrypt, encOk).s)
  {
    var o := Send(s, data, encrypt, encOk);
    if o.res.Success? {
      PostedWrite(s, WriteTask);
      assert o.s.tasks == PostTask(s, WriteTask).tasks && o.s.writes == s.writes;
      assert HasWriter(o.s);
    } else {
      assert o.s == s;
    }
  }

  lemma HandleErrorNotStranded(s: State, e: Err, critical: bool)
    requires Inv(s) && NotStranded(s)
    ensures NotStranded(HandleError(s, e, critical))
  {
    DisconnectKeeps(s, true);
  }

  /** A recoverable read error posts a read; a recoverable write error posts the write it owes. */
  lemma ActivityNotStranded(s: State, again: Task, e: Err)
    requires Inv(s)
    requires again.ReadTask? ==> NotStranded(s) && 1 <= again.session <= s.session && again.session !in Chains(s)
    requires IsWrite(again) ==> !Crowded(s)
    ensures NotStranded(HandleActivityError(s, again, e))
  {
    DisconnectKeeps(s, true);
    PostTaskKeeps(s, again);
    DisconnectKeeps(PostTask(s, again), true);
    if CloseDecision(e, false).CloseNone? && s.conn.Connected? {
      if IsWrite(again) {
        PostedWrite(s, again);
      } else if s.queue != [] {
        PostKeepsWriter(s, again);
      }
    }
  }

  lemma RunTaskNotStranded(s: State)
    requires Inv(s) && NotStranded(s)
    ensures NotStranded(RunTask(s))
  {
    if s.tasks != [] {
      var s' := RunTask(s);
      if IsWrite(s.tasks[0]) {
        assert s.queue != [] ==> s'.writes > 0;
      } else if s'.conn.Connected? && s'.queue != [] && s.writes == 0 {
        var i :| 0 <= i < |s.tasks| && IsWrite(s.tasks[i]);
        assert s'.tasks[i - 1] == s.tasks[i];
      }
    }
  }

  lemma WriteDoneNotStranded(s: State, e: Option<Err>)
    requires Inv(s) && NotStranded(s) && !Crowded(s)
    ensures NotStranded(WriteDone(s, e))
  {
    if s.writes > 0 {
      var s1 := s.(writes := s.writes - 1);
      assert Inv(s1) && !Crowded(s1);
      if e.Some? {
        ActivityNotStranded(s1, WriteAgainTask, e.value);
      } else {
        PostedWrite(s1, WriteTask);
      }
    }
  }

  lemma ReadEndsNotStranded(s: State, k: nat, e: Err, inBody: bool)
    requires Inv(s) && NotStranded(s)
    ensures NotStranded(ReadFailed(s, k, e, inBody)) && NotStranded(ReadMalformed(s, k)) && NotStranded(ReadUnknown(s, k))
  {
    if s.readers[k] > 0 {
      TakeReadKeeps(s, k);
      var s1 := TakeRead(s, k);
      assert NotStranded(s1);
      ActivityNotStranded(s1, ReadTask(k), e);
      ActivityNotStranded(s1, ReadTask(k), PROTOCOL);
    }
  }

  lemma TimeoutNotStranded(s: State, ok: bool)
    requires Inv(s) && NotStranded(s)
    ensures NotStranded(TimeoutFired(s, ok))
  {
    if s.timeout.fired > 0 {
      var s1 := s.(timeout := s.timeout.(fired := s.timeout.fired - 1));
      DisconnectKeeps(s1, true);
      var s2 := if ok then Disconnect(s1, true) else s1;
      if !s2.conn.Connected? {
        DisconnectKeeps(s2.(conn := Disconnected), true);
      }
    }
  }

  lemma ReconnectNotStranded(s: State, ok: bool)
    requires Inv(s) && NotStranded(s)
    ensures NotStranded(ReconnectFired(s, ok))
  {
    if s.reconnect.fired > 0 {
      var s1 := s.(reconnect := s.reconnect.(fired := s.reconnect.fired - 1));
      DisconnectKeeps(s1, true);
    }
  }

  lemma SameWork(s: State, s': State)
    requires NotStranded(s) && s'.conn == s.conn && s'.queue == s.queue && s'.tasks == s.tasks && s'.writes == s.writes
    ensures NotStranded(s')
  {}

  lemma ResolvedNotStranded(s: State, found: Resolution)
    requires Inv(s) && NotStranded(s)
    ensures NotStranded(Resolved(s, found))
  {
    hide Inv, NotStranded, HandleError;
    if s.resolves > 0 {
      var s1 := s.(resolves := s.resolves - 1);
      CountersFree(s, s.resolves - 1, s.connects, s.writes);
      SameWork(s, s1);
      match found
      case ResolveFailed(e) => HandleErrorNotStranded(s1, e, true);
      case NoIPv4 => HandleErrorNotStranded(s1, NO_IPV4, false);
      case Found => SameWork(s1, Resolved(s, found));
    }
  }

  lemma StartNotStranded(s: State)
    requires Inv(s) && !s.conn.Connected?
    ensures NotStranded(SessionStart(s))
  {
    assert SessionStart(s).queue == [];
  }

  lemma ConnectDoneNotStranded(s: State, c: Connection)
    requires Inv(s) && NotStranded(s)
    ensures NotStranded(ConnectDone(s, c))
  {
    hide Inv, NotStranded, HandleError;
    if s.connects > 0 {
      var s1 := s.(connects := s.connects - 1);
      CountersFree(s, s.resolves, s.connects - 1, s.writes);
      SameWork(s, s1);
      match c
      case ConnectFailed(e) => HandleErrorNotStranded(s1, e, true);
      case NotOpen => HandleErrorNotStranded(s1, PROTOCOL, true);
      case Opened =>
        if s1.conn.Connected? {
          HandleErrorKeeps(s1, PROTOCOL, false);
          HandleErrorNotStranded(s1, PROTOCOL, false);
          HandleErrorNotStranded(SessionStart(s1), PROTOCOL, true);
        } else {
          StartNotStranded(s1);
        }
    }
  }

  lemma CallsNotStranded(s: State, needReconnect: bool)
    requires Inv(s) && NotStranded(s)
    ensures NotStranded(Connect(s)) && NotStranded(TickEnd(s)) && NotStranded(Disconnect(s, needReconnect))
    ensures NotStranded(ReconnectExpires(s)) && NotStranded(TimeoutExpires(s))
  {
    DisconnectKeeps(s, needReconnect);
  }

  /** No other event of the client alone ever strands a frame, crowded or not. */
  lemma OnlyWritesStrand(s: State, e: Event)
    requires Inv(s) && NotStranded(s) && !e.EvWriteDone?
    ensures NotStranded(ClientStep(s, e))
  {
    hide Inv, NotStranded, Crowded, Connect, Disconnect, TickEnd, ReconnectExpires, TimeoutExpires;
    hide ReconnectFired, TimeoutFired, Resolved, ConnectDone, RunTask, ReadFailed, ReadMalformed, ReadUnknown;
    CallsNotStranded(s, e.EvDisconnect? && e.needReconnect);
    match e
    case EvReconnectFired(ok) => ReconnectNotStranded(s, ok);
    case EvTimeoutFired(ok) => TimeoutNotStranded(s, ok);
    case EvResolved(found) => ResolvedNotStranded(s, found);
    case EvConnectDone(c) => ConnectDoneNotStranded(s, c);
    case EvRunTask => RunTaskNotStranded(s);
    case EvReadFailed(k, err, inBody) => ReadEndsNotStranded(s, k, err, inBody);
    case EvReadMalformed(k) => ReadEndsNotStranded(s, k, PROTOCOL, false);
    case EvReadUnknown(k) => ReadEndsNotStranded(s, k, PROTOCOL, false);
    case _ =>
  }

  lemma ClientStepNotStranded(s: State, e: Event)
    requires Inv(s) && NotStranded(s) && !Crowded(s)
    ensures NotStranded(ClientStep(s, e))
  {
    hide Inv, NotStranded, Crowded;
    if e.EvWriteDone? {
      WriteDoneNotStranded(s, e.e);
    } else {
      OnlyWritesStrand(s, e);
    }
  }

  // ----- Handlers -----

  ghost predicate Served(s: State) { NotStranded(s) && !Crowded(s) }

  lemma {:induction false} DirectSendsServed(s: State, reqs: seq<Req>)
    requires Served(s)
    ensures Served(DirectSends(s, reqs))
  {
    if reqs != [] {
      var r := reqs[|reqs| - 1];
      DirectSendsServed(s, reqs[..|reqs| - 1]);
      SendNotStranded(DirectSends(s, reqs[..|reqs| - 1]), r.data, r.encrypt, r.encOk);
    }
  }

  lemma SendPacketServed(h: Host, r: Req)
    requires Served(h.client)
    ensures Served(SendPacket(h, r).0.client)
  {
    SendNotStranded(h.client, r.data, r.encrypt, r.encOk);
  }

  lemma {:induction false} SendPacketsServed(h: Host, reqs: seq<Req>)
    requires Served(h.client)
    ensures Served(SendPackets(h, reqs).client)
  {
    if reqs != [] {
      SendPacketsServed(h, reqs[..|reqs| - 1]);
      SendPacketServed(SendPackets(h, reqs[..|reqs| - 1]), reqs[|reqs| - 1]);
    }
  }

  lemma {:induction false} ReplayServed(h: Host, encOks: seq<bool>, n: nat)
    requires Served(h.client) && n <= |h.store|
    ensures Served(Replay(h, encOks, n).client)
  {
    if n > 0 {
      ReplayServed(h, encOks, n - 1);
      var before := Replay(h, encOks, n - 1);
      SendNotStranded(before.client, before.store[n - 1].data, before.store[n - 1].encrypt, Encrypts(encOks, n - 1));
    }
  }

  lemma HandleServed(h: Host, w: Handler)
    requires Served(h.client)
    ensures Served(Handle(h, w).0.client)
  {
    match w
    case KeyExchange(haveKey, pub, keyOk, encOks, refresh, now) =>
      var r := Req(pub, false, true, now);
      SendPacketServed(h, r);
      var h1 := SendPacket(h, r).0;
      var h2 := h1.(client := EnableEncryption(h1.client, keyOk).s);
      assert Served(h2.client);
      ReplayServed(h2, encOks, |h2.store|);
      var h3 := CleanupStore(Replay(h2, encOks, |h2.store|), now);
      DirectSendsServed(h3.client, refresh);
    case CacheStatus(ready) =>
    case Answers(reqs, ok) => SendPacketsServed(h, reqs);
  }

  lemma PacketReadNotStranded(h: Host, k: nat, w: Handler)
    requires HostInv(h) && Served(h.client)
    ensures NotStranded(PacketRead(h, k, w).client)
  {
    if h.client.readers[k] > 0 {
      TakeReadKeeps(h.client, k);
      var h1 := h.(client := TakeRead(h.client, k));
      assert Served(h1.client);
      if h1.client.conn.Connected? {
        HandleKeeps(h1, w);
        HandleServed(h1, w);
        var (h2, ok) := Handle(h1, w);
        ActivityNotStranded(h2.client, ReadTask(k), PROTOCOL);
        if h2.client.queue != [] {
          PostKeepsWriter(h2.client, ReadTask(k));
        }
      }
    }
  }

  // ----- Runs -----

  lemma ServedNotStranded(s: State)
    requires Served(s)
    ensures NotStranded(s)
  {}

  lemma SyncNotStranded(h: Host, data: Bytes, authority: bool, encOk: bool)
    requires Served(h.client)
    ensures NotStranded(SendSync(h, data, authority, encOk).client)
  {
    hide Send, NotStranded, Crowded;
    SendNotStranded(h.client, data, true, encOk);
  }

  lemma ClientEventNotStranded(h: Host, e: Event)
    requires HostInv(h) && Served(h.client)
    ensures NotStranded(OfClient(h, ClientStep(h.client, e)).client)
  {
    hide ClientStep, Inv, NotStranded, Crowded, OfClient;
    ClientStepNotStranded(h.client, e);
    OfClientClient(h, ClientStep(h.client, e));
  }

  lemma StepNotStranded(h: Host, e: Event)
    requires HostInv(h) && Served(h.client)
    ensures NotStranded(Step(h, e).client)
  {
    hide HostInv, SendPacket, SendSync, CleanupStore, PacketRead, ClientStep, OfClient, Served, NotStranded;
    ServedNotStranded(h.client);
    match e
    case EvSendPacket(r) =>
      SendPacketServed(h, r);
      ServedNotStranded(Step(h, e).client);
    case EvSync(data, authority, encOk) => SyncNotStranded(h, data, authority, encOk);
    case EvCleanup(now) => CleanupKeeps(h, now);
    case EvPacket(k, w) => PacketReadNotStranded(h, k, w);
    case _ => ClientEventNotStranded(h, e);
  }

  /** In a run that is never crowded with read tasks, no queued frame is ever stranded. */
  lemma {:induction false} NoStrandedPacket(events: seq<Event>)
    requires forall n :: 0 <= n < |events| ==> !Crowded(Run(events[..n]).client)
    ensures NotStranded(Run(events).client)
  {
    if events != [] {
      var n := |events| - 1;
      var before := events[..n];
      forall m | 0 <= m < |before| ensures !Crowded(Run(before[..m]).client) {
        assert before[..m] == events[..m];
      }
      NoStrandedPacket(before);
      RunKeeps(before);
      StepNotStranded(Run(before), events[n]);
    }
  }

  // ----- Being crowded takes as many sessions as the cap -----

  lemma {:induction false} AllReads(tasks: seq<Task>)
    requires forall i :: 0 <= i < |tasks| ==> tasks[i].ReadTask?
    ensures |ReadSessions(tasks)| == |tasks|
  {
    if tasks != [] {
      AllReads(tasks[..|tasks| - 1]);
    }
  }

  lemma {:induction false} SingleIsSmall(m: multiset<nat>, n: nat)
    requires Single(m, n)
    ensures |m| <= n
  {
    if n == 0 {
      assert m == multiset{};
    } else {
      var rest := m[n := 0];
      assert Single(rest, n - 1);
      SingleIsSmall(rest, n - 1);
      assert m == rest + multiset{n} || m == rest;
    }
  }

  lemma CrowdedTakesSessions(s: State)
    requires Inv(s) && Crowded(s)
    ensures s.session >= MAX_PENDING_TASKS
  {
    AllReads(s.tasks);
    SingleIsSmall(Chains(s), s.session);
  }

  lemma {:induction false} SessionsOnlyGrowInRuns(events: seq<Event>, n: nat)
    requires n <= |events|
    ensures Run(events[..n]).client.session <= Run(events).client.session
    decreases |events|
  {
    if n < |events| {
      var before := events[..|events| - 1];
      SessionsOnlyGrowInRuns(before, n);
      assert before[..n] == events[..n];
      RunKeeps(before);
      StepAdvances(Run(before), events[|events| - 1]);
    } else {
      assert events[..n] == events;
    }
  }

  /** So in every run of fewer sessions than the cap, no queued frame is ever stranded. */
  lemma NoStrandedPacketBelowCap(events: seq<Event>)
    requires Run(events).client.session < MAX_PENDING_TASKS
    ensures NotStranded(Run(events).client)
  {
    forall n | 0 <= n < |events| ensures !Crowded(Run(events[..n]).client) {
      SessionsOnlyGrowInRuns(events, n);
      RunKeeps(events[..n]);
      if Crowded(Run(events[..n]).client) {
        CrowdedTakesSessions(Run(events[..n]).client);
      }
    }
    NoStrandedPacket(events);
  }

  // ----- And crowding does strand a frame -----

  /** An accepted frame is stranded exactly when Send runs while crowded and nothing is being written. */
  lemma SendStrandsIff(s: State, data: Bytes, encrypt: bool, encOk: bool)
    requires Inv(s) && Send(s, data, encrypt, encOk).res.Success?
    ensures NotStranded(Send(s, data, encrypt, encOk).s) <==> !(Crowded(s) && s.writes == 0)
  {
    var s' := Send(s, data, encrypt, encOk).s;
    assert s'.tasks == PostTask(s, WriteTask).tasks && s'.writes == s.writes && s'.queue != [];
    if !Crowded(s) {
      PostedWrite(s, WriteTask);
    }
  }

  /** When a write completes, its frames' successor is stranded exactly if it was the only write and the post is dropped. */
  lemma WriteDoneStrandsIff(s: State, e: Option<Err>)
    requires Inv(s) && NotStranded(s) && s.writes > 0
    ensures NotStranded(WriteDone(s, e)) <==>
            !(s.conn.Connected? && s.queue != [] && s.writes == 1 && Crowded(s)
              && (e.None? || CloseDecision(e.value, false).CloseNone?))
  {
    if !Crowded(s) {
      WriteDoneNotStranded(s, e);
    } else {
      WriteDoneCrowded(s, e);
    }
  }

  lemma WriteDoneCrowded(s: State, e: Option<Err>)
    requires Inv(s) && Crowded(s) && s.writes > 0
    ensures var s' := WriteDone(s, e);
            if s.conn.Connected? && (e.None? || CloseDecision(e.value, false).CloseNone?)
            then s'.conn.Connected? && s'.queue == s.queue && s'.tasks == s.tasks && s'.writes == s.writes - 1
            else !s'.conn.Connected? && s'.queue == []
  {
    var s1 := s.(writes := s.writes - 1);
    CountersFree(s, s.resolves, s.connects, s.writes - 1);
    DisconnectKeeps(s1, true);
  }

  /** Not connected, nothing under way, and the first `k` sessions' read tasks still posted. */
  ghost predicate Resting(s: State, k: nat) {
    && !s.conn.Connected? && s.resolves == 0 && s.connects == 0 && s.writes == 0
    && s.queue == [] && !s.encrypted && !s.crypto
    && |s.tasks| == (if k <= MAX_PENDING_TASKS then k else MAX_PENDING_TASKS)
    && forall i :: 0 <= i < |s.tasks| ==> s.tasks[i].ReadTask?
  }

  /** On the way from there to a session: resolving, connecting, and the session begun. */
  ghost predicate Dialing(s: State, k: nat) { s.resolves == 1 && Resting(s.(resolves := 0), k) }

  ghost predicate Joining(s: State, k: nat) { s.connects == 1 && Resting(s.(connects := 0), k) }

  ghost predicate Opening(s: State, k: nat) { s.conn.Connected? && Resting(s.(conn := Disconnected), k) }

  lemma DialState(s: State, k: nat)
    requires Resting(s, k)
    ensures Dialing(Connect(s), k)
  {}

  lemma JoinState(s: State, k: nat)
    requires Dialing(s, k)
    ensures Joining(Resolved(s, Found), k)
  {}

  lemma OpenState(s: State, k: nat)
    requires Joining(s, k)
    ensures Opening(ConnectDone(s, Opened), k + 1)
  {}

  lemma CloseState(s: State, k: nat)
    requires Opening(s, k)
    ensures Resting(Disconnect(s, true), k)
  {}

  /** The events of one session's beginning. */
  function WithOpen(events: seq<Event>): seq<Event> {
    events + [EvConnect] + [EvResolved(Found)] + [EvConnectDone(Opened)]
  }

  /** `events` leave the client in state `s`. */
  ghost predicate Leads(events: seq<Event>, s: State) { Run(events).client == s }

  lemma LeadsOn(events: seq<Event>, e: Event, s: State)
    requires Leads(events, s) && OfClientOnly(e)
    ensures Leads(events + [e], ClientStep(s, e))
  {
    hide ClientStep, Step;
    RunAppend(events, e);
    ClientEvents(Run(events), e);
  }

  lemma OpenRun(events: seq<Event>, s: State, k: nat) returns (s': State)
    requires Leads(events, s) && Resting(s, k)
    ensures Leads(WithOpen(events), s') && Opening(s', k + 1)
  {
    hide Leads, Resting, Dialing, Joining, Opening, Connect, Resolved, ConnectDone;
    var s1 := Connect(s);
    LeadsOn(events, EvConnect, s);
    DialState(s, k);
    var s2 := Resolved(s1, Found);
    LeadsOn(events + [EvConnect], EvResolved(Found), s1);
    JoinState(s1, k);
    s' := ConnectDone(s2, Opened);
    LeadsOn(events + [EvConnect] + [EvResolved(Found)], EvConnectDone(Opened), s2);
    OpenState(s2, k);
  }

  /** Sessions that begin and end before any posted task runs. */
  function Flapping(k: nat): seq<Event> {
    if k == 0 then [] else WithOpen(Flapping(k - 1)) + [EvDisconnect(true)]
  }

  lemma AtRest()
    ensures Leads([], INITIAL) && Resting(INITIAL, 0)
  {}

  lemma {:induction false} FlappingRests(k: nat) returns (s: State)
    ensures Leads(Flapping(k), s) && Resting(s, k)
  {
    hide Leads, Resting, Opening, Disconnect;
    if k == 0 {
      s := INITIAL;
      AtRest();
    } else {
      var before := FlappingRests(k - 1);
      var inSession := OpenRun(Flapping(k - 1), before, k - 1);
      LeadsOn(WithOpen(Flapping(k - 1)), EvDisconnect(true), inSession);
      CloseState(inSession, k);
      s := Disconnect(inSession, true);
    }
  }

  lemma FlappingOpens(k: nat) returns (s: State)
    ensures Leads(WithOpen(Flapping(k)), s) && Opening(s, k + 1)
  {
    hide Leads, Resting, Opening;
    var before := FlappingRests(k);
    s := OpenRun(Flapping(k), before, k);
  }

  lemma OpenCrowded(s: State)
    requires Opening(s, MAX_PENDING_TASKS + 1)
    ensures Crowded(s) && s.writes == 0 && Send(s, [1], true, true).res.Success?
  {}

  lemma LeadsSend(events: seq<Event>, s: State)
    requires Leads(events, s)
    ensures Leads(events + [EvSendPacket(Req([1], true, true, 0))], Send(s, [1], true, true).s)
  {
    RunAppend(events, EvSendPacket(Req([1], true, true, 0)));
  }

  lemma LeadsInv(events: seq<Event>, s: State)
    requires Leads(events, s)
    ensures Inv(s) && Run(events).client == s
  {
    RunKeeps(events);
  }

  /** The proviso is needed: after as many such sessions as the cap, a packet sent is stranded. */
  lemma CrowdingStrands()
    ensures !NotStranded(Run(WithOpen(Flapping(MAX_PENDING_TASKS)) + [EvSendPacket(Req([1], true, true, 0))]).client)
  {
    hide Opening, Leads, Inv, Run, Send, NotStranded, Crowded, WithOpen, Flapping;
    var events := WithOpen(Flapping(MAX_PENDING_TASKS));
    var s := FlappingOpens(MAX_PENDING_TASKS);
    OpenCrowded(s);
    LeadsInv(events, s);
    LeadsSend(events, s);
    LeadsInv(events + [EvSendPacket(Req([1], true, true, 0))], Send(s, [1], true, true).s);
    SendStrandsIff(s, [1], true, true);
  }

  // ----- Two more things the session machine allows -----

  lemma AddedSize(m: multiset<nat>, k: nat)
    ensures |m + multiset{k}| == |m| + 1
  {}

  /**
   * A session begins with a second read chain alive exactly if one of an ended session still is and
   * PostTask has room for its own, or if there were several already.
   */
  lemma SecondChainIff(s: State)
    requires Inv(s) && !s.conn.Connected?
    ensures |Chains(SessionStart(s))| <= 1 <==>
            Chains(s) == multiset{} || (|Chains(s)| <= 1 && |s.tasks| >= MAX_PENDING_TASKS)
  {
    var s1 := ClearTimers(s).(conn := Connected, session := s.session + 1);
    var s2 := Logged(s1, Started(s1.session));
    assert Chains(s2) == Chains(s);
    TasksAppend(s2.tasks, ReadTask(s2.session));
    AddedSize(Chains(s), s2.session);
    if |s.tasks| < MAX_PENDING_TASKS {
      assert Chains(SessionStart(s)) == Chains(s) + multiset{s2.session};
    }
  }

  /** A chain of an earlier session may still be posted when the next session begins its own. */
  lemma TwoChainsAlive()
    ensures var s := Run(WithOpen(Flapping(1))).client;
            s.conn.Connected? && |s.tasks| == 2 && s.tasks[0].ReadTask? && s.tasks[1].ReadTask?
  {
    var s := FlappingOpens(1);
  }

  /** Two packets sent in a row, and their writes and the session's read run. */
  function SendTwiceAndWrite(s: State): State {
    RunTask(RunTask(RunTask(Send(Send(s, [1], true, true).s, [1], true, true).s)))
  }

  lemma WritesOverlapState(s: State)
    requires Opening(s, 1)
    ensures SendTwiceAndWrite(s).writes == 2 && SendTwiceAndWrite(s).conn.Connected?
  {
    var f := WireFrame([1], false);
    var s1 := Send(s, [1], true, true).s;
    assert s1.queue == [f] && s1.tasks == [s.tasks[0], WriteTask] && s1.writes == 0;
    var s2 := Send(s1, [1], true, true).s;
    assert s2.queue == [f, f] && s2.tasks == [s.tasks[0], WriteTask, WriteTask] && s2.writes == 0;
    var s3 := RunTask(s2);
    assert s3.queue == [f, f] && s3.tasks == [WriteTask, WriteTask] && s3.writes == 0;
    var s4 := RunTask(s3);
    assert s4.queue == [f] && s4.tasks == [WriteTask] && s4.writes == 1;
  }

  /** The next task is a write, and one is in flight already. */
  predicate Overlaps(s: State) { s.writes > 0 && s.queue != [] && s.tasks != [] && IsWrite(s.tasks[0]) }

  /** Running a task starts a second async_write exactly in that case. */
  lemma SecondWriteIff(s: State)
    requires Inv(s) && s.writes <= 1
    ensures RunTask(s).writes <= 1 <==> !Overlaps(s)
  {
    if s.tasks != [] && s.queue != [] {
      assert s.queue[0].data != [];
    }
  }

  lemma StepWrites(h: Host, e: Event)
    requires HostInv(h)
    ensures if e.EvRunTask? then Step(h, e).client == RunTask(h.client) else Step(h, e).client.writes <= h.client.writes
  {
    hide HostInv, SendPacket, SendSync, CleanupStore, PacketRead, RunTask, ConnectDone, OfClient;
    match e
    case EvRunTask => OfClientClient(h, RunTask(h.client));
    case EvConnectDone(c) =>
      ConnectDoneEffect(h.client, c);
      OfClientClient(h, ConnectDone(h.client, c));
    case _ => StepEffect(h, e);
  }

  ghost predicate OneWrite(events: seq<Event>) { forall n :: 0 <= n <= |events| ==> Run(events[..n]).client.writes <= 1 }

  /** In no state of the run that is followed by running a task does that task overlap a write. */
  ghost predicate NoOverlap(events: seq<Event>) {
    forall n :: 0 <= n < |events| && events[n].EvRunTask? ==> !Overlaps(Run(events[..n]).client)
  }

  lemma LastStepWrites(events: seq<Event>, e: Event)
    requires Run(events).client.writes <= 1
    ensures Run(events + [e]).client.writes <= 1 <==> !(e.EvRunTask? && Overlaps(Run(events).client))
  {
    hide Run, Step, RunTask, Inv, HostInv, Overlaps;
    RunKeeps(events);
    RunAppend(events, e);
    StepWrites(Run(events), e);
    InvOfHost(Run(events));
    SecondWriteIff(Run(events).client);
  }

  lemma InvOfHost(h: Host)
    requires HostInv(h)
    ensures Inv(h.client)
  {}

  lemma PrefixIndex(events: seq<Event>, n: nat)
    requires n < |events|
    ensures events[..n + 1] == events[..n] + [events[n]]
  {}

  lemma {:induction false} OneWriteUpTo(events: seq<Event>, n: nat)
    requires n <= |events| && NoOverlap(events)
    ensures Run(events[..n]).client.writes <= 1
  {
    if n > 0 {
      OneWriteUpTo(events, n - 1);
      PrefixIndex(events, n - 1);
      LastStepWrites(events[..n - 1], events[n - 1]);
    }
  }

  /** At most one async_write is ever in flight exactly if no task runs that overlaps one. */
  lemma OneWriteIff(events: seq<Event>)
    ensures OneWrite(events) <==> NoOverlap(events)
  {
    hide Run, Overlaps;
    if NoOverlap(events) {
      forall n | 0 <= n <= |events| ensures Run(events[..n]).client.writes <= 1 {
        OneWriteUpTo(events, n);
      }
    }
    if OneWrite(events) {
      forall n | 0 <= n < |events| && events[n].EvRunTask? ensures !Overlaps(Run(events[..n]).client) {
        PrefixIndex(events, n);
        LastStepWrites(events[..n], events[n]);
      }
    }
  }

  /** Every posted write starts its own async_write: a second one does not wait for the first. */
  lemma WritesMayOverlap()
    ensures exists events :: Run(events).client.writes == 2 && Run(events).client.conn.Connected?
  {
    hide Send, RunTask, Opening, Leads, Inv, Run, WithOpen, Flapping;
    var r := EvSendPacket(Req([1], true, true, 0));
    var e0 := WithOpen(Flapping(0));
    var s0 := FlappingOpens(0);
    WritesOverlapState(s0);
    var s1 := Send(s0, [1], true, true).s;
    LeadsSend(e0, s0);
    LeadsSend(e0 + [r], s1);
    var s2 := Send(s1, [1], true, true).s;
    LeadsOn(e0 + [r] + [r], EvRunTask, s2);
    LeadsOn(e0 + [r] + [r] + [EvRunTask], EvRunTask, RunTask(s2));
    LeadsOn(e0 + [r] + [r] + [EvRunTask] + [EvRunTask], EvRunTask, RunTask(RunTask(s2)));
    LeadsInv(e0 + [r] + [r] + [EvRunTask] + [EvRunTask] + [EvRunTask], RunTask(RunTask(RunTask(s2))));
  }
}
