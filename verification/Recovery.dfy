/**
 * What can still happen in every reachable state: the client finds its way back to a session, and
 * what is queued can be written. And when a read chain goes on, or is lost for good.
 */
module Recovery {
  import opened Common
  import opened Session
  import opened SessionProofs
  import opened Bridge
  import opened BridgeProofs
  import opened StrandedProofs

  function ClientSteps(s: State, events: seq<Event>): State
    decreases |events|
  {
    if events == [] then s else ClientSteps(ClientStep(s, events[0]), events[1..])
  }

  lemma RunOne(events: seq<Event>, e: Event)
    requires OfClientOnly(e)
    ensures Run(events + [e]).client == ClientStep(Run(events).client, e)
  {
    LeadsOn(events, e, Run(events).client);
  }

  lemma {:induction false} RunOn(events: seq<Event>, more: seq<Event>)
    requires forall e :: e in more ==> OfClientOnly(e)
    ensures Run(events + more).client == ClientSteps(Run(events).client, more)
    decreases |more|
  {
    hide Run, ClientStep, OfClientOnly;
    if more == [] {
      assert events + more == events;
    } else {
      var e, rest := more[0], more[1..];
      RunOne(events, e);
      assert forall d :: d in rest ==> d in more;
      RunOn(events + [e], rest);
      assert events + [e] + rest == events + more;
    }
  }

  lemma StepsFront(s: State, e: Event, more: seq<Event>)
    ensures ClientSteps(s, [e] + more) == ClientSteps(ClientStep(s, e), more)
  {
    assert ([e] + more)[1..] == more;
  }

  // ----- Back to a session -----

  /** The timers expire and the network answers; nobody calls the client. */
  predicate Unaided(e: Event) {
    e in {EvTickEnd, EvReconnectExpires, EvTimeoutExpires, EvReconnectFired(true), EvTimeoutFired(true),
          EvResolved(Found), EvConnectDone(Opened)}
  }

  /** What is left to happen, told from the last step to the first. */
  function OpenPath(): seq<Event> { [EvConnectDone(Opened)] }

  function DialPath(): seq<Event> { [EvResolved(Found)] + OpenPath() }

  function FiredPath(): seq<Event> { [EvReconnectFired(true)] + DialPath() }

  function WaitPath(s: State): seq<Event> { (if s.reconnect.fired > 0 then [] else [EvReconnectExpires]) + FiredPath() }

  lemma OpenPathConnects(s: State)
    requires s.conn.Connecting? && s.connects > 0
    ensures ClientSteps(s, OpenPath()).conn.Connected?
  {
    assert ClientSteps(ConnectDone(s, Opened), OpenPath()[1..]) == ConnectDone(s, Opened);
  }

  lemma DialPathConnects(s: State)
    requires s.conn.Connecting? && s.resolves > 0
    ensures ClientSteps(s, DialPath()).conn.Connected?
  {
    StepsFront(s, EvResolved(Found), OpenPath());
    OpenPathConnects(Resolved(s, Found));
  }

  lemma FiredPathConnects(s: State)
    requires s.conn.Connecting? && s.reconnect.fired > 0
    ensures ClientSteps(s, FiredPath()).conn.Connected?
  {
    StepsFront(s, EvReconnectFired(true), DialPath());
    DialPathConnects(ReconnectFired(s, true));
  }

  lemma WaitPathConnects(s: State)
    requires s.conn.Connecting? && Pending(s.reconnect)
    ensures ClientSteps(s, WaitPath(s)).conn.Connected?
  {
    if s.reconnect.fired > 0 {
      assert [] + FiredPath() == FiredPath();
      FiredPathConnects(s);
    } else {
      StepsFront(s, EvReconnectExpires, FiredPath());
      FiredPathConnects(ReconnectExpires(s));
    }
  }

  /** The connect timeout gives the attempt up and starts the reconnect timer. */
  lemma TimeoutStartsReconnect(s: State)
    requires s.conn.Connecting? && s.timeout.fired > 0
    ensures TimeoutFired(s, true).conn.Connecting? && Pending(TimeoutFired(s, true).reconnect)
  {}

  lemma TimedOutPath(s: State) returns (more: seq<Event>)
    requires s.conn.Connecting? && s.timeout.fired > 0
    ensures |more| <= 5 && (forall e :: e in more ==> Unaided(e))
    ensures ClientSteps(s, more).conn.Connected?
  {
    var s1 := TimeoutFired(s, true);
    TimeoutStartsReconnect(s);
    WaitPathConnects(s1);
    StepsFront(s, EvTimeoutFired(true), WaitPath(s1));
    more := [EvTimeoutFired(true)] + WaitPath(s1);
  }

  lemma NoSteps(s: State)
    ensures ClientSteps(s, []) == s
  {}

  lemma TickWaits(s: State)
    requires s.conn.Disconnected?
    ensures TickEnd(s).conn.Connecting? && Pending(TickEnd(s).reconnect) && ClientStep(s, EvTickEnd) == TickEnd(s)
  {}

  lemma TimeoutWaits(s: State)
    requires s.conn.Connecting? && s.timeout.armed
    ensures TimeoutExpires(s).conn.Connecting? && TimeoutExpires(s).timeout.fired > 0
    ensures ClientStep(s, EvTimeoutExpires) == TimeoutExpires(s)
  {}

  lemma WaitPathShort(s: State)
    ensures |WaitPath(s)| <= 4 && forall e :: e in WaitPath(s) ==> Unaided(e)
  {}

  lemma ReconnectPath(s: State) returns (more: seq<Event>)
    requires Awake(s)
    ensures |more| <= 6 && (forall e :: e in more ==> Unaided(e))
    ensures ClientSteps(s, more).conn.Connected?
  {
    hide ClientSteps, ClientStep, TickEnd, TimeoutExpires, WaitPath;
    if s.conn.Connected? {
      more := [];
      NoSteps(s);
    } else if s.conn.Disconnected? {
      var s1 := TickEnd(s);
      TickWaits(s);
      WaitPathConnects(s1);
      WaitPathShort(s1);
      StepsFront(s, EvTickEnd, WaitPath(s1));
      more := [EvTickEnd] + WaitPath(s1);
    } else if Pending(s.reconnect) {
      WaitPathConnects(s);
      WaitPathShort(s);
      more := WaitPath(s);
    } else if s.timeout.fired > 0 {
      more := TimedOutPath(s);
    } else {
      var s1 := TimeoutExpires(s);
      TimeoutWaits(s);
      var rest := TimedOutPath(s1);
      StepsFront(s, EvTimeoutExpires, rest);
      more := [EvTimeoutExpires] + rest;
    }
  }

  /**
   * After any run, whatever failed or was cancelled in it, six events of timers and network are
   * enough for a session: the application never has to call Connect again.
   */
  lemma CanAlwaysReconnect(events: seq<Event>)
    ensures exists more :: |more| <= 6 && (forall e :: e in more ==> Unaided(e)) && Run(events + more).client.conn.Connected?
  {
    RunKeeps(events);
    var more := ReconnectPath(Run(events).client);
    RunOn(events, more);
  }

  /** The handler of the connect timeout ends a session exactly when its wait had completed without an error. */
  lemma TimeoutEndsSessionIff(s: State, ok: bool)
    requires s.conn.Connected? && s.timeout.fired > 0
    ensures TimeoutFired(s, ok).conn.Connected? <==> !ok
  {}

  /** And it can: a timeout that expired just before the connection opened ends the new session. */
  lemma StaleTimeoutDropsSession()
    ensures var dialed := [EvConnect] + [EvTimeoutExpires] + [EvResolved(Found)] + [EvConnectDone(Opened)];
            && Run(dialed).client.conn.Connected?
            && !Run(dialed + [EvTimeoutFired(true)]).client.conn.Connected?
  {
    hide Connect, TimeoutExpires, Resolved;
    AtRest();
    LeadsOn([], EvConnect, INITIAL);
    assert [] + [EvConnect] == [EvConnect];
    var s1 := Connect(INITIAL);
    LeadsOn([EvConnect], EvTimeoutExpires, s1);
    var s2 := TimeoutExpires(s1);
    LeadsOn([EvConnect] + [EvTimeoutExpires], EvResolved(Found), s2);
    ExpiredWhileResolving();
    OpensWithExpiredTimeout([EvConnect] + [EvTimeoutExpires] + [EvResolved(Found)], Resolved(s2, Found));
  }

  lemma ExpiredWhileResolving()
    ensures var s := Resolved(TimeoutExpires(Connect(INITIAL)), Found);
            s.conn.Connecting? && s.timeout.fired == 1 && s.connects == 1
  {}

  lemma OpensWithExpiredTimeout(events: seq<Event>, s: State)
    requires Leads(events, s) && s.conn.Connecting? && s.timeout.fired == 1 && s.connects == 1
    ensures Run(events + [EvConnectDone(Opened)]).client.conn.Connected?
    ensures !Run(events + [EvConnectDone(Opened)] + [EvTimeoutFired(true)]).client.conn.Connected?
  {
    var s' := ConnectDone(s, Opened);
    LeadsOn(events, EvConnectDone(Opened), s);
    LeadsOn(events + [EvConnectDone(Opened)], EvTimeoutFired(true), s');
    TimeoutEndsSessionIff(s', true);
  }

  /** The connect timeout and the reconnect timer, one after the other, expire and are handled. */
  function Redialed(s: State): State {
    ReconnectFired(ReconnectExpires(TimeoutFired(TimeoutExpires(s), true)), true)
  }

  /** The timers start the next attempt without waiting for the end of the last. */
  lemma RedialDoesNotWait(s: State)
    requires s.conn.Connecting? && s.timeout.armed
    ensures var s' := Redialed(s);
            && s'.conn.Connecting? && s'.timeout.armed
            && s'.resolves == s.resolves + 1 && s'.connects == s.connects
  {
    var s1 := TimeoutExpires(s);
    TimeoutStartsReconnect(s1);
    var s2 := TimeoutFired(s1, true);
    assert s2.reconnect.armed && s2.resolves == s.resolves && s2.connects == s.connects;
    var s3 := ReconnectExpires(s2);
    assert s3.reconnect.fired > 0 && s3.conn.Connecting?;
  }

  /** A host without an IPv4 endpoint is not given up: the connect timer goes on, and resolves it again. */
  lemma NoIPv4IsRetried(s: State)
    requires s.conn.Connecting? && s.timeout.armed && s.resolves > 0
    ensures var s1 := Resolved(s, NoIPv4);
            && s1 == s.(resolves := s.resolves - 1)
            && Redialed(s1).conn.Connecting? && Redialed(s1).timeout.armed && Redialed(s1).resolves == s.resolves
  {
    RedialDoesNotWait(s.(resolves := s.resolves - 1));
  }

  // ----- Writing out the queue -----

  /** Posted tasks run and writes complete. */
  predicate Writing(e: Event) { e in {EvRunTask, EvWriteDone(None)} }

  function IssuedAll(fs: seq<WireFrame>): seq<Entry> {
    if fs == [] then [] else [Issued(fs[0])] + IssuedAll(fs[1..])
  }

  /** The next thing to happen: a posted task, or else the completion of a write. */
  function NextWriting(s: State): Event { if s.tasks != [] then EvRunTask else EvWriteDone(None) }

  /** Running a posted write issues the first queued frame; any other task leaves queue and log alone. */
  lemma RunTaskWrites(s: State)
    requires s.conn.Connected? && s.queue != [] && s.queue[0].data != [] && s.tasks != []
    ensures var s' := RunTask(s);
            && s'.conn.Connected? && s'.tasks == s.tasks[1..]
            && if IsWrite(s.tasks[0]) then s'.queue == s.queue[1..] && s'.log == s.log + [Issued(s.queue[0])]
               else s'.queue == s.queue && s'.log == s.log && s'.writes == s.writes
  {
    var s1 := s.(tasks := s.tasks[1..]);
    if IsWrite(s.tasks[0]) {
      assert RunTask(s) == SessionWrite(s1);
    } else {
      assert RunTask(s) == s1.(readers := s1.readers + multiset{s.tasks[0].session});
    }
  }

  lemma WriteDoneAsks(s: State)
    requires s.conn.Connected? && s.queue != [] && s.tasks == [] && s.writes > 0
    ensures var s' := WriteDone(s, None);
            s'.conn.Connected? && s'.queue == s.queue && s'.log == s.log && s'.writes == s.writes - 1
  {}

  ghost predicate Ready(s: State) { Inv(s) && NotStranded(s) && s.conn.Connected? }

  /** `more` writes out the queue of `s`. */
  ghost predicate Drains(s: State, more: seq<Event>) {
    && (forall e :: e in more ==> Writing(e))
    && ClientSteps(s, more).conn.Connected? && ClientSteps(s, more).queue == []
    && ClientSteps(s, more).log == s.log + IssuedAll(s.queue)
  }

  lemma DrainsOn(s: State, e: Event, rest: seq<Event>)
    requires Writing(e) && Drains(ClientStep(s, e), rest)
    requires s.log + IssuedAll(s.queue) == ClientStep(s, e).log + IssuedAll(ClientStep(s, e).queue)
    ensures Drains(s, [e] + rest)
  {
    StepsFront(s, e, rest);
  }

  /** `e` brings `s` closer to an empty queue and keeps account of what is issued. */
  ghost predicate BringsCloser(s: State, e: Event) {
    var s' := ClientStep(s, e);
    && Writing(e) && Ready(s')
    && s.log + IssuedAll(s.queue) == s'.log + IssuedAll(s'.queue)
    && (|s'.queue| < |s.queue|
        || (s'.queue == s.queue && (s'.writes < s.writes || (s'.writes == s.writes && |s'.tasks| < |s.tasks|))))
  }

  lemma RunTaskBringsCloser(s: State)
    requires Ready(s) && s.queue != [] && s.tasks != []
    ensures BringsCloser(s, EvRunTask)
  {
    hide Inv, NotStranded, RunTask;
    QueueHoldsFrames(s);
    RunTaskKeeps(s);
    RunTaskNotStranded(s);
    RunTaskWrites(s);
    assert s.log + [Issued(s.queue[0])] + IssuedAll(s.queue[1..]) == s.log + IssuedAll(s.queue);
  }

  lemma QueueHoldsFrames(s: State)
    requires Inv(s) && s.queue != []
    ensures s.queue[0].data != []
  {}

  lemma WriteDoneBringsCloser(s: State)
    requires Ready(s) && s.queue != [] && s.tasks == []
    ensures BringsCloser(s, EvWriteDone(None))
  {
    hide Inv, WriteDone, CloseDecision;
    WriteDoneKeeps(s, None);
    WriteDoneNotStranded(s, None);
    WriteDoneAsks(s);
  }

  lemma {:induction false} DrainPath(s: State) returns (more: seq<Event>)
    requires Ready(s)
    ensures Drains(s, more)
    decreases |s.queue|, s.writes, |s.tasks|
  {
    if s.queue == [] {
      assert s.log + [] == s.log;
      more := [];
    } else {
      var e := NextWriting(s);
      if s.tasks != [] {
        RunTaskBringsCloser(s);
      } else {
        WriteDoneBringsCloser(s);
      }
      var rest := DrainPath(ClientStep(s, e));
      DrainsOn(s, e, rest);
      more := [e] + rest;
    }
  }

  /**
   * While connected, and unless a run has been crowded with reads, every accepted frame that is
   * still queued gets written by posted tasks and write completions alone: all of them, in order.
   */
  lemma CanAlwaysDrain(events: seq<Event>)
    requires Run(events).client.conn.Connected? && Run(events).client.session < MAX_PENDING_TASKS
    ensures exists more :: (forall e :: e in more ==> Writing(e))
                           && Run(events + more).client.queue == []
                           && Run(events + more).client.log == Run(events).client.log + IssuedAll(Run(events).client.queue)
  {
    RunKeeps(events);
    NoStrandedPacketBelowCap(events);
    var more := DrainPath(Run(events).client);
    RunOn(events, more);
  }

  // ----- When a read chain goes on -----

  lemma PostedReadChain(s: State, k: nat)
    ensures Chains(PostTask(s, ReadTask(k)))[k] == Chains(s)[k] + if |s.tasks| < MAX_PENDING_TASKS then 1 else 0
  {
    TasksAppend(s.tasks, ReadTask(k));
  }

  lemma ActivityChain(s: State, k: nat, e: Err)
    requires Inv(s) && 1 <= k <= s.session && k !in Chains(s)
    ensures Chains(HandleActivityError(s, ReadTask(k), e))[k]
            == if s.conn.Connected? && CloseDecision(e, false).CloseNone? && |s.tasks| < MAX_PENDING_TASKS then 1 else 0
  {
    PostTaskKeeps(s, ReadTask(k));
    PostedReadChain(s, k);
    DisconnectKeeps(s, true);
  }

  /**
   * A read chain survives a failed read exactly when the error is recoverable, the connection is up
   * and PostTask has room; a malformed frame, the same without the error; an unknown header, never.
   */
  lemma ReadChainGoesOnIff(s: State, k: nat, e: Err, inBody: bool)
    requires Inv(s) && s.readers[k] > 0
    ensures var room := |s.tasks| < MAX_PENDING_TASKS;
            && (k in Chains(ReadFailed(s, k, e, inBody)) <==> s.conn.Connected? && CloseDecision(e, false).CloseNone? && room)
            && (k in Chains(ReadMalformed(s, k)) <==> s.conn.Connected? && room)
            && k !in Chains(ReadUnknown(s, k))
  {
    hide Inv, Chains, HandleActivityError;
    var s1 := TakeRead(s, k);
    TakeReadKeeps(s, k);
    ActivityChain(s1, k, e);
    ActivityChain(s1, k, PROTOCOL);
  }

  /** Behind a handled packet it goes on if PostTask has room and, should the handler have failed, the connection is up. */
  lemma HandledChainGoesOnIff(s: State, k: nat, ok: bool)
    requires Inv(s) && 1 <= k <= s.session && k !in Chains(s)
    ensures k in Chains(ReadHandled(s, k, ok)) <==> (ok || s.conn.Connected?) && |s.tasks| < MAX_PENDING_TASKS
  {
    PostedReadChain(s, k);
    ActivityChain(s, k, PROTOCOL);
  }

  // ----- A lost read chain does not come back -----

  /** On the way from `s` to `s'` only a session begun meanwhile has gained a read chain. */
  ghost predicate NoNewChain(s: State, s': State) { Chains(s') <= Chains(s) + multiset{s.session + 1} }

  /** Neither posts nor reads. */
  ghost predicate Untouched(s: State, s': State) { s'.tasks == s.tasks && s'.readers == s.readers && s'.session == s.session }

  lemma ErrorUntouched(s: State, e: Err, critical: bool)
    ensures Untouched(s, HandleError(s, e, critical))
  {}

  lemma PostAddsOnly(s: State, again: Task)
    ensures var s' := PostTask(s, again);
            Chains(s') == Chains(s) || (again.ReadTask? && Chains(s') == Chains(s) + multiset{again.session})
  {
    TasksAppend(s.tasks, again);
  }

  lemma ActivityAddsOnly(s: State, again: Task, e: Err)
    ensures var s' := HandleActivityError(s, again, e);
            Chains(s') == Chains(s) || (again.ReadTask? && Chains(s') == Chains(s) + multiset{again.session})
  {
    hide ReadSessions, HandleError, PostTask, CloseDecision;
    PostAddsOnly(s, again);
    ErrorUntouched(s, e, false);
    ErrorUntouched(PostTask(s, again), e, false);
  }

  lemma TimersUntouched(s: State, ok: bool)
    ensures Untouched(s, ReconnectFired(s, ok)) && Untouched(s, TimeoutFired(s, ok))
  {
    if s.reconnect.fired > 0 {
      ErrorUntouched(s.(reconnect := s.reconnect.(fired := s.reconnect.fired - 1)), PROTOCOL, true);
    }
    if s.timeout.fired > 0 {
      var s1 := s.(timeout := s.timeout.(fired := s.timeout.fired - 1));
      var s2 := if ok then HandleError(s1, Err(NoError, false, false), true) else s1;
      ErrorUntouched(s1, Err(NoError, false, false), true);
      ErrorUntouched(s2.(conn := Disconnected), PROTOCOL, true);
    }
  }

  lemma ResolvedUntouched(s: State, found: Resolution)
    ensures Untouched(s, Resolved(s, found))
  {}

  lemma OpenedAddsItsOwn(s: State, c: Connection)
    ensures NoNewChain(s, ConnectDone(s, c))
  {
    if s.connects > 0 {
      var s1 := s.(connects := s.connects - 1);
      match c
      case ConnectFailed(e) => ErrorUntouched(s1, e, true);
      case NotOpen => ErrorUntouched(s1, PROTOCOL, true);
      case Opened =>
        if s1.conn.Connected? {
          ErrorUntouched(s1, PROTOCOL, false);
          ErrorUntouched(SessionStart(s1), PROTOCOL, true);
        } else {
          StartAddsItsOwn(s1);
        }
    }
  }

  lemma StartAddsItsOwn(s: State)
    requires !s.conn.Connected?
    ensures NoNewChain(s, SessionStart(s))
  {
    assert SessionStart(s).tasks == Posted(s.tasks, ReadTask(s.session + 1)) && SessionStart(s).readers == s.readers;
    TasksAppend(s.tasks, ReadTask(s.session + 1));
  }

  lemma TailChains(s: State)
    requires s.tasks != []
    ensures var s1 := s.(tasks := s.tasks[1..]);
            Chains(s) == Chains(s1) + if s.tasks[0].ReadTask? then multiset{s.tasks[0].session} else multiset{}
  {
    TasksTail(s.tasks);
  }

  lemma ReadingChains(s: State, k: nat)
    ensures Chains(s.(readers := s.readers + multiset{k})) == Chains(s) + multiset{k}
  {}

  lemma RunTaskMovesChain(s: State)
    ensures NoNewChain(s, RunTask(s))
  {
    hide Chains, SessionWrite;
    if s.tasks != [] {
      var s1 := s.(tasks := s.tasks[1..]);
      TailChains(s);
      WritingLeavesChains(s1);
      match s.tasks[0]
      case ReadTask(k) => ReadingChains(s1, k);
      case WriteTask =>
      case WriteAgainTask =>
    }
  }

  lemma WritingLeavesChains(s: State)
    ensures Chains(SessionWrite(s)) == Chains(s)
  {
    TasksAppend(s.tasks, WriteTask);
  }

  lemma WriteDoneNoChain(s: State, e: Option<Err>)
    ensures NoNewChain(s, WriteDone(s, e))
  {
    hide HandleActivityError, PostTask, ReadSessions;
    if s.writes > 0 {
      var s1 := s.(writes := s.writes - 1);
      PostAddsOnly(s1, WriteTask);
      if e.Some? {
        ActivityAddsOnly(s1, WriteAgainTask, e.value);
      }
    }
  }

  lemma TakeReadChains(s: State, k: nat)
    requires s.readers[k] > 0
    ensures Chains(s) == Chains(TakeRead(s, k)) + multiset{k}
  {}

  lemma ReadEndsNoNewChain(s: State, k: nat, e: Err, inBody: bool)
    ensures NoNewChain(s, ReadFailed(s, k, e, inBody)) && NoNewChain(s, ReadMalformed(s, k)) && NoNewChain(s, ReadUnknown(s, k))
  {
    hide Chains, HandleActivityError, TakeRead;
    if s.readers[k] > 0 {
      TakeReadChains(s, k);
      ActivityAddsOnly(TakeRead(s, k), ReadTask(k), e);
      ActivityAddsOnly(TakeRead(s, k), ReadTask(k), PROTOCOL);
    }
  }

  lemma UntouchedNoNewChain(s: State, s': State)
    requires Untouched(s, s')
    ensures NoNewChain(s, s')
  {}

  lemma CallsUntouched(s: State, needReconnect: bool)
    ensures Untouched(s, s) && Untouched(s, Connect(s)) && Untouched(s, Disconnect(s, needReconnect)) && Untouched(s, TickEnd(s))
    ensures Untouched(s, ReconnectExpires(s)) && Untouched(s, TimeoutExpires(s))
  {}

  /** The events that neither post, run nor end a task or read. */
  predicate Quiet(e: Event) {
    !e.EvConnectDone? && !e.EvRunTask? && !e.EvWriteDone? && !e.EvReadFailed? && !e.EvReadMalformed? && !e.EvReadUnknown?
  }

  lemma QuietUntouched(s: State, e: Event)
    requires Quiet(e)
    ensures Untouched(s, ClientStep(s, e))
  {
    hide Untouched, Connect, Disconnect, TickEnd, ReconnectExpires, TimeoutExpires, ReconnectFired, TimeoutFired, Resolved;
    CallsUntouched(s, e.EvDisconnect? && e.needReconnect);
    match e
    case EvReconnectFired(ok) => TimersUntouched(s, ok);
    case EvTimeoutFired(ok) => TimersUntouched(s, ok);
    case EvResolved(found) => ResolvedUntouched(s, found);
    case _ =>
  }

  lemma ClientStepNoNewChain(s: State, e: Event)
    ensures NoNewChain(s, ClientStep(s, e))
  {
    hide NoNewChain, Untouched, Connect, Disconnect, TickEnd, ReconnectExpires, TimeoutExpires;
    hide ReconnectFired, TimeoutFired, Resolved, ConnectDone, RunTask, WriteDone, ReadFailed, ReadMalformed, ReadUnknown;
    if Quiet(e) {
      QuietUntouched(s, e);
      UntouchedNoNewChain(s, ClientStep(s, e));
    } else {
      match e
      case EvConnectDone(c) => OpenedAddsItsOwn(s, c);
      case EvRunTask => RunTaskMovesChain(s);
      case EvWriteDone(err) => WriteDoneNoChain(s, err);
      case EvReadFailed(k, err, inBody) => ReadEndsNoNewChain(s, k, err, inBody);
      case EvReadMalformed(k) => ReadEndsNoNewChain(s, k, PROTOCOL, false);
      case EvReadUnknown(k) => ReadEndsNoNewChain(s, k, PROTOCOL, false);
    }
  }

  lemma HandledAddsOnly(s: State, k: nat, ok: bool)
    ensures Chains(ReadHandled(s, k, ok)) <= Chains(s) + multiset{k}
  {
    TasksAppend(s.tasks, ReadTask(k));
    ActivityAddsOnly(s, ReadTask(k), PROTOCOL);
  }

  lemma PacketNoNewChain(h: Host, k: nat, w: Handler)
    requires HostInv(h)
    ensures NoNewChain(h.client, PacketRead(h, k, w).client)
  {
    hide Chains, HostInv, Handle, ReadHandled, TakeRead, OfClient;
    if h.client.readers[k] > 0 {
      var h1 := h.(client := TakeRead(h.client, k));
      TakeReadChains(h.client, k);
      if h1.client.conn.Connected? {
        TakenKeeps(h, k);
        HandleKeeps(h1, w);
        var (h2, ok) := Handle(h1, w);
        HandledAddsOnly(h2.client, k, ok);
        OfClientClient(h2, ReadHandled(h2.client, k, ok));
      }
    }
  }

  lemma FramedNoNewChain(s: State, s': State)
    requires Framed(s, s')
    ensures NoNewChain(s, s')
  {
    hide Chains;
  }

  lemma StepNoNewChain(h: Host, e: Event)
    requires HostInv(h)
    ensures NoNewChain(h.client, Step(h, e).client)
  {
    hide HostInv, SendPacket, SendSync, CleanupStore, PacketRead, ClientStep, OfClient, Framed, NoNewChain;
    FramedRefl(h.client);
    match e
    case EvSendPacket(r) =>
      SendPacketKeeps(h, r);
      FramedNoNewChain(h.client, Step(h, e).client);
    case EvSync(data, authority, encOk) =>
      SyncFramed(h, data, authority, encOk);
      FramedNoNewChain(h.client, Step(h, e).client);
    case EvCleanup(now) =>
      CleanupKeeps(h, now);
      FramedNoNewChain(h.client, Step(h, e).client);
    case EvPacket(k, w) => PacketNoNewChain(h, k, w);
    case _ =>
      ClientStepNoNewChain(h.client, e);
      OfClientClient(h, ClientStep(h.client, e));
  }

  /** Session `k` has begun and has no read chain, posted or in flight. */
  ghost predicate Deaf(s: State, k: nat) { k <= s.session && k !in Chains(s) }

  lemma StaysDeaf(s: State, s': State, k: nat)
    requires Deaf(s, k) && NoNewChain(s, s') && Advances(s, s')
    ensures Deaf(s', k)
  {
    hide Chains;
    assert k !in Chains(s) + multiset{s.session + 1};
  }

  lemma StepStaysDeaf(h: Host, e: Event, k: nat)
    requires HostInv(h) && Deaf(h.client, k)
    ensures Deaf(Step(h, e).client, k)
  {
    hide HostInv, Deaf, NoNewChain, Advances, Step;
    StepNoNewChain(h, e);
    StepAdvances(h, e);
    StaysDeaf(h.client, Step(h, e).client, k);
  }

  /**
   * A session that has lost its read chain (to an unknown header, or to a full task queue) never
   * reads again, however long it stays connected: only a new session brings a new chain.
   */
  lemma {:induction false} LostChainStaysLost(events: seq<Event>, more: seq<Event>, k: nat)
    requires Deaf(Run(events).client, k)
    ensures Deaf(Run(events + more).client, k)
    decreases |more|
  {
    hide Run, Step, HostInv, Deaf;
    if more == [] {
      assert events + more == events;
    } else {
      var n := |more| - 1;
      var before := events + more[..n];
      LostChainStaysLost(events, more[..n], k);
      RunKeeps(before);
      StepStaysDeaf(Run(before), more[n], k);
      RunAppend(before, more[n]);
      assert before + [more[n]] == events + more;
    }
  }
}
