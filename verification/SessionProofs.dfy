/** What every operation of the session machine keeps. */
module SessionProofs {
  import opened Common
  import opened Session

  // ----- Reading the log -----

  function Entering(e: Entry): seq<WireFrame> { if e.Accepted? then [e.frame] else [] }

  function Leaving(e: Entry): seq<WireFrame> {
    match e
    case Issued(f) => [f]
    case DroppedOldest(f) => [f]
    case Stopped(fs) => fs
    case _ => []
  }

  /** The frames ever accepted by Send, in order. */
  function AcceptedFrames(log: seq<Entry>): seq<WireFrame> {
    if log == [] then [] else AcceptedFrames(log[..|log| - 1]) + Entering(log[|log| - 1])
  }

  /** The frames that have left the write queue, in order: issued to the socket, dropped or discarded. */
  function LeftFrames(log: seq<Entry>): seq<WireFrame> {
    if log == [] then [] else LeftFrames(log[..|log| - 1]) + Leaving(log[|log| - 1])
  }

  datatype Phase = Off | Handshake | Encrypted

  function PhaseAfter(p: Phase, e: Entry): Phase {
    match e
    case Started(_) => Handshake
    case EncryptionOn => Encrypted
    case Stopped(_) => Off
    case _ => p
  }

  /** Whether a session is running at the end of the log, and whether it is encrypted. */
  function PhaseOf(log: seq<Entry>): Phase {
    if log == [] then Off else PhaseAfter(PhaseOf(log[..|log| - 1]), log[|log| - 1])
  }

  /** What an entry means for the log before it. */
  ghost predicate Follows(log: seq<Entry>, e: Entry) {
    match e
    // frames are only accepted inside a session, and encrypted exactly when asked to and able to
    case Accepted(f, wanted) => PhaseOf(log) != Off && f.data != [] && (f.isSealed <==> wanted && PhaseOf(log).Encrypted?)
    // encryption begins right behind a frame sent in the clear
    case EncryptionOn => PhaseOf(log).Handshake? && log[|log| - 1].Accepted? && !log[|log| - 1].wanted
    // a frame is dropped only from a full queue
    case DroppedOldest(_) => |AcceptedFrames(log)| - |LeftFrames(log)| == MAX_WRITE_QUEUE_SIZE
    case Started(_) => PhaseOf(log).Off?
    case _ => true
  }

  ghost predicate WellOrdered(log: seq<Entry>) {
    log == [] || (WellOrdered(log[..|log| - 1]) && Follows(log[..|log| - 1], log[|log| - 1]))
  }

  lemma LogAppend(log: seq<Entry>, e: Entry)
    ensures AcceptedFrames(log + [e]) == AcceptedFrames(log) + Entering(e)
    ensures LeftFrames(log + [e]) == LeftFrames(log) + Leaving(e)
    ensures PhaseOf(log + [e]) == PhaseAfter(PhaseOf(log), e)
    ensures WellOrdered(log + [e]) <==> WellOrdered(log) && Follows(log, e)
  {
    assert (log + [e])[..|log|] == log;
  }

  // ----- The invariant -----

  function PhaseOfState(s: State): Phase {
    if !s.conn.Connected? then Off else if s.encrypted then Encrypted else Handshake
  }

  /** Outside a session nothing of it is left, and `crypto_` exists exactly while encrypting. */
  ghost predicate Isolated(s: State) {
    && s.encrypted == s.crypto
    && (!s.conn.Connected? ==> s.queue == [] && !s.encrypted)
  }

  ghost predicate Bounded(s: State) { |s.tasks| <= MAX_PENDING_TASKS && |s.queue| <= MAX_WRITE_QUEUE_SIZE }

  predicate Pending(t: Timer) { t.armed || t.fired > 0 }

  /** Whoever waits for a connection has a timer that will wake it. */
  ghost predicate Awake(s: State) { s.conn.Connecting? ==> Pending(s.reconnect) || Pending(s.timeout) }

  /** The log explains the queue: what was accepted has left in order or is still queued. */
  ghost predicate Conserved(s: State) {
    && AcceptedFrames(s.log) == LeftFrames(s.log) + s.queue
    && WellOrdered(s.log)
    && PhaseOf(s.log) == PhaseOfState(s)
    && (forall i :: 0 <= i < |s.queue| ==> s.queue[i].data != [])
  }

  /** The sessions whose read chains are waiting in posted tasks. */
  function ReadSessions(tasks: seq<Task>): multiset<nat> {
    if tasks == [] then multiset{}
    else
      var before, t := ReadSessions(tasks[..|tasks| - 1]), tasks[|tasks| - 1];
      if t.ReadTask? then before + multiset{t.session} else before
  }

  /** All read chains, posted or in flight, each by the session it began in. */
  function Chains(s: State): multiset<nat> { ReadSessions(s.tasks) + s.readers }

  /** At most one chain for each of the sessions 1 to `n`, and no other. */
  ghost predicate Single(chains: multiset<nat>, n: nat) {
    && (forall k: nat :: chains[k] <= 1)
    && (forall k: nat :: k in chains ==> 1 <= k <= n)
  }

  ghost predicate SingleChains(s: State) { Single(Chains(s), s.session) }

  ghost predicate Inv(s: State) { Isolated(s) && Bounded(s) && Awake(s) && Conserved(s) && SingleChains(s) }

  // ----- Operations keep it -----

  lemma InitialInv()
    ensures Inv(INITIAL)
  {}

  lemma TasksAppend(tasks: seq<Task>, t: Task)
    ensures ReadSessions(tasks + [t]) == if t.ReadTask? then ReadSessions(tasks) + multiset{t.session} else ReadSessions(tasks)
  {
    assert (tasks + [t])[..|tasks|] == tasks;
  }

  lemma {:induction false} TasksTail(tasks: seq<Task>)
    requires tasks != []
    ensures ReadSessions(tasks)
            == if tasks[0].ReadTask? then ReadSessions(tasks[1..]) + multiset{tasks[0].session} else ReadSessions(tasks[1..])
  {
    var n := |tasks| - 1;
    if n == 0 {
      assert tasks[..0] == [] && tasks[1..] == [];
    } else {
      TasksTail(tasks[..n]);
      assert tasks[..n][1..] == tasks[1..][..n - 1] && tasks[1..][n - 1] == tasks[n];
    }
  }

  lemma SingleAdd(m: multiset<nat>, n: nat, k: nat)
    requires Single(m, n) && k !in m && 1 <= k <= n
    ensures Single(m + multiset{k}, n)
  {
    assert forall j: nat :: (m + multiset{k})[j] == m[j] + if j == k then 1 else 0;
  }

  lemma SingleRemove(m: multiset<nat>, n: nat, k: nat)
    requires Single(m + multiset{k}, n)
    ensures Single(m, n) && k !in m && 1 <= k <= n
  {
    assert forall j: nat :: (m + multiset{k})[j] == m[j] + if j == k then 1 else 0;
    assert k in m + multiset{k};
  }

  /** Posting a write keeps the invariant; posting a read does when its chain has no other link. */
  lemma PostTaskKeeps(s: State, t: Task)
    requires Inv(s)
    requires t.ReadTask? ==> 1 <= t.session <= s.session && t.session !in Chains(s)
    ensures Inv(PostTask(s, t))
  {
    TasksAppend(s.tasks, t);
    if t.ReadTask? && |s.tasks| < MAX_PENDING_TASKS {
      SingleAdd(Chains(s), s.session, t.session);
      assert Chains(PostTask(s, t)) == Chains(s) + multiset{t.session};
    }
  }

  lemma StopConserves(s: State)
    requires Conserved(s) && s.conn.Connected?
    ensures Conserved(SessionStop(s).(conn := Disconnected))
  {
    hide AcceptedFrames, LeftFrames, PhaseOf, WellOrdered;
    LogAppend(s.log, Stopped(s.queue));
  }

  lemma DisconnectKeeps(s: State, needReconnect: bool)
    requires Isolated(s) && Bounded(s) && Conserved(s) && SingleChains(s)
    ensures Inv(Disconnect(s, needReconnect))
    ensures Disconnect(s, needReconnect).session == s.session
    ensures Disconnect(s, needReconnect).tasks == s.tasks && Disconnect(s, needReconnect).readers == s.readers
    ensures !Disconnect(s, needReconnect).conn.Connected?
    ensures needReconnect ==> Disconnect(s, needReconnect).conn.Connecting?
  {
    hide AcceptedFrames, LeftFrames, PhaseOf, WellOrdered, ReadSessions;
    var s' := Disconnect(s, needReconnect);
    if s.conn.Connected? {
      StopConserves(s);
    }
  }

  lemma HandleErrorKeeps(s: State, e: Err, critical: bool)
    requires Inv(s)
    ensures Inv(HandleError(s, e, critical))
  {
    DisconnectKeeps(s, true);
  }

  lemma HandleActivityErrorKeeps(s: State, again: Task, e: Err)
    requires Inv(s)
    requires again.ReadTask? ==> 1 <= again.session <= s.session && again.session !in Chains(s)
    ensures Inv(HandleActivityError(s, again, e))
  {
    PostTaskKeeps(s, again);
    HandleErrorKeeps(s, e, false);
    HandleErrorKeeps(PostTask(s, again), e, false);
  }

  lemma ConnectKeeps(s: State)
    requires Inv(s)
    ensures Inv(Connect(s))
  {
  }

  lemma SessionStartKeeps(s: State)
    requires Inv(s) && !s.conn.Connected?
    ensures Inv(SessionStart(s)) && SessionStart(s).conn.Connected?
  {
    hide AcceptedFrames, LeftFrames, PhaseOf, WellOrdered, ReadSessions, Posted;
    var s1 := ClearTimers(s).(conn := Connected, session := s.session + 1);
    var s2 := Logged(s1, Started(s1.session));
    LogAppend(s.log, Started(s1.session));
    PostTaskKeeps(s2, ReadTask(s2.session));
  }

  lemma TimersKeep(s: State, ok: bool)
    requires Inv(s)
    ensures Inv(ReconnectExpires(s)) && Inv(TimeoutExpires(s)) && Inv(StartReconnectTimer(s))
    ensures Inv(ReconnectFired(s, ok)) && Inv(TimeoutFired(s, ok))
  {
    ReconnectFiredKeeps(s, ok);
    TimeoutFiredKeeps(s, ok);
  }

  lemma ReconnectFiredKeeps(s: State, ok: bool)
    requires Inv(s)
    ensures Inv(ReconnectFired(s, ok))
  {
    if s.reconnect.fired > 0 {
      var s1 := s.(reconnect := s.reconnect.(fired := s.reconnect.fired - 1));
      if ok {
      } else {
        DisconnectKeeps(s1, true);
        ConnectKeeps(Disconnect(s1, true));
      }
    }
  }

  lemma TimeoutFiredKeeps(s: State, ok: bool)
    requires Inv(s)
    ensures Inv(TimeoutFired(s, ok))
  {
    if s.timeout.fired > 0 {
      var s1 := s.(timeout := s.timeout.(fired := s.timeout.fired - 1));
      if ok {
        DisconnectKeeps(s1, true);
      }
      var s2 := if ok then Disconnect(s1, true) else s1;
      if !s2.conn.Connected? {
        var s3 := s2.(conn := Disconnected);
        DisconnectKeeps(s3, true);
      }
    }
  }

  /** The invariant does not look at the operations in flight. */
  lemma CountersFree(s: State, resolves: nat, connects: nat, writes: nat)
    requires Inv(s)
    ensures Inv(s.(resolves := resolves, connects := connects, writes := writes))
  {}

  lemma ResolvedKeeps(s: State, r: Resolution)
    requires Inv(s)
    ensures Inv(Resolved(s, r))
  {
    hide Inv, HandleError;
    if s.resolves > 0 {
      var s1 := s.(resolves := s.resolves - 1);
      CountersFree(s, s.resolves - 1, s.connects, s.writes);
      match r
      case ResolveFailed(e) => HandleErrorKeeps(s1, e, true);
      case NoIPv4 => HandleErrorKeeps(s1, NO_IPV4, false);
      case Found => CountersFree(s1, s1.resolves, s1.connects + 1, s1.writes);
    }
  }

  lemma ConnectDoneKeeps(s: State, r: Connection)
    requires Inv(s)
    ensures Inv(ConnectDone(s, r))
  {
    hide Inv, HandleError;
    if s.connects > 0 {
      var s1 := s.(connects := s.connects - 1);
      CountersFree(s, s.resolves, s.connects - 1, s.writes);
      match r
      case ConnectFailed(e) => HandleErrorKeeps(s1, e, true);
      case NotOpen => HandleErrorKeeps(s1, PROTOCOL, true);
      case Opened =>
        if s1.conn.Connected? {
          HandleErrorKeeps(s1, PROTOCOL, false);
          HandleErrorKeeps(SessionStart(s1), PROTOCOL, true);
        } else {
          SessionStartKeeps(s1);
        }
    }
  }

  lemma SessionWriteKeeps(s: State)
    requires Inv(s)
    ensures Inv(SessionWrite(s))
  {
    hide AcceptedFrames, LeftFrames, PhaseOf, WellOrdered, ReadSessions, Posted;
    if s.queue != [] {
      var s' := SessionWrite(s);
      LogAppend(s.log, Issued(s.queue[0]));
      assert LeftFrames(s.log) + s.queue == LeftFrames(s.log) + [s.queue[0]] + s.queue[1..];
    }
  }

  /** Taking the first task off the queue; a read chain moves from its task to its read. */
  lemma RunTaskKeeps(s: State)
    requires Inv(s)
    ensures Inv(RunTask(s))
  {
    if s.tasks != [] {
      var s1 := s.(tasks := s.tasks[1..]);
      TasksTail(s.tasks);
      match s.tasks[0]
      case ReadTask(c) =>
        if s.conn.Connected? {
          assert Chains(RunTask(s)) == Chains(s);
        } else {
          assert Chains(s) == Chains(s1) + multiset{c};
          SingleRemove(Chains(s1), s.session, c);
        }
      case WriteTask => SessionWriteKeeps(s1);
      case WriteAgainTask => SessionWriteKeeps(s1);
    }
  }

  lemma WriteDoneKeeps(s: State, e: Option<Err>)
    requires Inv(s)
    ensures Inv(WriteDone(s, e))
  {
    hide Inv, HandleActivityError, PostTask;
    if s.writes > 0 {
      var s1 := s.(writes := s.writes - 1);
      CountersFree(s, s.resolves, s.connects, s.writes - 1);
      match e
      case Some(err) => HandleActivityErrorKeeps(s1, WriteAgainTask, err);
      case None => PostTaskKeeps(s1, WriteTask);
    }
  }

  lemma TakeReadKeeps(s: State, k: nat)
    requires Inv(s) && s.readers[k] > 0
    ensures Inv(TakeRead(s, k)) && k !in Chains(TakeRead(s, k)) && 1 <= k <= s.session
  {
    assert Chains(s) == Chains(TakeRead(s, k)) + multiset{k};
    SingleRemove(Chains(TakeRead(s, k)), s.session, k);
  }

  lemma ReadEndsKeep(s: State, k: nat, e: Err, inBody: bool)
    requires Inv(s)
    ensures Inv(ReadFailed(s, k, e, inBody)) && Inv(ReadMalformed(s, k)) && Inv(ReadUnknown(s, k))
  {
    if s.readers[k] > 0 {
      TakeReadKeeps(s, k);
      HandleActivityErrorKeeps(TakeRead(s, k), ReadTask(k), e);
      HandleActivityErrorKeeps(TakeRead(s, k), ReadTask(k), PROTOCOL);
    }
  }

  lemma ReadHandledKeeps(s: State, k: nat, ok: bool)
    requires Inv(s) && 1 <= k <= s.session && k !in Chains(s)
    ensures Inv(ReadHandled(s, k, ok))
  {
    PostTaskKeeps(s, ReadTask(k));
    HandleActivityErrorKeeps(s, ReadTask(k), PROTOCOL);
  }

  /** Making room puts the oldest frame of a full queue on record. */
  lemma RoomConserves(s: State)
    requires Conserved(s) && Bounded(s)
    ensures var log, queue := s.log + RoomLog(s.queue), RoomIn(s.queue);
            && AcceptedFrames(log) == LeftFrames(log) + queue
            && WellOrdered(log) && PhaseOf(log) == PhaseOf(s.log)
            && (forall i :: 0 <= i < |queue| ==> queue[i].data != [])
  {
    if |s.queue| >= MAX_WRITE_QUEUE_SIZE {
      LogAppend(s.log, DroppedOldest(s.queue[0]));
      assert LeftFrames(s.log) + s.queue == LeftFrames(s.log) + [s.queue[0]] + s.queue[1..];
    } else {
      assert s.log + RoomLog(s.queue) == s.log;
    }
  }

  /** A frame enters a queue with room, or one that has just given up its oldest frame. */
  lemma EnqueueConserves(s: State, f: WireFrame, wanted: bool)
    requires Conserved(s) && Bounded(s) && s.conn.Connected?
    requires f.data != [] && (f.isSealed <==> wanted && s.encrypted)
    ensures Conserved(Enqueue(s, f, wanted))
  {
    hide RoomIn, RoomLog, Posted, AcceptedFrames, LeftFrames, PhaseOf, WellOrdered;
    var log := s.log + RoomLog(s.queue);
    RoomConserves(s);
    LogAppend(log, Accepted(f, wanted));
    assert LeftFrames(log) + (RoomIn(s.queue) + [f]) == LeftFrames(log) + RoomIn(s.queue) + [f];
  }

  lemma PostedWriteReads(tasks: seq<Task>)
    ensures ReadSessions(Posted(tasks, WriteTask)) == ReadSessions(tasks)
  {
    TasksAppend(tasks, WriteTask);
  }

  /** What Send reports when it refuses never closes the session. */
  lemma RefusedUnchanged(s: State)
    ensures HandleError(s, PROTOCOL, false) == s
  {}

  lemma EnqueueKeeps(s: State, f: WireFrame, wanted: bool)
    requires Inv(s) && s.conn.Connected?
    requires f.data != [] && (f.isSealed <==> wanted && s.encrypted)
    ensures Inv(Enqueue(s, f, wanted))
  {
    hide Conserved, ReadSessions;
    EnqueueConserves(s, f, wanted);
    PostedWriteReads(s.tasks);
  }

  lemma SendKeeps(s: State, data: Bytes, encrypt: bool, encOk: bool)
    requires Inv(s)
    ensures Inv(Send(s, data, encrypt, encOk).s)
  {
    hide Conserved, Enqueue, HandleError, Bounded, Awake, SingleChains;
    RefusedUnchanged(s);
    if Send(s, data, encrypt, encOk).res.Success? {
      EnqueueKeeps(s, WireFrame(data, Encrypting(s, encrypt)), encrypt);
    }
  }

  lemma SendChains(s: State, data: Bytes, encrypt: bool, encOk: bool)
    ensures Chains(Send(s, data, encrypt, encOk).s) == Chains(s)
  {
    hide ReadSessions, Posted, RoomIn, RoomLog, HandleError;
    PostedWriteReads(s.tasks);
    RefusedUnchanged(s);
  }

  /** Send touches nothing but the write queue, the posted writes and the log. */
  lemma SendFrame(s: State, data: Bytes, encrypt: bool, encOk: bool)
    ensures var o := Send(s, data, encrypt, encOk);
            && o.s.conn == s.conn && o.s.session == s.session && o.s.readers == s.readers
            && o.s.encrypted == s.encrypted && o.s.crypto == s.crypto && o.s.losses == s.losses && o.s.writes == s.writes
            && (!o.res.Success? ==> o.data == data && o.s == s)
  {}

  lemma SendSucceeds(s: State, data: Bytes, encrypt: bool, encOk: bool)
    ensures var o := Send(s, data, encrypt, encOk);
            && (o.res.Success? <==> Sendable(data) && s.conn.Connected? && (Encrypting(s, encrypt) ==> encOk))
            && (o.res.Success? ==> o.data == [] && o.s.log != []
                                   && o.s.log[|o.s.log| - 1] == Accepted(WireFrame(data, Encrypting(s, encrypt)), encrypt))
  {}

  /** Encryption may begin right after a frame was accepted in the clear. */
  lemma EnableKeeps(s: State, keyOk: bool)
    requires Inv(s) && s.conn.Connected?
    requires s.log != [] && s.log[|s.log| - 1].Accepted? && !s.log[|s.log| - 1].wanted
    ensures Inv(EnableEncryption(s, keyOk).s)
  {
    hide AcceptedFrames, LeftFrames, PhaseOf, WellOrdered;
    var o := EnableEncryption(s, keyOk);
    if o.begins {
      LogAppend(s.log, EncryptionOn);
    }
  }
}
