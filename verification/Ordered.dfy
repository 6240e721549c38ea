/**
 * The order in which the one thread of DoWork runs things: posted tasks and the handlers of completed
 * operations wait in one ready queue (Source/Raw/raw_client.h:101, raw_client.cpp:228-232). With it a
 * read chain outlives its session into the next only if its session began while another connection
 * attempt was under way.
 */
module Ordered {
  import opened Common
  import opened Session
  import opened SessionProofs
  import opened Bridge
  import opened BridgeProofs
  import opened Effects
  import opened StrandedProofs
  import Recovery

  /** An entry of the ready queue. */
  datatype Item = TaskItem | Handler(e: Event)

  datatype Loop = Loop(host: Host, ready: seq<Item>)

  const BEGIN := Loop(START, [])

  /** The game server or a timer's expiry, an operation that completes, and one turn of DoWork's loop. */
  datatype Move = Calls(e: Event) | Completes(e: Event) | Polls

  /** The asynchronous operations, as far as several of them can be under way. */
  datatype Operation = NoOperation | ReconnectWait | TimeoutWait | Resolve | AsyncConnect | AsyncWrite | AsyncRead(k: nat)

  function OperationOf(e: Event): Operation {
    match e
    case EvReconnectFired(_) => ReconnectWait
    case EvTimeoutFired(_) => TimeoutWait
    case EvResolved(_) => Resolve
    case EvConnectDone(_) => AsyncConnect
    case EvWriteDone(_) => AsyncWrite
    case EvReadFailed(k, _, _) => AsyncRead(k)
    case EvReadMalformed(k) => AsyncRead(k)
    case EvReadUnknown(k) => AsyncRead(k)
    case EvPacket(k, _) => AsyncRead(k)
    case _ => NoOperation
  }

  function UnderWay(s: State, o: Operation): nat {
    match o
    case NoOperation => 0
    case ReconnectWait => s.reconnect.fired
    case TimeoutWait => s.timeout.fired
    case Resolve => s.resolves
    case AsyncConnect => s.connects
    case AsyncWrite => s.writes
    case AsyncRead(k) => s.readers[k]
  }

  // ----- The ready queue -----

  function TaskItems(items: seq<Item>): nat {
    if items == [] then 0 else TaskItems(items[..|items| - 1]) + if items[|items| - 1].TaskItem? then 1 else 0
  }

  predicate IsFor(i: Item, o: Operation) { i.Handler? && OperationOf(i.e) == o }

  function Queued(items: seq<Item>, o: Operation): nat {
    if items == [] then 0 else Queued(items[..|items| - 1], o) + if IsFor(items[|items| - 1], o) then 1 else 0
  }

  function Tasks(n: nat): (items: seq<Item>)
    ensures |items| == n && forall i :: 0 <= i < n ==> items[i] == TaskItem
  {
    seq(n, _ => TaskItem)
  }

  /** After a handler or call: the tasks it has posted wait behind everything else. */
  function Ran(h: Host, ready: seq<Item>): Loop {
    var posted, items := |h.client.tasks|, TaskItems(ready);
    Loop(h, ready + Tasks(if posted > items then posted - items else 0))
  }

  /** The handlers of all pending reads are waiting. */
  ghost predicate ReadsQueued(s: State, items: seq<Item>) {
    forall k :: s.readers[k] <= Queued(items, AsyncRead(k))
  }

  /**
   * Every operation completes once. Closing a socket completes its reads, and a connect begins by
   * closing the socket; so when a connect completes, the handlers of earlier reads are in the queue.
   */
  ghost predicate Allowed(l: Loop, m: Move) {
    match m
    case Calls(e) => OperationOf(e).NoOperation? && !e.EvRunTask?
    case Completes(e) =>
      && Queued(l.ready, OperationOf(e)) < UnderWay(l.host.client, OperationOf(e))
      && (e.EvConnectDone? ==> ReadsQueued(l.host.client, l.ready))
    case Polls => l.ready != []
  }

  function EventOf(i: Item): Event { if i.TaskItem? then EvRunTask else i.e }

  ghost function Next(l: Loop, m: Move): Loop {
    if !Allowed(l, m) then l
    else
      match m
      case Calls(e) => Ran(Step(l.host, e), l.ready)
      case Completes(e) => l.(ready := l.ready + [Handler(e)])
      case Polls => Ran(Step(l.host, EventOf(l.ready[0])), l.ready[1..])
  }

  ghost function LoopRun(moves: seq<Move>): Loop {
    if moves == [] then BEGIN else Next(LoopRun(moves[..|moves| - 1]), moves[|moves| - 1])
  }

  /** No other attempt is resolving or connecting while a session runs. */
  predicate Settled(s: State) { s.conn.Connected? ==> s.resolves + s.connects == 0 }

  /**
   * `settled`: no other attempt was under way when the latest session began. `row`: how many sessions
   * there are in a row, up to the latest, all of which but the latest began while one was.
   */
  datatype Past = Past(row: nat, settled: bool)

  function After(p: Past, s: State, s': State): Past {
    if s'.session == s.session then p else Past(if p.settled then 1 else p.row + 1, Settled(s'))
  }

  ghost function PastOf(moves: seq<Move>): Past {
    if moves == [] then Past(0, true)
    else After(PastOf(moves[..|moves| - 1]), LoopRun(moves[..|moves| - 1]).host.client, LoopRun(moves).host.client)
  }

  /** How many sessions so far began while another attempt was under way. */
  ghost function Overlaps(moves: seq<Move>): nat {
    if moves == [] then 0
    else
      var s, s' := LoopRun(moves[..|moves| - 1]).host.client, LoopRun(moves).host.client;
      Overlaps(moves[..|moves| - 1]) + if s'.session != s.session && !Settled(s') then 1 else 0
  }

  // ----- Counting -----

  lemma TaskItemsAppend(items: seq<Item>, i: Item)
    ensures TaskItems(items + [i]) == TaskItems(items) + if i.TaskItem? then 1 else 0
  {
    assert (items + [i])[..|items|] == items;
  }

  lemma QueuedAppend(items: seq<Item>, i: Item, o: Operation)
    ensures Queued(items + [i], o) == Queued(items, o) + if IsFor(i, o) then 1 else 0
  {
    assert (items + [i])[..|items|] == items;
  }

  lemma {:induction false} TaskItemsFront(items: seq<Item>)
    requires items != []
    ensures TaskItems(items) == TaskItems(items[1..]) + if items[0].TaskItem? then 1 else 0
  {
    var n := |items| - 1;
    if n == 0 {
      assert items[..0] == [] && items[1..] == [];
    } else {
      TaskItemsFront(items[..n]);
      assert items[..n][1..] == items[1..][..n - 1] && items[1..][n - 1] == items[n];
    }
  }

  lemma {:induction false} QueuedFront(items: seq<Item>, o: Operation)
    requires items != []
    ensures Queued(items, o) == Queued(items[1..], o) + if IsFor(items[0], o) then 1 else 0
  {
    var n := |items| - 1;
    if n == 0 {
      assert items[..0] == [] && items[1..] == [];
    } else {
      QueuedFront(items[..n], o);
      assert items[..n][1..] == items[1..][..n - 1] && items[1..][n - 1] == items[n];
    }
  }

  lemma {:induction false} CountPosts(items: seq<Item>, n: nat, o: Operation)
    ensures TaskItems(items + Tasks(n)) == TaskItems(items) + n && Queued(items + Tasks(n), o) == Queued(items, o)
  {
    if n == 0 {
      assert items + Tasks(0) == items;
    } else {
      CountPosts(items, n - 1, o);
      assert items + Tasks(n) == (items + Tasks(n - 1)) + [TaskItem];
      TaskItemsAppend(items + Tasks(n - 1), TaskItem);
      QueuedAppend(items + Tasks(n - 1), TaskItem, o);
    }
  }

  lemma {:induction false} QueuedSome(items: seq<Item>, o: Operation, i: nat)
    requires i < |items| && IsFor(items[i], o)
    ensures Queued(items, o) > 0
  {
    if i < |items| - 1 {
      QueuedSome(items[..|items| - 1], o, i);
    }
  }

  // ----- The invariant -----

  /** Every posted task and every read has its place in `items`. */
  ghost predicate AllIn(s: State, items: seq<Item>) { TaskItems(items) == |s.tasks| && ReadsQueued(s, items) }

  /** A completed connect waits behind every task and read of the sessions before. */
  ghost predicate ConnectBehind(l: Loop) {
    forall i :: 0 <= i < |l.ready| && IsFor(l.ready[i], AsyncConnect) ==> AllIn(l.host.client, l.ready[..i])
  }

  /** Only completed operations have handlers waiting. */
  predicate Proper(i: Item) { i.Handler? ==> !OperationOf(i.e).NoOperation? }

  predicate AllProper(items: seq<Item>) { forall i :: 0 <= i < |items| ==> Proper(items[i]) }

  ghost predicate LoopInv(l: Loop, p: Past) {
    var s := l.host.client;
    && HostInv(l.host)
    && AllProper(l.ready)
    && TaskItems(l.ready) == |s.tasks|
    && Queued(l.ready, AsyncConnect) <= s.connects
    && |Chains(s)| <= p.row
    && (p.settled ==> Settled(s) && ConnectBehind(l))
  }

  /** With fewer read chains than the cap, the task cap is not taken up by reads. */
  lemma FewChainsNotCrowded(s: State)
    requires |Chains(s)| < MAX_PENDING_TASKS
    ensures !Crowded(s)
  {
    if Crowded(s) {
      AllReads(s.tasks);
    }
  }

  lemma SubsetSize(a: multiset<nat>, b: multiset<nat>)
    requires a <= b
    ensures |a| <= |b|
  {
    assert b == a + (b - a);
  }

  /** Unless a session begins, no step adds a read chain. */
  lemma StepKeepsChains(h: Host, e: Event)
    requires HostInv(h) && Step(h, e).client.session == h.client.session
    ensures |Chains(Step(h, e).client)| <= |Chains(h.client)|
  {
    hide Step, Chains, StoreOk, CallsOk, SyncOk, Conserved, Bounded, Awake, Isolated;
    Recovery.StepNoNewChain(h, e);
    StepKeeps(h, e);
    var c, c', n := Chains(h.client), Chains(Step(h, e).client), h.client.session + 1;
    assert n !in c';
    assert forall k: nat :: c'[k] <= c[k];
    SubsetSize(c', c);
  }

  /** Otherwise it adds the one of the session that begins. */
  lemma StepAddsOne(h: Host, e: Event)
    requires HostInv(h)
    ensures |Chains(Step(h, e).client)| <= |Chains(h.client)| + 1
  {
    hide Step, Chains, HostInv;
    Recovery.StepNoNewChain(h, e);
    SubsetSize(Chains(Step(h, e).client), Chains(h.client) + multiset{h.client.session + 1});
  }

  /** What the handler's or call's new state `h` means for the rest of the loop; `rest` is still to come. */
  lemma PostsKeep(h: Host, rest: seq<Item>, p: Past)
    requires HostInv(h) && |Chains(h.client)| <= p.row
    requires TaskItems(rest) <= |h.client.tasks| && AllProper(rest)
    requires Queued(rest, AsyncConnect) <= h.client.connects
    requires p.settled ==> Settled(h.client) && ConnectBehind(Loop(h, rest))
    requires p.settled && Queued(rest, AsyncConnect) > 0 ==> |h.client.tasks| == TaskItems(rest)
    ensures LoopInv(Ran(h, rest), p)
  {
    hide HostInv, Chains, ConnectBehind, TaskItems, Queued, AllProper;
    var n := |h.client.tasks| - TaskItems(rest);
    var l := Loop(h, rest);
    assert Ran(h, rest) == l.(ready := rest + Tasks(n));
    CountPosts(rest, n, AsyncConnect);
    if p.settled {
      PostsKeepBehind(l, n);
    }
    PostsProper(rest, n);
  }

  lemma PostsProper(rest: seq<Item>, n: nat)
    requires AllProper(rest)
    ensures AllProper(rest + Tasks(n))
  {}

  lemma PostsKeepBehind(l: Loop, n: nat)
    requires ConnectBehind(l) && (n > 0 ==> Queued(l.ready, AsyncConnect) == 0)
    ensures ConnectBehind(l.(ready := l.ready + Tasks(n)))
  {
    hide AllIn;
    var ready := l.ready + Tasks(n);
    forall i | 0 <= i < |ready| && IsFor(ready[i], AsyncConnect)
      ensures AllIn(l.host.client, ready[..i])
    {
      assert i < |l.ready|;
      QueuedSome(l.ready, AsyncConnect, i);
      assert ready[..i] == l.ready[..i];
    }
  }

  /** The event is the head of the queue, or else a call. */
  ghost predicate IsNext(l: Loop, e: Event, waits: bool) {
    if waits then l.ready != [] && EventOf(l.ready[0]) == e else !e.EvRunTask? && ReadsOf(e) == multiset{}
  }

  function Rest(l: Loop, waits: bool): seq<Item> { if waits && l.ready != [] then l.ready[1..] else l.ready }

  /** A call, or a task, or a handler other than that of a connect; `waits`: the queue's head is for it. */
  lemma OtherRuns(l: Loop, p: Past, e: Event, waits: bool)
    requires LoopInv(l, p) && !e.EvConnectDone? && IsNext(l, e, waits)
    ensures Step(l.host, e).client.session == l.host.client.session
    ensures LoopInv(Ran(Step(l.host, e), Rest(l, waits)), p)
  {
    hide Step, HostInv, Chains, ConnectBehind, TaskItems, Queued;
    var s, h, rest := l.host.client, Step(l.host, e), Rest(l, waits);
    StepEffect(l.host, e);
    StepKeeps(l.host, e);
    StepKeepsChains(l.host, e);
    if waits {
      TaskItemsFront(l.ready);
      QueuedFront(l.ready, AsyncConnect);
    }
    if p.settled {
      OtherKeepsBehind(l, p, e, waits);
    }
    PostsKeep(h, rest, p);
  }

  lemma OtherKeepsBehind(l: Loop, p: Past, e: Event, waits: bool)
    requires LoopInv(l, p) && p.settled && !e.EvConnectDone? && IsNext(l, e, waits)
    ensures ConnectBehind(Loop(Step(l.host, e), Rest(l, waits)))
    ensures Queued(Rest(l, waits), AsyncConnect) > 0 ==> |Step(l.host, e).client.tasks| == TaskItems(Rest(l, waits))
  {
    hide Step, HostInv, Chains, TaskItems, Queued;
    var s, s', rest := l.host.client, Step(l.host, e).client, Rest(l, waits);
    StepEffect(l.host, e);
    if waits {
      TaskItemsFront(l.ready);
      QueuedFront(l.ready, AsyncConnect);
    }
    forall i | 0 <= i < |rest| && IsFor(rest[i], AsyncConnect)
      ensures AllIn(s', rest[..i])
    {
      QueuedSome(rest, AsyncConnect, i);
      if waits {
        assert l.ready[i + 1] == rest[i];
        StillIn(s, e, s', l.ready[..i + 1]);
        assert l.ready[..i + 1][1..] == rest[..i];
      } else {
        assert s.readers - ReadsOf(e) == s.readers;
      }
    }
  }

  /** Without a connection, running the head takes exactly the head's task or read away. */
  lemma StillIn(s: State, e: Event, s': State, items: seq<Item>)
    requires Effect(s, e, s') && !s.conn.Connected?
    requires items != [] && Proper(items[0]) && EventOf(items[0]) == e && AllIn(s, items)
    ensures AllIn(s', items[1..])
  {
    TaskItemsFront(items);
    forall k ensures s'.readers[k] <= Queued(items[1..], AsyncRead(k)) {
      QueuedFront(items, AsyncRead(k));
      assert s.readers[k] <= Queued(items, AsyncRead(k));
    }
  }

  lemma NothingLeft(s: State)
    requires AllIn(s, [])
    ensures Chains(s) == multiset{} && s.tasks == [] && s.readers == multiset{}
  {
    forall k ensures s.readers[k] == 0 {
      assert s.readers[k] <= Queued([], AsyncRead(k));
    }
    assert s.readers == multiset{};
  }

  lemma {:induction false} TaskItemsPrefix(items: seq<Item>, i: nat)
    requires i <= |items|
    ensures TaskItems(items[..i]) <= TaskItems(items)
  {
    if i < |items| {
      TaskItemsPrefix(items[..|items| - 1], i);
      assert items[..|items| - 1][..i] == items[..i];
    } else {
      assert items[..i] == items;
    }
  }

  /** Where nothing is posted and nothing read, any place is behind everything. */
  lemma IdleBehind(l: Loop)
    requires l.host.client.tasks == [] && l.host.client.readers == multiset{} && TaskItems(l.ready) == 0
    ensures ConnectBehind(l)
  {
    forall i | 0 <= i < |l.ready| && IsFor(l.ready[i], AsyncConnect) ensures AllIn(l.host.client, l.ready[..i]) {
      TaskItemsPrefix(l.ready, i);
    }
  }

  /** Behind a session that began with no other attempt under way, a completed connect finds no chain. */
  lemma ConnectRuns(l: Loop, p: Past, c: Connection)
    requires LoopInv(l, p) && l.ready != [] && l.ready[0] == Handler(EvConnectDone(c))
    ensures p.settled ==> Chains(l.host.client) == multiset{}
    ensures var h := Step(l.host, EvConnectDone(c)); LoopInv(Ran(h, l.ready[1..]), After(p, l.host.client, h.client))
  {
    hide HostInv, Chains, ConnectDone, OfClient, ConnectBehind;
    var e, s, rest := EvConnectDone(c), l.host.client, l.ready[1..];
    var h := Step(l.host, e);
    var p' := After(p, s, h.client);
    ConnectDoneEffect(s, c);
    OfClientClient(l.host, ConnectDone(s, c));
    TaskItemsFront(l.ready);
    QueuedFront(l.ready, AsyncConnect);
    if p.settled {
      HeadIsFree(l);
      NothingLeft(s);
    }
    if p'.settled && h.client.conn.Connected? {
      NoConnectBehind(Loop(h, rest));
    } else if p'.settled {
      IdleBehind(Loop(h, rest));
    }
    StepKeeps(l.host, e);
    StepAddsOne(l.host, e);
    if h.client.session == s.session {
      StepKeepsChains(l.host, e);
    }
    PostsKeep(h, rest, p');
  }

  lemma HeadIsFree(l: Loop)
    requires ConnectBehind(l) && l.ready != [] && IsFor(l.ready[0], AsyncConnect)
    ensures AllIn(l.host.client, [])
  {
    assert l.ready[..0] == [];
  }

  lemma NoConnectBehind(l: Loop)
    requires Queued(l.ready, AsyncConnect) == 0
    ensures ConnectBehind(l)
  {
    forall i | 0 <= i < |l.ready| ensures !IsFor(l.ready[i], AsyncConnect) {
      if IsFor(l.ready[i], AsyncConnect) {
        QueuedSome(l.ready, AsyncConnect, i);
      }
    }
  }

  lemma CompletionKeeps(l: Loop, p: Past, e: Event)
    requires LoopInv(l, p) && Allowed(l, Completes(e))
    ensures LoopInv(Next(l, Completes(e)), p)
  {
    hide HostInv, Chains, TaskItems, Queued, Settled;
    var ready := l.ready + [Handler(e)];
    TaskItemsAppend(l.ready, Handler(e));
    QueuedAppend(l.ready, Handler(e), AsyncConnect);
    forall i | p.settled && 0 <= i < |ready| && IsFor(ready[i], AsyncConnect) ensures AllIn(l.host.client, ready[..i]) {
      assert ready[..i] == l.ready[..i];
      assert i == |l.ready| ==> l.ready[..i] == l.ready;
    }
  }

  lemma CallsHaveNoOperation(e: Event)
    requires OperationOf(e).NoOperation?
    ensures !e.EvConnectDone? && ReadsOf(e) == multiset{}
  {}

  lemma NextKeeps(l: Loop, p: Past, m: Move)
    requires LoopInv(l, p)
    ensures LoopInv(Next(l, m), After(p, l.host.client, Next(l, m).host.client))
  {
    hide LoopInv, Step, Settled;
    if Allowed(l, m) {
      match m
      case Calls(e) =>
        CallsHaveNoOperation(e);
        OtherRuns(l, p, e, false);
      case Completes(e) => CompletionKeeps(l, p, e);
      case Polls =>
        var e := EventOf(l.ready[0]);
        if e.EvConnectDone? {
          ConnectRuns(l, p, e.c);
        } else {
          OtherRuns(l, p, e, true);
        }
    }
  }

  lemma BeginInv()
    ensures LoopInv(BEGIN, Past(0, true))
  {
    RunKeeps([]);
  }

  lemma {:induction false} LoopRunKeeps(moves: seq<Move>)
    ensures LoopInv(LoopRun(moves), PastOf(moves))
  {
    hide LoopInv, Next, After;
    if moves == [] {
      BeginInv();
    } else {
      var n := |moves| - 1;
      LoopRunKeeps(moves[..n]);
      NextKeeps(LoopRun(moves[..n]), PastOf(moves[..n]), moves[n]);
    }
  }

  // ----- What holds in order -----

  lemma {:induction false} RowsAreOverlaps(moves: seq<Move>)
    ensures PastOf(moves).row <= Overlaps(moves) + if PastOf(moves).settled then 1 else 0
  {
    hide LoopRun, Settled;
    if moves != [] {
      RowsAreOverlaps(moves[..|moves| - 1]);
    }
  }

  /**
   * In every run, and for any number of sessions, there are at any time no more read chains than
   * sessions in the latest row; so at most one more than sessions have begun while another attempt was
   * under way. If none has, there is one chain at most.
   */
  lemma ReadChainsInOrder(moves: seq<Move>)
    ensures |Chains(LoopRun(moves).host.client)| <= PastOf(moves).row <= 1 + Overlaps(moves)
  {
    hide LoopRun, PastOf, Overlaps, Chains;
    LoopRunKeeps(moves);
    RowsAreOverlaps(moves);
  }

  /** A session that began with no other attempt under way has no read chain left when the next one begins. */
  lemma NoChainOutlivesSettled(moves: seq<Move>, m: Move)
    requires PastOf(moves).settled
    requires LoopRun(moves + [m]).host.client.session != LoopRun(moves).host.client.session
    ensures Chains(LoopRun(moves).host.client) == multiset{}
  {
    hide LoopInv, Step, Settled, PastOf, LoopRun, Chains;
    var l, p := LoopRun(moves), PastOf(moves);
    LoopRunKeeps(moves);
    NextMove(moves, m);
    match m
    case Calls(e) =>
      CallsHaveNoOperation(e);
      OtherRuns(l, p, e, false);
    case Completes(e) =>
    case Polls =>
      var e := EventOf(l.ready[0]);
      if e.EvConnectDone? {
        ConnectRuns(l, p, e.c);
      } else {
        OtherRuns(l, p, e, true);
      }
  }

  lemma NextNotStranded(l: Loop, p: Past, m: Move)
    requires LoopInv(l, p) && p.row < MAX_PENDING_TASKS && NotStranded(l.host.client)
    ensures NotStranded(Next(l, m).host.client)
  {
    hide Step, HostInv, NotStranded, Crowded, Chains, ConnectBehind, TaskItems, Queued;
    FewChainsNotCrowded(l.host.client);
    if m.Calls? {
      StepNotStranded(l.host, m.e);
    } else if m.Polls? && l.ready != [] {
      StepNotStranded(l.host, EventOf(l.ready[0]));
    }
  }

  /**
   * And so no queued frame is left without somebody to write it, although PostTask drops tasks at its
   * cap, as long as no row of sessions is as long as the cap.
   */
  lemma {:induction false} NoStrandedPacketInOrder(moves: seq<Move>)
    requires forall n :: 0 <= n < |moves| ==> PastOf(moves[..n]).row < MAX_PENDING_TASKS
    ensures NotStranded(LoopRun(moves).host.client)
  {
    hide LoopInv, Next, PastOf, NotStranded;
    if moves == [] {
      RunKeeps([]);
      NothingQueued();
    } else {
      var n := |moves| - 1;
      forall m | 0 <= m < n ensures PastOf(moves[..n][..m]).row < MAX_PENDING_TASKS {
        assert moves[..n][..m] == moves[..m];
      }
      NoStrandedPacketInOrder(moves[..n]);
      LoopRunKeeps(moves[..n]);
      NextNotStranded(LoopRun(moves[..n]), PastOf(moves[..n]), moves[n]);
    }
  }

  lemma NothingQueued()
    ensures NotStranded(START.client)
  {}

  lemma {:induction false} OverlapsGrow(moves: seq<Move>, n: nat)
    requires n <= |moves|
    ensures Overlaps(moves[..n]) <= Overlaps(moves)
    decreases |moves|
  {
    hide LoopRun, Settled;
    if n < |moves| {
      OverlapsGrow(moves[..|moves| - 1], n);
      assert moves[..|moves| - 1][..n] == moves[..n];
    } else {
      assert moves[..n] == moves;
    }
  }

  /** In particular while fewer sessions than the cap minus one have begun while another attempt was under way. */
  lemma NoStrandedPacketFewOverlaps(moves: seq<Move>)
    requires Overlaps(moves) + 1 < MAX_PENDING_TASKS
    ensures NotStranded(LoopRun(moves).host.client)
  {
    hide LoopRun, PastOf, Overlaps, NotStranded;
    forall n | 0 <= n < |moves| ensures PastOf(moves[..n]).row < MAX_PENDING_TASKS {
      RowsAreOverlaps(moves[..n]);
      OverlapsGrow(moves, n);
    }
    NoStrandedPacketInOrder(moves);
  }

  /** Each of these runs is one of the runs that all other theorems are about. */
  lemma {:induction false} LoopRunsAreRuns(moves: seq<Move>) returns (events: seq<Event>)
    ensures LoopRun(moves).host == Run(events)
  {
    hide Step;
    if moves == [] {
      events := [];
    } else {
      var n := |moves| - 1;
      events := LoopRunsAreRuns(moves[..n]);
      var l := LoopRun(moves[..n]);
      if Allowed(l, moves[n]) && moves[n].Calls? {
        RunAppend(events, moves[n].e);
        events := events + [moves[n].e];
      } else if moves[n].Polls? && l.ready != [] {
        RunAppend(events, EventOf(l.ready[0]));
        events := events + [EventOf(l.ready[0])];
      }
    }
  }

  // ----- Why attempts must be settled -----

  ghost predicate Reaches(moves: seq<Move>, s: State, ready: seq<Item>) {
    LoopRun(moves).host.client == s && LoopRun(moves).ready == ready
  }

  lemma NextMove(moves: seq<Move>, m: Move)
    ensures LoopRun(moves + [m]) == Next(LoopRun(moves), m)
  {
    assert (moves + [m])[..|moves|] == moves;
  }

  lemma CallReaches(moves: seq<Move>, s: State, e: Event, s': State)
    requires Reaches(moves, s, []) && OfClientOnly(e) && OperationOf(e).NoOperation? && !e.EvRunTask?
    requires s' == ClientStep(s, e) && s'.tasks == []
    ensures Reaches(moves + [Calls(e)], s', [])
  {
    hide ClientStep, Step;
    NextMove(moves, Calls(e));
    ClientEvents(LoopRun(moves).host, e);
    assert [] + Tasks(0) == [];
  }

  lemma CompletionReaches(moves: seq<Move>, s: State, ready: seq<Item>, e: Event)
    requires Reaches(moves, s, ready) && Queued(ready, OperationOf(e)) < UnderWay(s, OperationOf(e))
    requires s.readers == multiset{}
    ensures Reaches(moves + [Completes(e)], s, ready + [Handler(e)])
  {
    NextMove(moves, Completes(e));
  }

  lemma HandlerReaches(moves: seq<Move>, s: State, e: Event, rest: seq<Item>, s': State, n: nat)
    requires Reaches(moves, s, [Handler(e)] + rest) && OfClientOnly(e)
    requires s' == ClientStep(s, e) && |s'.tasks| == TaskItems(rest) + n
    ensures Reaches(moves + [Polls], s', rest + Tasks(n))
  {
    hide ClientStep, Step, TaskItems;
    NextMove(moves, Polls);
    assert ([Handler(e)] + rest)[1..] == rest;
    ClientEvents(LoopRun(moves).host, e);
  }

  /** Not connected, nothing read, sent or posted, and so many attempts under way. */
  ghost predicate Trying(s: State, resolves: nat, connects: nat) {
    && s.conn.Connecting? && s.readers == multiset{} && s.tasks == [] && s.session == 0
    && s.resolves == resolves && s.connects == connects
  }

  lemma TryMore(s: State, resolves: nat)
    requires Trying(s, resolves, 0) || (resolves == 0 && s == INITIAL)
    ensures Trying(Connect(s), resolves + 1, 0)
  {}

  lemma ResolveTry(s: State, resolves: nat, connects: nat)
    requires Trying(s, resolves + 1, connects)
    ensures Trying(Resolved(s, Found), resolves, connects + 1)
  {}

  /** Four attempts begin; the first three resolve. */
  lemma FourAttempts() returns (moves: seq<Move>, s: State)
    ensures Trying(s, 1, 3) && Reaches(moves, s, [])
  {
    hide Trying, Connect, Resolved;
    moves, s := [], INITIAL;
    for n := 0 to 4
      invariant Reaches(moves, s, []) && (Trying(s, n, 0) || (n == 0 && s == INITIAL))
    {
      TryMore(s, n);
      Idle(Connect(s), n + 1, 0);
      CallReaches(moves, s, EvConnect, Connect(s));
      moves, s := moves + [Calls(EvConnect)], Connect(s);
    }
    for n := 0 to 3
      invariant Reaches(moves, s, []) && Trying(s, 4 - n, n)
    {
      var e := EvResolved(Found);
      Idle(s, 4 - n, n);
      ResolveTry(s, 3 - n, n);
      Idle(Resolved(s, Found), 3 - n, n + 1);
      CompletionReaches(moves, s, [], e);
      assert [] + [Handler(e)] == [Handler(e)] + [];
      HandlerReaches(moves + [Completes(e)], s, e, [], Resolved(s, Found), 0);
      assert [] + Tasks(0) == [];
      moves, s := moves + [Completes(e)] + [Polls], Resolved(s, Found);
    }
  }

  lemma Idle(s: State, resolves: nat, connects: nat)
    requires Trying(s, resolves, connects)
    ensures s.tasks == [] && s.readers == multiset{} && s.resolves == resolves && s.connects == connects
  {}

  const H_CONNECT := Handler(EvConnectDone(Opened))
  const H_RESOLVE := Handler(EvResolved(Found))

  /** Their handlers queue up: two connects, the fourth resolve, and the third connect. */
  lemma QueueUp() returns (moves: seq<Move>, s: State)
    ensures Trying(s, 1, 3) && Reaches(moves, s, [H_CONNECT, H_CONNECT, H_RESOLVE, H_CONNECT])
  {
    hide Trying, Reaches;
    moves, s := FourAttempts();
    Idle(s, 1, 3);
    QueuedHere();
    CompletionReaches(moves, s, [], EvConnectDone(Opened));
    moves := moves + [Completes(EvConnectDone(Opened))];
    assert [] + [H_CONNECT] == [H_CONNECT];
    CompletionReaches(moves, s, [H_CONNECT], EvConnectDone(Opened));
    moves := moves + [Completes(EvConnectDone(Opened))];
    assert [H_CONNECT] + [H_CONNECT] == [H_CONNECT, H_CONNECT];
    CompletionReaches(moves, s, [H_CONNECT, H_CONNECT], EvResolved(Found));
    moves := moves + [Completes(EvResolved(Found))];
    assert [H_CONNECT, H_CONNECT] + [H_RESOLVE] == [H_CONNECT, H_CONNECT, H_RESOLVE];
    CompletionReaches(moves, s, [H_CONNECT, H_CONNECT, H_RESOLVE], EvConnectDone(Opened));
    moves := moves + [Completes(EvConnectDone(Opened))];
    assert [H_CONNECT, H_CONNECT, H_RESOLVE] + [H_CONNECT] == [H_CONNECT, H_CONNECT, H_RESOLVE, H_CONNECT];
  }

  lemma QueuedHere()
    ensures Queued([], AsyncConnect) == 0 && Queued([H_CONNECT], AsyncConnect) == 1
    ensures Queued([H_CONNECT, H_CONNECT], Resolve) == 0
    ensures Queued([H_CONNECT, H_CONNECT, H_RESOLVE], AsyncConnect) == 2
  {
    QueuedNone(AsyncConnect);
    QueuedNone(Resolve);
    hide Queued;
    QueuedAppend([], H_CONNECT, AsyncConnect);
    QueuedAppend([], H_CONNECT, Resolve);
    assert [] + [H_CONNECT] == [H_CONNECT];
    QueuedAppend([H_CONNECT], H_CONNECT, AsyncConnect);
    QueuedAppend([H_CONNECT], H_CONNECT, Resolve);
    assert [H_CONNECT] + [H_CONNECT] == [H_CONNECT, H_CONNECT];
    QueuedAppend([H_CONNECT, H_CONNECT], H_RESOLVE, AsyncConnect);
    assert [H_CONNECT, H_CONNECT] + [H_RESOLVE] == [H_CONNECT, H_CONNECT, H_RESOLVE];
  }

  lemma QueuedNone(o: Operation)
    ensures Queued([], o) == 0
  {}

  /** The four handlers in that order: a session, its end, one more connect, and the next session. */
  function TwoSessions(s: State): State {
    ConnectDone(Resolved(ConnectDone(ConnectDone(s, Opened), Opened), Found), Opened)
  }

  lemma TwoSessionsState(s: State)
    requires Trying(s, 1, 3)
    ensures var s1 := ConnectDone(s, Opened);
            var s2 := ConnectDone(s1, Opened);
            var s3 := Resolved(s2, Found);
            var s4 := TwoSessions(s);
            && s1.tasks == [ReadTask(1)] && s2.tasks == [ReadTask(1)] && s3.tasks == [ReadTask(1)]
            && s4.tasks == [ReadTask(1), ReadTask(2)] && s4.conn.Connected? && s4.session == 2
  {
    var s1 := ConnectDone(s, Opened);
    assert s1.conn.Connected? && s1.connects == 2 && s1.resolves == 1 && s1.session == 1 && s1.tasks == [ReadTask(1)];
    var s2 := ConnectDone(s1, Opened);
    assert s2.conn.Connecting? && s2.connects == 1 && s2.resolves == 1 && s2.session == 1 && s2.tasks == [ReadTask(1)];
    var s3 := Resolved(s2, Found);
    assert s3.conn.Connecting? && s3.connects == 2 && s3.session == 1 && s3.tasks == [ReadTask(1)];
  }

  /**
   * The proviso is needed, and not the order of events is to blame: where attempts pile up, as the
   * timers let them, a read task outlives its session into the next even with a ready queue.
   */
  lemma OverlappingAttemptsShareReads() returns (moves: seq<Move>)
    ensures var s := LoopRun(moves).host.client;
            s.conn.Connected? && s.session == 2 && s.tasks == [ReadTask(1), ReadTask(2)]
  {
    hide Reaches, Trying, ConnectDone, Resolved, LoopRun;
    var s: State;
    moves, s := QueueUp();
    TwoSessionsState(s);
    var s1 := ConnectDone(s, Opened);
    var s2 := ConnectDone(s1, Opened);
    var s3 := Resolved(s2, Found);
    var s4 := ConnectDone(s3, Opened);
    CountsHere();
    assert [H_CONNECT, H_CONNECT, H_RESOLVE, H_CONNECT] == [H_CONNECT] + [H_CONNECT, H_RESOLVE, H_CONNECT];
    HandlerReaches(moves, s, EvConnectDone(Opened), [H_CONNECT, H_RESOLVE, H_CONNECT], s1, 1);
    assert [H_CONNECT, H_RESOLVE, H_CONNECT] + Tasks(1) == [H_CONNECT] + [H_RESOLVE, H_CONNECT, TaskItem];
    HandlerReaches(moves + [Polls], s1, EvConnectDone(Opened), [H_RESOLVE, H_CONNECT, TaskItem], s2, 0);
    assert [H_RESOLVE, H_CONNECT, TaskItem] + Tasks(0) == [H_RESOLVE] + [H_CONNECT, TaskItem];
    HandlerReaches(moves + [Polls] + [Polls], s2, EvResolved(Found), [H_CONNECT, TaskItem], s3, 0);
    assert [H_CONNECT, TaskItem] + Tasks(0) == [H_CONNECT] + [TaskItem];
    HandlerReaches(moves + [Polls] + [Polls] + [Polls], s3, EvConnectDone(Opened), [TaskItem], s4, 1);
    moves := moves + [Polls] + [Polls] + [Polls] + [Polls];
    ReachedState(moves, s4, [TaskItem] + Tasks(1));
  }

  lemma ReachedState(moves: seq<Move>, s: State, ready: seq<Item>)
    requires Reaches(moves, s, ready)
    ensures LoopRun(moves).host.client == s
  {}

  lemma CountsHere()
    ensures TaskItems([H_CONNECT, H_RESOLVE, H_CONNECT]) == 0
    ensures TaskItems([H_RESOLVE, H_CONNECT, TaskItem]) == 1 && TaskItems([H_CONNECT, TaskItem]) == 1 && TaskItems([TaskItem]) == 1
  {
    TaskItemsFront([TaskItem]);
    TaskItemsFront([H_CONNECT]);
    TaskItemsFront([H_RESOLVE, H_CONNECT]);
    TaskItemsFront([H_CONNECT, TaskItem]);
    TaskItemsFront([H_RESOLVE, H_CONNECT, TaskItem]);
    TaskItemsFront([H_CONNECT, H_RESOLVE, H_CONNECT]);
    assert [TaskItem][1..] == [] && [H_CONNECT][1..] == [] && [H_RESOLVE, H_CONNECT][1..] == [H_CONNECT];
    assert [H_CONNECT, TaskItem][1..] == [TaskItem] && [H_RESOLVE, H_CONNECT, TaskItem][1..] == [H_CONNECT, TaskItem];
    assert [H_CONNECT, H_RESOLVE, H_CONNECT][1..] == [H_RESOLVE, H_CONNECT];
  }
}
