/**
 * The queue of whispers waiting for the bridge to say whether their receiver is on mobile
 * (mobigame/unprocessed/message_queue.cpp): what its operations do, and what every run keeps.
 */
module Messages {
  import opened Compaction

  const MAX_MESSAGE_COUNT: nat := 5000
  const CLEANUP_INTERVAL: int := 60
  const MESSAGE_TIMEOUT: int := 120
  const ID_RANGE: nat := 0x1_0000_0000 // container ids are uint32_t

  /**
   * `id` is the container id the code stores and the bridge sees; `birth`, a history variable,
   * numbers the additions without wrapping.
   */
  datatype Msg = Msg(id: nat, birth: nat, sender: nat, receiver: string, text: string, created: int)

  /** `added` counts additions, `handled` the births of the messages handed to Send. */
  datatype State = State(queue: seq<Msg>, added: nat, lastCleanup: int, handled: seq<nat>)

  // ----- Operations -----

  function NextId(s: State): nat { s.added % ID_RANGE }

  function Add(s: State, sender: nat, receiver: string, text: string, now: int): State {
    var q := if |s.queue| >= MAX_MESSAGE_COUNT then s.queue[1..] else s.queue;
    s.(queue := q + [Msg(NextId(s), s.added, sender, receiver, text, now)], added := s.added + 1)
  }

  /** The position of the first message with that id; the length of the queue if there is none. */
  function Find(q: seq<Msg>, id: nat): (k: nat)
    ensures k <= |q|
    ensures k < |q| ==> q[k].id == id
    ensures forall i :: 0 <= i < k ==> q[i].id != id
  {
    if q == [] || q[0].id == id then 0 else 1 + Find(q[1..], id)
  }

  /** The last element takes the place of the removed one. */
  function SwapOut(q: seq<Msg>, k: nat): seq<Msg>
    requires k < |q|
  {
    q[k := q[|q| - 1]][..|q| - 1]
  }

  function Process(s: State, id: nat): State {
    var k := Find(s.queue, id);
    if k == |s.queue| then s
    else s.(queue := SwapOut(s.queue, k), handled := s.handled + [s.queue[k].birth])
  }

  function Discard(s: State, id: nat): State {
    var k := Find(s.queue, id);
    if k == |s.queue| then s else s.(queue := SwapOut(s.queue, k))
  }

  function Expired(now: int): Msg -> bool {
    (m: Msg) => now - m.created > MESSAGE_TIMEOUT
  }

  function Fresh(q: seq<Msg>, now: int): seq<Msg> { Kept(q, Expired(now)) }

  function Cleanup(s: State, now: int): State {
    if now - s.lastCleanup < CLEANUP_INTERVAL then s
    else s.(lastCleanup := now, queue := Fresh(s.queue, now))
  }

  datatype Event =
    | EvAdd(sender: nat, receiver: string, text: string, now: int)
    | EvProcess(id: nat)
    | EvDiscard(id: nat)
    | EvCleanup(now: int)

  function Step(s: State, e: Event): State {
    match e
    case EvAdd(sender, receiver, text, now) => Add(s, sender, receiver, text, now)
    case EvProcess(id) => Process(s, id)
    case EvDiscard(id) => Discard(s, id)
    case EvCleanup(now) => Cleanup(s, now)
  }

  const INITIAL := State([], 0, 0, [])

  function Run(events: seq<Event>): State {
    if events == [] then INITIAL else Step(Run(events[..|events| - 1]), events[|events| - 1])
  }

  // ----- Removal -----

  lemma SwapOutParts(q: seq<Msg>, k: nat)
    requires k < |q| - 1
    ensures var before, between, last := q[..k], q[k + 1..|q| - 1], q[|q| - 1];
            q == before + [q[k]] + between + [last] && SwapOut(q, k) == before + [last] + between
  {}

  /** Swap-with-back removes exactly the message at `k` ... */
  lemma SwapOutRemovesOne(q: seq<Msg>, k: nat)
    requires k < |q|
    ensures multiset(SwapOut(q, k)) == multiset(q) - multiset{q[k]}
  {
    if k == |q| - 1 {
      assert q == SwapOut(q, k) + [q[k]];
    } else {
      hide SwapOut;
      SwapOutParts(q, k);
    }
  }

  /** ... and puts every other one where it was, or, coming from the back, earlier. */
  lemma SwapOutPositions(q: seq<Msg>, k: nat, i: nat)
    requires k < |q| && i < |q| - 1
    ensures SwapOut(q, k)[i] == if i == k then q[|q| - 1] else q[i]
  {}

  lemma FreshMembers(q: seq<Msg>, now: int)
    ensures forall m :: m in Fresh(q, now) <==> m in q && now - m.created <= MESSAGE_TIMEOUT
    ensures |Fresh(q, now)| <= |q|
  {
    hide Kept;
    KeptMembers(q, Expired(now));
  }

  // ----- What every run keeps -----

  ghost predicate DistinctBirths(q: seq<Msg>) {
    forall i, j :: 0 <= i < j < |q| ==> q[i].birth != q[j].birth
  }

  ghost predicate Inv(s: State) {
    && |s.queue| <= MAX_MESSAGE_COUNT
    && DistinctBirths(s.queue)
    && (forall m :: m in s.queue ==> m.birth < s.added && m.birth !in s.handled && m.id == m.birth % ID_RANGE)
    && (forall b :: b in s.handled ==> b < s.added)
    && (forall i, j :: 0 <= i < j < |s.handled| ==> s.handled[i] != s.handled[j])
  }

  lemma SwapOutKeeps(q: seq<Msg>, k: nat)
    requires DistinctBirths(q) && k < |q|
    ensures DistinctBirths(SwapOut(q, k))
    ensures forall m :: m in SwapOut(q, k) <==> m in q && m.birth != q[k].birth
  {
    var q' := SwapOut(q, k);
    forall m | m in q && m.birth != q[k].birth ensures m in q' {
      var i :| 0 <= i < |q| && q[i] == m;
      assert m == q'[if i == |q| - 1 then k else i];
    }
    forall m | m in q' ensures m in q && m.birth != q[k].birth {
      var i :| 0 <= i < |q'| && q'[i] == m;
      SwapOutPositions(q, k, i);
    }
  }

  lemma FreshKeeps(q: seq<Msg>, now: int)
    requires DistinctBirths(q)
    ensures DistinctBirths(Fresh(q, now))
  {
    hide Kept;
    var r := Fresh(q, now);
    forall i, k | 0 <= i < k < |r| ensures r[i].birth != r[k].birth {
      var j, l := KeptPositions(q, Expired(now), i, k);
    }
  }

  lemma AddKeeps(s: State, sender: nat, receiver: string, text: string, now: int)
    requires Inv(s)
    ensures Inv(Add(s, sender, receiver, text, now))
  {
    assert forall i :: 0 <= i < |s.queue| ==> s.queue[i] in s.queue;
  }

  lemma TakeOutKeeps(s: State, id: nat)
    requires Inv(s)
    ensures Inv(Process(s, id)) && Inv(Discard(s, id))
  {
    hide SwapOut;
    var k := Find(s.queue, id);
    if k < |s.queue| {
      SwapOutKeeps(s.queue, k);
      SwapOutLength(s.queue, k);
      assert s.queue[k] in s.queue;
    }
  }

  lemma SwapOutLength(q: seq<Msg>, k: nat)
    requires k < |q|
    ensures |SwapOut(q, k)| == |q| - 1
  {}

  lemma CleanupKeeps(s: State, now: int)
    requires Inv(s)
    ensures Inv(Cleanup(s, now))
  {
    hide Fresh;
    FreshKeeps(s.queue, now);
    FreshMembers(s.queue, now);
  }

  lemma StepKeeps(s: State, e: Event)
    requires Inv(s)
    ensures Inv(Step(s, e))
  {
    hide Inv, Add, Process, Discard, Cleanup;
    match e
    case EvAdd(sender, receiver, text, now) => AddKeeps(s, sender, receiver, text, now);
    case EvProcess(id) => TakeOutKeeps(s, id);
    case EvDiscard(id) => TakeOutKeeps(s, id);
    case EvCleanup(now) => CleanupKeeps(s, now);
  }

  lemma {:induction false} RunKeeps(events: seq<Event>)
    ensures Inv(Run(events))
  {
    if events != [] {
      RunKeeps(events[..|events| - 1]);
      StepKeeps(Run(events[..|events| - 1]), events[|events| - 1]);
    }
  }

  /** In every run, no message is handed to Send twice, and none that was is still queued. */
  lemma ProcessedAtMostOnce(events: seq<Event>)
    ensures var s := Run(events);
            && (forall i, j :: 0 <= i < j < |s.handled| ==> s.handled[i] != s.handled[j])
            && (forall m :: m in s.queue ==> m.birth !in s.handled)
            && |s.queue| <= MAX_MESSAGE_COUNT
  {
    RunKeeps(events);
  }

  lemma QueuedAt(s: State, i: nat, j: nat)
    requires Inv(s) && i < j < |s.queue|
    ensures s.queue[i].birth != s.queue[j].birth && s.queue[i].birth < s.added && s.queue[j].birth < s.added
    ensures s.queue[i].id == s.queue[i].birth % ID_RANGE && s.queue[j].id == s.queue[j].birth % ID_RANGE
  {
    assert s.queue[i] in s.queue && s.queue[j] in s.queue;
  }

  /** Two queued messages carry the same container id exactly when a multiple of 2^32 additions lies between them. */
  lemma IdsCollideIff(events: seq<Event>, i: nat, j: nat)
    requires i < j < |Run(events).queue|
    ensures var q := Run(events).queue;
            && q[i].birth != q[j].birth
            && (q[i].id == q[j].id <==> (q[i].birth - q[j].birth) % ID_RANGE == 0)
  {
    hide Inv, Run;
    RunKeeps(events);
    QueuedAt(Run(events), i, j);
    SameRemainder(Run(events).queue[i].birth, Run(events).queue[j].birth);
  }

  lemma SameRemainder(a: nat, b: nat)
    ensures a % ID_RANGE == b % ID_RANGE <==> (a - b) % ID_RANGE == 0
  {
    var qa, qb := a / ID_RANGE, b / ID_RANGE;
    assert a - b == (qa - qb) * ID_RANGE + (a % ID_RANGE - b % ID_RANGE);
  }

  /** So below 2^32 additions the ids in the queue are distinct. */
  lemma IdsDistinct(events: seq<Event>, i: nat, j: nat)
    requires i < j < |Run(events).queue| && Run(events).added <= ID_RANGE
    ensures Run(events).queue[i].id != Run(events).queue[j].id
  {
    hide Inv, Run;
    RunKeeps(events);
    QueuedAt(Run(events), i, j);
  }

  /**
   * sendUserCheck: the id read before the addition is the id of the message added, and as long as
   * that message stays queued (below 2^32 additions) the bridge's answer to that id finds it.
   */
  lemma AnswerFindsItsMessage(events: seq<Event>, more: seq<Event>, sender: nat, receiver: string, text: string, now: int, i: nat)
    requires var asked := Run(events);
             var s := Run(events + [EvAdd(sender, receiver, text, now)] + more);
             i < |s.queue| && s.queue[i].birth == asked.added && s.added <= ID_RANGE
    ensures var asked := Run(events);
            var s := Run(events + [EvAdd(sender, receiver, text, now)] + more);
            && Add(asked, sender, receiver, text, now).queue[|Add(asked, sender, receiver, text, now).queue| - 1].id == NextId(asked)
            && Find(s.queue, NextId(asked)) == i
  {
    var all := events + [EvAdd(sender, receiver, text, now)] + more;
    var k := Find(Run(all).queue, NextId(Run(events)));
    RunKeeps(all);
    assert Run(all).queue[i] in Run(all).queue;
    if k < i {
      IdsDistinct(all, k, i);
    }
  }

  /** `j` is a position of the old queue, not before `i`, that held what the new queue has at `i`. */
  ghost predicate CameFrom(q: seq<Msg>, q': seq<Msg>, i: nat, j: nat)
    requires i < |q'|
  {
    i <= j < |q| && q[j] == q'[i]
  }

  /** No step moves a message backwards: what is at `i` was at `i` or later, or has just arrived. */
  lemma PositionsNeverIncrease(s: State, e: Event, i: nat)
    requires Inv(s) && i < |Step(s, e).queue|
    ensures Step(s, e).queue[i].birth == s.added || exists j :: CameFrom(s.queue, Step(s, e).queue, i, j)
  {
    var q' := Step(s, e).queue;
    match e
    case EvAdd(sender, receiver, text, now) =>
      if i < |q'| - 1 {
        assert CameFrom(s.queue, q', i, if |s.queue| >= MAX_MESSAGE_COUNT then i + 1 else i);
      }
    case EvProcess(id) => SwapPosition(s.queue, q', Find(s.queue, id), i);
    case EvDiscard(id) => SwapPosition(s.queue, q', Find(s.queue, id), i);
    case EvCleanup(now) =>
      if now - s.lastCleanup < CLEANUP_INTERVAL {
        assert CameFrom(s.queue, q', i, i);
      } else {
        var j := KeptPosition(s.queue, Expired(now), i);
        assert CameFrom(s.queue, q', i, j);
      }
  }

  lemma SwapPosition(q: seq<Msg>, q': seq<Msg>, k: nat, i: nat)
    requires k <= |q| && q' == (if k == |q| then q else SwapOut(q, k)) && i < |q'|
    ensures exists j :: CameFrom(q, q', i, j)
  {
    assert CameFrom(q, q', i, if k < |q| && i == k then |q| - 1 else i);
  }

  // ----- Which messages are queued -----

  /** The first queued message with that id. */
  ghost predicate IsFirst(q: seq<Msg>, m: Msg, id: nat) {
    exists k :: 0 <= k < |q| && q[k] == m && m.id == id && forall i :: 0 <= i < k ==> q[i].id != id
  }

  /** The event takes `m` out of the queue: pushed out, answered, or expired. */
  ghost predicate TakesOut(s: State, e: Event, m: Msg) {
    match e
    case EvAdd(_, _, _, _) => |s.queue| == MAX_MESSAGE_COUNT && s.queue[0] == m
    case EvProcess(id) => IsFirst(s.queue, m, id)
    case EvDiscard(id) => IsFirst(s.queue, m, id)
    case EvCleanup(now) => now - s.lastCleanup >= CLEANUP_INTERVAL && now - m.created > MESSAGE_TIMEOUT
  }

  function AddedBy(s: State, e: Event): seq<Msg> {
    match e
    case EvAdd(sender, receiver, text, now) => [Msg(s.added % ID_RANGE, s.added, sender, receiver, text, now)]
    case _ => []
  }

  lemma FoundIsFirst(q: seq<Msg>, m: Msg, id: nat)
    requires DistinctBirths(q)
    ensures IsFirst(q, m, id) <==> Find(q, id) < |q| && q[Find(q, id)] == m
  {
    if IsFirst(q, m, id) {
      var k :| 0 <= k < |q| && q[k] == m && m.id == id && forall i :: 0 <= i < k ==> q[i].id != id;
    }
  }

  lemma TakenOut(q: seq<Msg>, id: nat, m: Msg)
    requires DistinctBirths(q)
    ensures m in (if Find(q, id) == |q| then q else SwapOut(q, Find(q, id))) <==> m in q && !IsFirst(q, m, id)
  {
    hide SwapOut;
    FoundIsFirst(q, m, id);
    var k := Find(q, id);
    if k < |q| {
      SwapOutKeeps(q, k);
      if m in q && m.birth == q[k].birth {
        var i :| 0 <= i < |q| && q[i] == m;
        assert i == k;
      }
    }
  }

  lemma AddedMembers(s: State, e: Event, m: Msg)
    requires Inv(s) && e.EvAdd?
    ensures m in Step(s, e).queue <==> (m in s.queue && !TakesOut(s, e, m)) || m in AddedBy(s, e)
  {
    var q := s.queue;
    if |q| == MAX_MESSAGE_COUNT {
      assert q == [q[0]] + q[1..];
      assert forall i :: 0 <= i < |q[1..]| ==> q[1..][i] == q[i + 1];
    }
  }

  /** Exactly which messages each event leaves in the queue. */
  lemma QueuedAfter(s: State, e: Event, m: Msg)
    requires Inv(s)
    ensures m in Step(s, e).queue <==> (m in s.queue && !TakesOut(s, e, m)) || m in AddedBy(s, e)
  {
    hide SwapOut, Fresh, IsFirst;
    match e
    case EvAdd(_, _, _, _) => AddedMembers(s, e, m);
    case EvProcess(id) => TakenOut(s.queue, id, m);
    case EvDiscard(id) => TakenOut(s.queue, id, m);
    case EvCleanup(now) => FreshMembers(s.queue, now);
  }

  /** A good answer hands the message it finds to Send, once; nothing else hands anything over. */
  lemma HandedOver(s: State, e: Event, b: nat)
    requires Inv(s)
    ensures b in Step(s, e).handled
            <==> b in s.handled || (e.EvProcess? && exists m :: m in s.queue && m.birth == b && IsFirst(s.queue, m, e.id))
  {
    if e.EvProcess? {
      var k := Find(s.queue, e.id);
      if k < |s.queue| {
        FoundIsFirst(s.queue, s.queue[k], e.id);
      }
      forall m | m in s.queue && IsFirst(s.queue, m, e.id) ensures k < |s.queue| && s.queue[k] == m {
        FoundIsFirst(s.queue, m, e.id);
      }
    }
  }

  /** A clean-up that is due is the next interval's first, and no other event moves the interval. */
  lemma CleanupClock(s: State, e: Event)
    ensures Step(s, e).lastCleanup
            == if e.EvCleanup? && e.now - s.lastCleanup >= CLEANUP_INTERVAL then e.now else s.lastCleanup
  {}

  /** In every run a message is queued, from its addition on, until an event takes it out. */
  lemma {:induction false} QueuedUntilTakenOut(events: seq<Event>, add: Event, more: seq<Event>, m: Msg)
    requires m in AddedBy(Run(events), add)
    requires forall n :: 0 <= n < |more| ==> !TakesOut(Run(events + [add] + more[..n]), more[n], m)
    ensures m in Run(events + [add] + more).queue
    decreases |more|
  {
    hide Run, Step, TakesOut, AddedBy, Inv;
    var all := events + [add] + more;
    if more == [] {
      assert all == events + [add];
      RunOne(events, add);
      RunKeeps(events);
      QueuedAfter(Run(events), add, m);
    } else {
      var n := |more| - 1;
      forall i | 0 <= i < n ensures !TakesOut(Run(events + [add] + more[..n][..i]), more[..n][i], m) {
        assert more[..n][..i] == more[..i];
      }
      QueuedUntilTakenOut(events, add, more[..n], m);
      assert all == events + [add] + more[..n] + [more[n]];
      RunOne(events + [add] + more[..n], more[n]);
      RunKeeps(events + [add] + more[..n]);
      QueuedAfter(Run(events + [add] + more[..n]), more[n], m);
    }
  }

  lemma RunOne(events: seq<Event>, e: Event)
    ensures Run(events + [e]) == Step(Run(events), e)
  {
    assert (events + [e])[..|events|] == events;
  }

  // ----- Whom the bound pushes out -----

  const SOME_ADD := EvAdd(1, "f", "t", 0)

  /** `n` additions and nothing else. */
  ghost predicate Filled(s: State, n: nat) {
    && s.added == n && |s.queue| == n && s.lastCleanup == 0 && s.handled == []
    && forall i :: 0 <= i < n ==> s.queue[i].birth == i && s.queue[i].id == i
  }

  lemma {:induction false} Filling(n: nat) returns (events: seq<Event>)
    requires n <= MAX_MESSAGE_COUNT
    ensures Filled(Run(events), n)
  {
    hide Run;
    if n == 0 {
      events := [];
      RunNothing();
    } else {
      var before := Filling(n - 1);
      RunOne(before, SOME_ADD);
      events := before + [SOME_ADD];
    }
  }

  lemma RunNothing()
    ensures Run([]) == INITIAL
  {}

  lemma FrontTaken(s: State)
    requires Filled(s, MAX_MESSAGE_COUNT)
    ensures var s1 := Process(s, 0);
            && |s1.queue| == MAX_MESSAGE_COUNT - 1 && s1.added == MAX_MESSAGE_COUNT
            && s1.queue[0].birth == MAX_MESSAGE_COUNT - 1 && s1.queue[1].birth == 1
            && forall i :: 1 <= i < |s1.queue| ==> s1.queue[i].birth == i
  {
    assert Find(s.queue, 0) == 0;
  }

  lemma TwoMore(s: State)
    requires |s.queue| == MAX_MESSAGE_COUNT - 1 && s.added == MAX_MESSAGE_COUNT
    requires s.queue[0].birth == MAX_MESSAGE_COUNT - 1 && forall i :: 1 <= i < |s.queue| ==> s.queue[i].birth == i
    ensures var s' := Step(Step(s, SOME_ADD), SOME_ADD);
            && s'.queue[0].birth == 1
            && forall i :: 0 <= i < |s'.queue| ==> s'.queue[i].birth != MAX_MESSAGE_COUNT - 1
  {
    var s1 := Step(s, SOME_ADD);
    assert s1.queue == s.queue + [Msg(NextId(s), s.added, 1, "f", "t", 0)];
    var s' := Step(s1, SOME_ADD);
    assert s'.queue == s1.queue[1..] + [Msg(NextId(s1), s1.added, 1, "f", "t", 0)];
  }

  /**
   * At the bound the front of the queue makes room, and that need not be the oldest: once an answer
   * has moved the newest message to the front, two more additions push it out before all others.
   */
  lemma PushesOutTheNewest() returns (events: seq<Event>)
    ensures var s, s' := Run(events), Run(events + [EvProcess(0)] + [SOME_ADD] + [SOME_ADD]);
            && |s.queue| == MAX_MESSAGE_COUNT && s.queue[MAX_MESSAGE_COUNT - 1].birth == MAX_MESSAGE_COUNT - 1 && s.queue[1].birth == 1
            && s'.queue[0].birth == 1
            && (MAX_MESSAGE_COUNT - 1) !in s'.handled
            && forall i :: 0 <= i < |s'.queue| ==> s'.queue[i].birth != MAX_MESSAGE_COUNT - 1
  {
    hide Run, Process, Add;
    events := Filling(MAX_MESSAGE_COUNT);
    var s := Run(events);
    RunOne(events, EvProcess(0));
    RunOne(events + [EvProcess(0)], SOME_ADD);
    RunOne(events + [EvProcess(0)] + [SOME_ADD], SOME_ADD);
    FrontTaken(s);
    TwoMore(Process(s, 0));
    OnlyFirstHanded(s);
  }

  lemma OnlyFirstHanded(s: State)
    requires Filled(s, MAX_MESSAGE_COUNT)
    ensures Step(Step(Process(s, 0), SOME_ADD), SOME_ADD).handled == [0]
  {
    assert Find(s.queue, 0) == 0;
  }
}
