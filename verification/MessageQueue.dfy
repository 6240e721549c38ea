/** CMessageHelper as an object, and the two places of MobiClient that use it. */
module MessageQueue {
  import opened Common
  import opened Compaction
  import opened Messages

  // EUserCheckResponse
  datatype UserCheck = Valid | Offline | Blocked | NotExist | Unknown

  class CMessageHelper {
    var queue: seq<Msg>
    /** s_message_container_id */
    var containerId: nat
    var lastCleanup: int
    /** History: how many messages were ever added. */
    var added: nat
    ghost var handled: seq<nat>

    ghost predicate CounterInStep()
      reads this
    {
      containerId == added % ID_RANGE
    }

    ghost function Abs(): State
      reads this
    {
      State(queue, added, lastCleanup, handled)
    }

    constructor ()
      ensures CounterInStep() && Abs() == INITIAL
    {
      queue, containerId, lastCleanup, added, handled := [], 0, 0, 0, [];
    }

    function MessageGetContainerId(): (id: nat)
      requires CounterInStep()
      reads this
      ensures id == NextId(Abs())
    {
      containerId
    }

    method MessageAdd(sender: nat, receiver: string, text: string, now: int)
      requires CounterInStep()
      modifies this
      ensures CounterInStep() && Abs() == Add(old(Abs()), sender, receiver, text, now)
    {
      if |queue| >= MAX_MESSAGE_COUNT {
        queue := queue[1..];
      }
      queue := queue + [Msg(containerId, added, sender, receiver, text, now)];
      containerId := if containerId == ID_RANGE - 1 then 0 else containerId + 1;
      added := added + 1;
    }

    /** std::find_if over the container ids. */
    method FindPosition(id: nat) returns (k: nat)
      ensures k == Find(queue, id)
    {
      k := 0;
      assert queue[0..] == queue;
      while k < |queue| && queue[k].id != id
        invariant k <= |queue|
        invariant Find(queue, id) == k + Find(queue[k..], id)
      {
        k := k + 1;
      }
    }

    method SwapWithBackAndPop(k: nat)
      requires k < |queue|
      modifies this`queue
      ensures queue == SwapOut(old(queue), k)
    {
      if k != |queue| - 1 {
        queue := queue[k := queue[|queue| - 1]];
      }
      queue := queue[..|queue| - 1];
    }

    /** `sent`: whether Send of the message's packet reports success. */
    method MessageProcess(id: nat, sent: bool) returns (ret: bool)
      modifies this
      ensures Abs() == Messages.Process(old(Abs()), id)
      ensures ret <==> sent && Find(old(queue), id) < |old(queue)|
      ensures containerId == old(containerId)
    {
      ret := false;
      var k := FindPosition(id);
      if k != |queue| {
        ret := sent;
        handled := handled + [queue[k].birth];
        SwapWithBackAndPop(k);
      }
    }

    method MessageRemove(id: nat)
      modifies this`queue
      ensures Abs() == Discard(old(Abs()), id)
    {
      var k := FindPosition(id);
      if k != |queue| {
        SwapWithBackAndPop(k);
      }
    }

    method MessageCleanupExpired(now: int)
      modifies this`queue, this`lastCleanup
      ensures Abs() == Cleanup(old(Abs()), now)
    {
      if now - lastCleanup < CLEANUP_INTERVAL {
        return;
      }
      lastCleanup := now;
      queue := RemoveIf(queue, Expired(now));
    }

    /** message_get_container */
    method MessageGetContainer(id: nat) returns (m: Option<Msg>)
      ensures m == if Find(queue, id) < |queue| then Some(queue[Find(queue, id)]) else None
    {
      var k := FindPosition(id);
      return if k != |queue| then Some(queue[k]) else None;
    }
  }

  /** The id sendUserCheck puts in its packet is the one the next addition gets. */
  method SendUserCheck(helper: CMessageHelper, nameTo: string, message: string, sender: nat, now: int)
    returns (packetId: Option<nat>)
    requires helper.CounterInStep()
    modifies helper
    ensures helper.CounterInStep()
    ensures packetId.None? <==> nameTo == "" || message == "" || sender == 0
    ensures packetId.None? ==> helper.Abs() == old(helper.Abs())
    ensures packetId.Some? ==>
              && helper.Abs() == Add(old(helper.Abs()), sender, nameTo, message, now)
              && helper.queue[|helper.queue| - 1].id == packetId.value
  {
    if nameTo == "" || message == "" || sender == 0 {
      return None;
    }
    packetId := Some(helper.MessageGetContainerId());
    helper.MessageAdd(sender, nameTo, message, now);
  }

  /** HandleUserCheck: a valid receiver gets the message, any other answer discards it. */
  method HandleUserCheck(helper: CMessageHelper, response: UserCheck, id: nat, sent: bool) returns (ok: bool)
    modifies helper
    ensures helper.Abs() == if response.Valid? then Messages.Process(old(helper.Abs()), id)
                            else Discard(old(helper.Abs()), id)
    ensures ok <==>
            var found := Find(old(helper.queue), id) < |old(helper.queue)|;
            if response.Valid? then sent && found else response.Unknown? || found
    ensures helper.containerId == old(helper.containerId)
  {
    match response {
      case Valid =>
        ok := helper.MessageProcess(id, sent);
        return;
      case Offline | Blocked | NotExist =>
        var container := helper.MessageGetContainer(id);
        if container.None? {
          return false;
        }
      case Unknown =>
    }
    helper.MessageRemove(id);
    return true;
  }
}
