/**
 * MobiClient as an object over a NetworkClientImpl, with the saved packets of CUnprocessedHelper and
 * the calls back from GameClientBase; operation by operation against module Bridge.
 */
module MobiClient {
  import opened Common
  import opened Compaction
  import opened Session
  import opened Bridge
  import opened FrameReader
  import opened NetworkClient

  class MobiClientImpl {
    const client: NetworkClientImpl
    /** unp_packets_ */
    var unpPackets: seq<Saved>
    var lastCleanupTime: int
    var bridgeCacheReady: bool
    var syncPacketSent: bool
    /** The static retry_count of SendSync. */
    var retryCount: nat
    // History.
    var calls: nat
    ghost var sent: seq<nat>
    ghost var synced: nat

    ghost function Abs(): Host
      reads this, client
    {
      Host(client.Abs(), unpPackets, lastCleanupTime, calls, sent, bridgeCacheReady, syncPacketSent, retryCount, synced)
    }

    constructor ()
      ensures fresh(client) && Abs() == START
    {
      client := new NetworkClientImpl();
      unpPackets, lastCleanupTime := [], 0;
      bridgeCacheReady, syncPacketSent, retryCount := false, false, 0;
      calls, sent, synced := 0, [], 0;
    }

    // ----- CUnprocessedHelper -----

    method UnprocessedAdd(call: nat, data: Bytes, encrypt: bool, now: int)
      modifies this`unpPackets
      ensures unpPackets == Save(old(unpPackets), call, data, encrypt, now)
    {
      if data == [] {
        return;
      }
      if !IsSyncPacket(data[0]) {
        return;
      }
      if |unpPackets| >= MAX_UNPROCESSED_COUNT {
        unpPackets := unpPackets[1..];
      }
      unpPackets := unpPackets + [Saved(call, data, encrypt, false, now)];
    }

    /** One turn of the loop: Send works on the bytes inside the container. */
    method ProcessOne(i: nat, encOk: bool)
      requires i < |unpPackets|
      modifies this`unpPackets, this`sent, client
      ensures Abs() == ReplayOne(old(Abs()), i, encOk)
    {
      var unprocessed := unpPackets[i];
      var data := new ByteVector(unprocessed.data);
      var res := client.Send(data, unprocessed.encrypt, encOk);
      unprocessed := unprocessed.(data := data.data);
      if res == Success {
        unprocessed := unprocessed.(used := true);
        sent := sent + [unprocessed.call];
      }
      unpPackets := unpPackets[i := unprocessed];
    }

    method UnprocessedProcess(encOks: seq<bool>, now: int)
      modifies this`unpPackets, this`sent, this`lastCleanupTime, client
      ensures Abs() == CleanupStore(Replay(old(Abs()), encOks, |old(unpPackets)|), now)
    {
      hide Session.Send, Unexpired;
      var n := |unpPackets|;
      var i := 0;
      while i < n
        invariant i <= n == |unpPackets| == |old(unpPackets)|
        invariant Abs() == Replay(old(Abs()), encOks, i)
      {
        ProcessOne(i, i >= |encOks| || encOks[i]);
        i := i + 1;
      }
      UnprocessedCleanupExpired(now);
    }

    method UnprocessedCleanupExpired(now: int)
      modifies this`unpPackets, this`lastCleanupTime
      ensures Abs() == CleanupStore(old(Abs()), now)
    {
      if now - lastCleanupTime < CLEANUP_INTERVAL {
        return;
      }
      lastCleanupTime := now;
      unpPackets := RemoveIf(unpPackets, Spent(now));
    }

    // ----- MobiClient -----

    method SendPacket(r: Req) returns (ok: bool)
      modifies this`unpPackets, this`sent, this`calls, client
      ensures (Abs(), ok) == Bridge.SendPacket(old(Abs()), r)
    {
      if r.data == [] {
        return false;
      }
      var data := new ByteVector(r.data);
      var res := client.Send(data, r.encrypt, r.encOk);
      var call := calls;
      calls := calls + 1;
      match res {
        case Success =>
          sent := sent + [call];
          return true;
        case NotConnected =>
          UnprocessedAdd(call, data.data, r.encrypt, r.now);
          return false;
        case EmptyPacket => return false;
        case EncryptionFailed => return false;
      }
    }

    method SetBridgeCacheStatus(upToDate: bool)
      modifies this`bridgeCacheReady, this`syncPacketSent, this`synced
      ensures Abs() == Bridge.SetBridgeCacheStatus(old(Abs()), upToDate)
    {
      if bridgeCacheReady == upToDate {
        return;
      }
      bridgeCacheReady := upToDate;
      if !bridgeCacheReady {
        syncPacketSent := false;
      } else {
        synced := 0;
      }
    }

    /** OnDisconnect, for a client operation that has lost the connection. */
    method OnDisconnect(lossesBefore: nat, ghost before: Host)
      requires Abs() == before.(client := client.Abs()) && lossesBefore == before.client.losses
      modifies this`bridgeCacheReady, this`syncPacketSent, this`synced
      ensures Abs() == OfClient(before, client.Abs()) && client.Abs() == old(client.Abs())
    {
      if client.losses > lossesBefore {
        SetBridgeCacheStatus(false);
      }
    }

    method Refresh(reqs: seq<Req>)
      modifies client
      ensures client.Abs() == DirectSends(old(client.Abs()), reqs)
    {
      assert reqs[..0] == [];
      for i := 0 to |reqs|
        invariant client.Abs() == DirectSends(old(client.Abs()), reqs[..i])
      {
        assert reqs[..i + 1][..i] == reqs[..i];
        var data := new ByteVector(reqs[i].data);
        var res := client.Send(data, reqs[i].encrypt, reqs[i].encOk);
      }
      assert reqs[..|reqs|] == reqs;
    }

    method HandleKeyExchange(haveKey: bool, pub: Bytes, keyOk: bool, encOks: seq<bool>, refresh: seq<Req>, now: int)
      returns (ok: bool)
      modifies this, client
      ensures (Abs(), ok) == Bridge.HandleKeyExchange(old(Abs()), haveKey, pub, keyOk, encOks, refresh, now)
    {
      if !haveKey {
        return false;
      }
      var published := SendPacket(Req(pub, false, true, now));
      if !published {
        return false;
      }
      var enabled, begins := client.SessionEnableEncryption(keyOk);
      if !enabled {
        return false;
      }
      if begins { // OnEnabledEnc
        UnprocessedProcess(encOks, now);
        Refresh(refresh);
      }
      return true;
    }

    method SendAll(reqs: seq<Req>)
      modifies this`unpPackets, this`sent, this`calls, client
      ensures Abs() == SendPackets(old(Abs()), reqs)
    {
      assert reqs[..0] == [];
      for i := 0 to |reqs|
        invariant Abs() == SendPackets(old(Abs()), reqs[..i])
      {
        assert reqs[..i + 1][..i] == reqs[..i];
        var ok := SendPacket(reqs[i]);
      }
      assert reqs[..|reqs|] == reqs;
    }

    /** HandlePacket */
    method HandlePacket(w: Handler) returns (ok: bool)
      modifies this, client
      ensures (Abs(), ok) == Handle(old(Abs()), w)
    {
      match w {
        case KeyExchange(haveKey, pub, keyOk, encOks, refresh, now) =>
          ok := HandleKeyExchange(haveKey, pub, keyOk, encOks, refresh, now);
        case CacheStatus(ready) =>
          SetBridgeCacheStatus(ready);
          ok := true;
        case Answers(reqs, result) =>
          SendAll(reqs);
          ok := result;
      }
    }

    /** The end of a read: packet_handle. */
    method PacketRead(k: nat, w: Handler)
      modifies this, client
      ensures Abs() == Bridge.PacketRead(old(Abs()), k, w)
    {
      if client.readers[k] == 0 {
        return;
      }
      client.TakeRead(k);
      if !client.IsConnected() {
        return;
      }
      var ok := HandlePacket(w);
      ghost var handled := Abs();
      var losses := client.losses;
      client.ReadHandled(k, ok);
      OnDisconnect(losses, handled);
    }

    method SendSync(data: Bytes, authority: bool, encOk: bool)
      modifies this`syncPacketSent, this`retryCount, this`synced, client
      ensures Abs() == Bridge.SendSync(old(Abs()), data, authority, encOk)
    {
      if syncPacketSent {
        return;
      }
      if !bridgeCacheReady {
        return;
      }
      if !authority {
        return;
      }
      if data == [] {
        syncPacketSent := true;
        return;
      }
      if retryCount >= MAX_RETRY_COUNT {
        retryCount := 0;
        syncPacketSent := true;
        return;
      }
      var buffer := new ByteVector(data);
      var res := client.Send(buffer, true, encOk);
      if res != Success {
        retryCount := retryCount + 1;
        return;
      }
      retryCount := 0;
      syncPacketSent := true;
      synced := synced + 1;
    }

    /** One handler of the io_context, or one call of the game server, that only concerns the client. */
    method ClientEvent(e: Event)
      modifies client
      ensures client.Abs() == ClientStep(old(client.Abs()), e)
    {
      hide Session.Connect, Session.Disconnect, Session.TickEnd, Session.ReconnectExpires, Session.TimeoutExpires,
        Session.ReconnectFired, Session.TimeoutFired, Session.Resolved, Session.ConnectDone, Session.RunTask,
        Session.WriteDone, Session.ReadFailed, Session.ReadMalformed, Session.ReadUnknown;
      match e {
        case EvConnect => client.Connect();
        case EvDisconnect(needReconnect) => client.Disconnect(needReconnect);
        case EvTickEnd => client.TickEnd();
        case EvReconnectExpires => client.ReconnectExpires();
        case EvTimeoutExpires => client.TimeoutExpires();
        case EvReconnectFired(ok) => client.ReconnectFired(ok);
        case EvTimeoutFired(ok) => client.TimeoutFired(ok);
        case EvResolved(found) => client.Resolved(found);
        case EvConnectDone(c) => client.ConnectDone(c);
        case EvRunTask => client.RunTask();
        case EvWriteDone(err) => client.WriteDone(err);
        case EvReadFailed(k, err, inBody) => client.ReadFailed(k, err, inBody);
        case EvReadMalformed(k) => client.ReadMalformed(k);
        case EvReadUnknown(k) => client.ReadUnknown(k);
        case _ =>
      }
    }

    /** Such a handler, and OnDisconnect if it has lost the connection. */
    method RunHandler(e: Event)
      modifies this`bridgeCacheReady, this`syncPacketSent, this`synced, client
      ensures Abs() == OfClient(old(Abs()), ClientStep(old(client.Abs()), e))
    {
      hide ClientStep, OfClient;
      ghost var before := Abs();
      var losses := client.losses;
      ClientEvent(e);
      OnDisconnect(losses, before);
    }

    method Dispatch(e: Event)
      modifies this, client
      ensures Abs() == Step(old(Abs()), e)
    {
      hide Bridge.SendPacket, Bridge.SendSync, CleanupStore, Bridge.PacketRead, ClientStep, OfClient;
      match e {
        case EvSendPacket(r) =>
          var ok := SendPacket(r);
        case EvSync(data, authority, encOk) => SendSync(data, authority, encOk);
        case EvCleanup(now) => UnprocessedCleanupExpired(now);
        case EvPacket(k, w) => PacketRead(k, w);
        case _ => RunHandler(e);
      }
    }

    /** DoWork: the handlers that are ready run, and the tick never ends disconnected. */
    method DoWork(ready: seq<Event>)
      modifies this, client
      ensures Abs() == Step(Steps(old(Abs()), ready), EvTickEnd)
      ensures client.connectState != Disconnected
    {
      hide Session.TickEnd, OfClient, Bridge.SendPacket, Bridge.SendSync, CleanupStore, Bridge.PacketRead;
      assert ready[..0] == [];
      for i := 0 to |ready|
        invariant Abs() == Steps(old(Abs()), ready[..i])
      {
        assert ready[..i + 1][..i] == ready[..i];
        Dispatch(ready[i]);
      }
      assert ready[..|ready|] == ready;
      ghost var polled := Abs();
      var losses := client.losses;
      client.TickEnd();
      OnDisconnect(losses, polled);
    }
  }
}
