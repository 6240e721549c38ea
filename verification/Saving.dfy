/**
 * What becomes of a packet that SendPacket saves (mobigame/mobi/base.cpp, unprocessed/unprocessed.cpp),
 * from the refusal to the key exchange that delivers it, and what the ordinary calls on the host do.
 */
module Saving {
  import opened Common
  import opened Compaction
  import opened Session
  import opened SessionProofs
  import opened Bridge
  import opened BridgeProofs
  import opened BridgeTheorems
  import opened Recovery

  // ----- The store -----

  /** The event is a call of SendPacket that saves its packet. */
  predicate Saves(h: Host, e: Event) {
    && e.EvSendPacket? && !h.client.conn.Connected? && e.r.data != []
    && e.r.data[0] in {HEADER_MS_DATA_UPDATE, HEADER_MS_GUILD_JOIN, HEADER_MS_GUILD_LEAVE, HEADER_MS_GUILD_WAR}
  }

  function SavedBy(h: Host, r: Req): Saved { Saved(h.calls, r.data, r.encrypt, false, r.now) }

  lemma NotConnectedIff(s: State, data: Bytes, encrypt: bool, encOk: bool)
    ensures var o := Send(s, data, encrypt, encOk);
            && (o.res.NotConnected? <==> Sendable(data) && !s.conn.Connected?)
            && (o.res.NotConnected? ==> o.data == data) && o.s.conn == s.conn
  {
    RefusedUnchanged(s);
  }

  /** A packet is added behind all that were saved before; only at the bound the oldest of them makes room. */
  lemma SavingKeepsTheOthers(h: Host, r: Req)
    ensures var h' := SendPacket(h, r).0;
            if !Saves(h, EvSendPacket(r)) then h'.store == h.store
            else
              && h'.store != [] && h'.store[|h'.store| - 1] == SavedBy(h, r)
              && (|h.store| < MAX_UNPROCESSED_COUNT ==> h.store <= h'.store && |h'.store| == |h.store| + 1)
              && (|h.store| >= MAX_UNPROCESSED_COUNT ==> h.store[1..] <= h'.store && |h'.store| == |h.store|)
  {
    hide Send;
    NotConnectedIff(h.client, r.data, r.encrypt, r.encOk);
  }

  /** When it is due, the clean-up removes exactly the used and the expired packets; when it is not, nothing. */
  lemma CleanupRemoves(h: Host, now: int, p: Saved)
    ensures var h' := CleanupStore(h, now);
            && (p in h'.store <==> p in h.store && (now - h.lastCleanup < CLEANUP_INTERVAL || (!p.used && now - p.created <= DATA_TIMEOUT)))
            && h'.lastCleanup == (if now - h.lastCleanup < CLEANUP_INTERVAL then h.lastCleanup else now)
            && h'.client == h.client && h'.sent == h.sent && h'.calls == h.calls
  {
    UnexpiredMembers(h.store, now);
  }

  /** `p` is in the store, and at most so many are behind it. */
  ghost predicate Holds(store: seq<Saved>, p: Saved, behind: nat) {
    exists i :: HeldAt(store, p, behind, i)
  }

  ghost predicate HeldAt(store: seq<Saved>, p: Saved, behind: nat, i: nat) {
    i < |store| && store[i] == p && |store| - 1 - i <= behind
  }

  lemma KeptHolds(store: seq<Saved>, p: Saved, behind: nat, now: int)
    requires Holds(store, p, behind) && !p.used && now - p.created <= DATA_TIMEOUT
    ensures Holds(Unexpired(store, now), p, behind)
  {
    hide Kept;
    var i: nat :| HeldAt(store, p, behind, i);
    var drop := Spent(now);
    assert store == store[..i] + [p] + store[i + 1..];
    KeptConcat(store[..i] + [p], store[i + 1..], drop);
    KeptConcat(store[..i], [p], drop);
    KeptOne(p, drop);
    KeptMembers(store[i + 1..], drop);
    assert HeldAt(Unexpired(store, now), p, behind, |Kept(store[..i], drop)|);
  }

  lemma SendPacketStore(h: Host, r: Req)
    ensures SendPacket(h, r).0.client.conn == h.client.conn
    ensures h.client.conn.Connected? ==> SendPacket(h, r).0.store == h.store
    ensures forall c :: c in h.sent ==> c in SendPacket(h, r).0.sent
  {
    hide Send, Save;
    NotConnectedIff(h.client, r.data, r.encrypt, r.encOk);
  }

  lemma {:induction false} SendPacketsStore(h: Host, reqs: seq<Req>)
    requires h.client.conn.Connected?
    ensures SendPackets(h, reqs).client.conn.Connected? && SendPackets(h, reqs).store == h.store
    ensures forall c :: c in h.sent ==> c in SendPackets(h, reqs).sent
  {
    hide SendPacket;
    if reqs != [] {
      SendPacketsStore(h, reqs[..|reqs| - 1]);
      SendPacketStore(SendPackets(h, reqs[..|reqs| - 1]), reqs[|reqs| - 1]);
    }
  }

  lemma ReplayOneStore(h: Host, i: nat, encOk: bool)
    requires i < |h.store|
    ensures var r := ReplayOne(h, i, encOk);
            && (forall c :: c in h.sent ==> c in r.sent)
            && |r.store| == |h.store| && (forall k :: 0 <= k < |h.store| && k != i ==> r.store[k] == h.store[k])
            && (!h.store[i].used ==> r.store[i] == h.store[i] || h.store[i].call in r.sent)
  {}

  /** The replay leaves a packet as it was, or it has been sent. */
  lemma {:induction false} ReplayStore(h: Host, encOks: seq<bool>, n: nat, i: nat)
    requires n <= |h.store| && i < |h.store| && !h.store[i].used
    ensures var r := Replay(h, encOks, n);
            && (forall c :: c in h.sent ==> c in r.sent)
            && (r.store[i] == h.store[i] || h.store[i].call in r.sent)
  {
    hide ReplayOne;
    if n > 0 {
      ReplayStore(h, encOks, n - 1, i);
      ReplayOneStore(Replay(h, encOks, n - 1), n - 1, Encrypts(encOks, n - 1));
    }
  }

  lemma {:induction false} ReplaySent(h: Host, encOks: seq<bool>, n: nat)
    requires n <= |h.store|
    ensures forall c :: c in h.sent ==> c in Replay(h, encOks, n).sent
  {
    hide ReplayOne;
    if n > 0 {
      ReplaySent(h, encOks, n - 1);
      ReplayOneStore(Replay(h, encOks, n - 1), n - 1, Encrypts(encOks, n - 1));
    }
  }

  /** The event may remove packets created that long ago. */
  predicate Expires(e: Event, created: int) {
    match e
    case EvCleanup(now) => now - created > DATA_TIMEOUT
    case EvPacket(_, KeyExchange(_, _, _, _, _, now)) => now - created > DATA_TIMEOUT
    case _ => false
  }

  lemma CleanupHolds(h: Host, now: int, p: Saved, behind: nat)
    requires Holds(h.store, p, behind) && !p.used && now - p.created <= DATA_TIMEOUT
    ensures Holds(CleanupStore(h, now).store, p, behind)
  {
    KeptHolds(h.store, p, behind, now);
  }

  lemma ExchangeHolds(h: Host, w: Handler, p: Saved, behind: nat)
    requires h.client.conn.Connected? && w.KeyExchange? && w.now - p.created <= DATA_TIMEOUT
    requires Holds(h.store, p, behind) && !p.used
    ensures Holds(Handle(h, w).0.store, p, behind) || p.call in Handle(h, w).0.sent
  {
    hide Replay, CleanupStore, SendPacket, EnableEncryption, Holds;
    var r := Req(w.pub, false, true, w.now);
    SendPacketStore(h, r);
    var (h1, ok) := SendPacket(h, r);
    if w.haveKey && ok {
      var en := EnableEncryption(h1.client, w.keyOk);
      var h2 := h1.(client := en.s);
      if en.ok && en.begins {
        ReplayHolds(h2, w.encOks, p, behind);
        var r := Replay(h2, w.encOks, |h2.store|);
        CleanupRemoves(r, w.now, p);
        if Holds(r.store, p, behind) {
          CleanupHolds(r, w.now, p, behind);
        }
      }
    }
  }

  lemma ReplayHolds(h: Host, encOks: seq<bool>, p: Saved, behind: nat)
    requires Holds(h.store, p, behind) && !p.used
    ensures var r := Replay(h, encOks, |h.store|); Holds(r.store, p, behind) || p.call in r.sent
  {
    hide Replay;
    var i: nat :| HeldAt(h.store, p, behind, i);
    ReplayStore(h, encOks, |h.store|, i);
    var r := Replay(h, encOks, |h.store|);
    assert r.store[i] == p ==> HeldAt(r.store, p, behind, i);
  }

  lemma HandleHolds(h: Host, w: Handler, p: Saved, behind: nat)
    requires h.client.conn.Connected? && !Expires(EvPacket(0, w), p.created)
    requires Holds(h.store, p, behind) && !p.used
    ensures Holds(Handle(h, w).0.store, p, behind) || p.call in Handle(h, w).0.sent
  {
    hide HandleKeyExchange, SendPackets, Holds;
    match w
    case KeyExchange(_, _, _, _, _, _) => ExchangeHolds(h, w, p, behind);
    case CacheStatus(_) =>
    case Answers(reqs, _) => SendPacketsStore(h, reqs);
  }

  lemma OfClientStore(h: Host, client: State)
    ensures OfClient(h, client).store == h.store && OfClient(h, client).sent == h.sent && OfClient(h, client).calls == h.calls
  {}

  lemma PacketHolds(h: Host, k: nat, w: Handler, p: Saved, behind: nat)
    requires Holds(h.store, p, behind) && !p.used && !Expires(EvPacket(k, w), p.created)
    ensures Holds(PacketRead(h, k, w).store, p, behind) || p.call in PacketRead(h, k, w).sent
  {
    hide Handle, ReadHandled, OfClient, Holds;
    if h.client.readers[k] > 0 {
      var h1 := h.(client := TakeRead(h.client, k));
      if h1.client.conn.Connected? {
        HandleHolds(h1, w, p, behind);
        var (h2, ok) := Handle(h1, w);
        OfClientStore(h2, ReadHandled(h2.client, k, ok));
      }
    }
  }

  lemma SendPacketHolds(h: Host, r: Req, p: Saved, behind: nat)
    requires Holds(h.store, p, behind)
    ensures var b := behind + if Saves(h, EvSendPacket(r)) then 1 else 0;
            Holds(SendPacket(h, r).0.store, p, b) || b >= MAX_UNPROCESSED_COUNT
  {
    hide SendPacket;
    SavingKeepsTheOthers(h, r);
    var i: nat :| HeldAt(h.store, p, behind, i);
    var store := SendPacket(h, r).0.store;
    if !Saves(h, EvSendPacket(r)) {
      assert HeldAt(store, p, behind, i);
    } else if |h.store| < MAX_UNPROCESSED_COUNT {
      assert HeldAt(store, p, behind + 1, i);
    } else if i > 0 {
      assert h.store[1..][i - 1] == p;
      assert HeldAt(store, p, behind + 1, i - 1);
    }
  }

  /** What one event can do to a saved packet. */
  lemma StepHolds(h: Host, e: Event, p: Saved, behind: nat)
    requires Holds(h.store, p, behind) && !p.used && !Expires(e, p.created)
    ensures var b := behind + if Saves(h, e) then 1 else 0;
            Holds(Step(h, e).store, p, b) || p.call in Step(h, e).sent || b >= MAX_UNPROCESSED_COUNT
  {
    hide Holds, SendPacket, SendSync, CleanupStore, PacketRead, ClientStep, OfClient;
    match e
    case EvSendPacket(r) => SendPacketHolds(h, r, p, behind);
    case EvSync(data, authority, encOk) => SyncStore(h, data, authority, encOk);
    case EvCleanup(now) => CleanupHolds(h, now, p, behind);
    case EvPacket(k, w) => PacketHolds(h, k, w, p, behind);
    case _ => OfClientStore(h, ClientStep(h.client, e));
  }

  lemma SyncStore(h: Host, data: Bytes, authority: bool, encOk: bool)
    ensures SendSync(h, data, authority, encOk).store == h.store && SendSync(h, data, authority, encOk).sent == h.sent
  {}

  lemma HandleSent(h: Host, w: Handler)
    requires h.client.conn.Connected?
    ensures forall c :: c in h.sent ==> c in Handle(h, w).0.sent
  {
    hide Replay, CleanupStore, SendPacket, SendPackets, EnableEncryption, DirectSends;
    match w
    case KeyExchange(haveKey, pub, keyOk, encOks, refresh, now) =>
      SendPacketStore(h, Req(pub, false, true, now));
      var h1 := SendPacket(h, Req(pub, false, true, now)).0;
      var h2 := h1.(client := EnableEncryption(h1.client, keyOk).s);
      ReplaySent(h2, encOks, |h2.store|);
      CleanupSent(Replay(h2, encOks, |h2.store|), now);
    case CacheStatus(_) =>
    case Answers(reqs, _) => SendPacketsStore(h, reqs);
  }

  lemma CleanupSent(h: Host, now: int)
    ensures CleanupStore(h, now).sent == h.sent
  {}

  lemma StepSent(h: Host, e: Event, c: nat)
    requires c in h.sent
    ensures c in Step(h, e).sent
  {
    hide SendPacket, SendSync, CleanupStore, Handle, ReadHandled, ClientStep, OfClient;
    match e
    case EvSendPacket(r) => SendPacketStore(h, r);
    case EvSync(data, authority, encOk) => SyncStore(h, data, authority, encOk);
    case EvCleanup(now) => CleanupSent(h, now);
    case EvPacket(k, w) =>
      if h.client.readers[k] > 0 {
        var h1 := h.(client := TakeRead(h.client, k));
        if h1.client.conn.Connected? {
          HandleSent(h1, w);
          var (h2, ok) := Handle(h1, w);
          OfClientStore(h2, ReadHandled(h2.client, k, ok));
        }
      }
    case _ => OfClientStore(h, ClientStep(h.client, e));
  }

  // ----- From the refusal to the delivery -----

  /** How many packets `more` saves, going on from `h`. */
  function SavesIn(h: Host, more: seq<Event>): nat {
    if more == [] then 0
    else
      var before := Steps(h, more[..|more| - 1]);
      SavesIn(h, more[..|more| - 1]) + if Saves(before, more[|more| - 1]) then 1 else 0
  }

  predicate ExpiresIn(more: seq<Event>, created: int) { exists e :: e in more && Expires(e, created) }

  lemma {:induction false} HeldThroughout(h: Host, more: seq<Event>, p: Saved)
    requires Holds(h.store, p, 0) && !p.used && !ExpiresIn(more, p.created) && SavesIn(h, more) < MAX_UNPROCESSED_COUNT
    ensures Holds(Steps(h, more).store, p, SavesIn(h, more)) || p.call in Steps(h, more).sent
  {
    hide Holds, Step, Saves, Expires;
    if more != [] {
      var before, e := more[..|more| - 1], more[|more| - 1];
      assert forall d :: d in before ==> d in more;
      assert e in more;
      HeldThroughout(h, before, p);
      var h1 := Steps(h, before);
      if p.call in h1.sent {
        StepSent(h1, e, p.call);
      } else {
        StepHolds(h1, e, p, SavesIn(h, before));
      }
    }
  }

  lemma {:induction false} RunSteps(events: seq<Event>, more: seq<Event>)
    ensures Run(events + more) == Steps(Run(events), more)
  {
    if more == [] {
      assert events + more == events;
    } else {
      RunSteps(events, more[..|more| - 1]);
      assert (events + more)[..|events + more| - 1] == events + more[..|more| - 1];
    }
  }

  /**
   * A sync packet that SendPacket refuses for want of a connection is still saved, or has been sent,
   * after whatever follows: unless a clean-up ran when it was too old, or as many packets were saved
   * behind it as the store holds.
   */
  lemma RefusedPacketIsKept(events: seq<Event>, r: Req, more: seq<Event>)
    requires var h := Run(events); Saves(h, EvSendPacket(r))
    ensures var h := Run(events);
            var h1 := Run(events + [EvSendPacket(r)]);
            var h2 := Run(events + [EvSendPacket(r)] + more);
            SavedBy(h, r) in h2.store || h.calls in h2.sent
            || ExpiresIn(more, r.now) || SavesIn(h1, more) >= MAX_UNPROCESSED_COUNT
  {
    hide Run, Steps, SendPacket, Step, Saves, SavesIn, ExpiresIn;
    var h, p := Run(events), SavedBy(Run(events), r);
    var h1 := Run(events + [EvSendPacket(r)]);
    RunAppend(events, EvSendPacket(r));
    StepSends(h, r);
    SavingKeepsTheOthers(h, r);
    RunSteps(events + [EvSendPacket(r)], more);
    assert HeldAt(h1.store, p, 0, |h1.store| - 1);
    if !ExpiresIn(more, r.now) && SavesIn(h1, more) < MAX_UNPROCESSED_COUNT {
      HeldThroughout(h1, more, p);
    }
  }

  lemma StepSends(h: Host, r: Req)
    ensures Step(h, EvSendPacket(r)) == SendPacket(h, r).0
  {}

  /** And so the next successful key exchange leaves it accepted, if its encryption succeeds. */
  lemma RefusedPacketIsDelivered(events: seq<Event>, r: Req, more: seq<Event>, k: nat, w: Handler)
    requires Saves(Run(events), EvSendPacket(r))
    requires !ExpiresIn(more, r.now) && SavesIn(Run(events + [EvSendPacket(r)]), more) < MAX_UNPROCESSED_COUNT
    requires var h2 := Run(events + [EvSendPacket(r)] + more);
             KeysExchanged(h2.client, k, w) && forall i :: 0 <= i < |h2.store| ==> Encrypts(w.encOks, i)
    ensures Run(events).calls in Run(events + [EvSendPacket(r)] + more + [EvPacket(k, w)]).sent
  {
    hide Run, Step, Saves, SavesIn, ExpiresIn, KeysExchanged, Encrypts;
    var all := events + [EvSendPacket(r)] + more;
    var h2, p := Run(all), SavedBy(Run(events), r);
    RefusedPacketIsKept(events, r, more);
    if p.call in h2.sent {
      RunAppend(all, EvPacket(k, w));
      StepSent(h2, EvPacket(k, w), p.call);
    } else {
      var i :| 0 <= i < |h2.store| && h2.store[i] == p;
      BacklogIsDelivered(all, k, w, i);
    }
  }

  // ----- The other calls -----

  /** A handled cache packet sets the flag; a new ready period starts unsynced, and its end allows the next sync. */
  lemma CacheStatusSets(h: Host, k: nat, ready: bool)
    requires h.client.readers[k] > 0 && h.client.conn.Connected?
    ensures var h' := PacketRead(h, k, CacheStatus(ready));
            && h'.cacheReady == ready
            && (ready && !h.cacheReady ==> h'.synced == 0)
            && h'.syncSent == (if !ready && h.cacheReady then false else h.syncSent)
            && h'.store == h.store && h'.sent == h.sent && h'.retries == h.retries
  {}

  /** Whenever the connection is lost the cache is not ready, and the next sync packet may go. */
  lemma LossResets(h: Host, e: Event)
    requires HostInv(h) && OfClientOnly(e) && Step(h, e).client.losses > h.client.losses
    ensures !Step(h, e).cacheReady && (h.cacheReady ==> !Step(h, e).syncSent)
  {
    hide ClientStep, HostInv;
  }

  predicate SyncGoes(h: Host, data: Bytes, authority: bool, encOk: bool) {
    && h.cacheReady && !h.syncSent && authority && h.retries < MAX_RETRY_COUNT
    && Sendable(data) && h.client.conn.Connected? && (h.client.encrypted ==> encOk)
  }

  /** The sync packet goes out exactly then; a failure is counted, and the third gives up for this period. */
  lemma SyncIsSentIff(h: Host, data: Bytes, authority: bool, encOk: bool)
    requires HostInv(h)
    ensures var h' := SendSync(h, data, authority, encOk);
            var asked := h.cacheReady && !h.syncSent && authority;
            var goes := SyncGoes(h, data, authority, encOk);
            && AcceptedFrames(h'.client.log) == AcceptedFrames(h.client.log)
               + (if goes then [WireFrame(data, h.client.encrypted)] else [])
            && h'.synced == h.synced + (if goes then 1 else 0)
            && (h'.syncSent <==> h.syncSent || (asked && (goes || data == [] || h.retries == MAX_RETRY_COUNT)))
            && h'.retries == (if !asked || data == [] then h.retries
                              else if goes || h.retries == MAX_RETRY_COUNT then 0 else h.retries + 1)
  {
    hide Send, AcceptedFrames;
    SendAccepts(h.client, data, true, encOk);
    SendSucceeds(h.client, data, true, encOk);
  }

  lemma SendPacketFrames(h: Host, r: Req)
    requires Isolated(h.client) && h.client.conn.Connected?
    ensures var h', goes := SendPacket(h, r).0, Sendable(r.data) && (r.encrypt && h.client.encrypted ==> r.encOk);
            && Isolated(h'.client) && h'.client.conn.Connected? && h'.client.encrypted == h.client.encrypted
            && AcceptedFrames(h'.client.log) == AcceptedFrames(h.client.log)
               + (if goes then [WireFrame(r.data, r.encrypt && h.client.encrypted)] else [])
            && (SendPacket(h, r).1 <==> goes)
            && h'.sent == h.sent + (if goes then [h.calls] else [])
  {
    hide Send, AcceptedFrames;
    SendAccepts(h.client, r.data, r.encrypt, r.encOk);
    SendSucceeds(h.client, r.data, r.encrypt, r.encOk);
  }

  /** The answers to a packet go out in order, each in the clear or encrypted as asked. */
  lemma {:induction false} AnswersAreSent(h: Host, reqs: seq<Req>)
    requires Isolated(h.client) && h.client.conn.Connected?
    ensures var h' := SendPackets(h, reqs);
            && Isolated(h'.client) && h'.client.conn.Connected? && h'.client.encrypted == h.client.encrypted
            && AcceptedFrames(h'.client.log) == AcceptedFrames(h.client.log) + ReqFrames(reqs, h.client.encrypted)
  {
    hide SendPacket, AcceptedFrames;
    if reqs != [] {
      AnswersAreSent(h, reqs[..|reqs| - 1]);
      SendPacketFrames(SendPackets(h, reqs[..|reqs| - 1]), reqs[|reqs| - 1]);
    }
  }

  /** This is what a handled packet that is answered does; the chain goes on behind it. */
  lemma HandledAnswersAreSent(h: Host, k: nat, reqs: seq<Req>, ok: bool)
    requires HostInv(h) && h.client.readers[k] > 0 && h.client.conn.Connected?
    ensures AcceptedFrames(PacketRead(h, k, Answers(reqs, ok)).client.log)
            == AcceptedFrames(h.client.log) + ReqFrames(reqs, h.client.encrypted)
  {
    hide SendPackets, AcceptedFrames, HostInv, OfClient, ReadHandled;
    TakenKeeps(h, k);
    ConnectedIsolated(h);
    var h1 := h.(client := TakeRead(h.client, k));
    AnswersAreSent(h1, reqs);
    var h2 := SendPackets(h1, reqs);
    HandledLog(h2.client, k, ok);
    OfClientClient(h2, ReadHandled(h2.client, k, ok));
  }

  lemma HandledLog(s: State, k: nat, ok: bool)
    requires s.conn.Connected?
    ensures ReadHandled(s, k, ok).log == s.log
  {}

  /** A key exchange that fails, or comes again, replays nothing and leaves encryption as it is. */
  lemma FailedExchange(h: Host, w: Handler)
    requires HostInv(h) && h.client.conn.Connected? && w.KeyExchange?
    requires !w.haveKey || !Sendable(w.pub) || h.client.encrypted || !w.keyOk
    ensures var (h', ok) := Handle(h, w);
            var published := w.haveKey && Sendable(w.pub);
            && (ok <==> published && h.client.encrypted)
            && AcceptedFrames(h'.client.log) == AcceptedFrames(h.client.log) + (if published then [WireFrame(w.pub, false)] else [])
            && h'.store == h.store && h'.client.encrypted == h.client.encrypted && h'.client.conn.Connected?
  {
    hide SendPacket, AcceptedFrames, HostInv;
    ConnectedIsolated(h);
    var r := Req(w.pub, false, true, w.now);
    SendPacketFrames(h, r);
    SendPacketStore(h, r);
  }

  /** A successful one, where a clean-up is due, leaves nothing used and nothing expired in the store. */
  lemma ExchangeCleansUp(h: Host, w: Handler, p: Saved)
    requires HostInv(h) && h.client.conn.Connected? && !h.client.encrypted
    requires w.KeyExchange? && w.haveKey && w.keyOk && Sendable(w.pub) && w.now - h.lastCleanup >= CLEANUP_INTERVAL
    ensures var h' := Handle(h, w).0;
            && h'.lastCleanup == w.now
            && (p in h'.store ==> !p.used && w.now - p.created <= DATA_TIMEOUT)
  {
    hide Send, Replay, DirectSends, HostInv;
    SendSucceeds(h.client, w.pub, false, true);
    SendFrame(h.client, w.pub, false, true);
    var h2 := AfterKeyExchange(h, w.pub, w.now);
    var r := Replay(h2, w.encOks, |h2.store|);
    ReplayClock(h2, w.encOks, |h2.store|);
    CleanupRemoves(r, w.now, p);
  }

  lemma {:induction false} ReplayClock(h: Host, encOks: seq<bool>, n: nat)
    requires n <= |h.store|
    ensures Replay(h, encOks, n).lastCleanup == h.lastCleanup
  {
    if n > 0 {
      ReplayClock(h, encOks, n - 1);
    }
  }

  /** Behind a handled packet the chain goes on exactly if its handler has left PostTask room, even if it failed. */
  lemma PacketKeepsReading(h: Host, k: nat, w: Handler)
    requires HostInv(h) && h.client.readers[k] > 0 && h.client.conn.Connected?
    ensures var handled := Handle(h.(client := TakeRead(h.client, k)), w).0.client;
            k in Chains(PacketRead(h, k, w).client) <==> |handled.tasks| < MAX_PENDING_TASKS
  {
    hide Handle, HostInv, Chains, OfClient, ReadHandled, Inv;
    TakenKeeps(h, k);
    var h1 := h.(client := TakeRead(h.client, k));
    HandleKeeps(h1, w);
    var (h2, ok) := Handle(h1, w);
    ClientInv(h2);
    HandledChainGoesOnIff(h2.client, k, ok);
    OfClientClient(h2, ReadHandled(h2.client, k, ok));
  }

  lemma ClientInv(h: Host)
    requires HostInv(h)
    ensures Inv(h.client)
  {}

  lemma ConnectedIsolated(h: Host)
    requires HostInv(h)
    ensures Isolated(h.client)
  {}
}
