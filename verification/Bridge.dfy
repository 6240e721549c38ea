/**
 * The client together with what MobiClient builds on it (mobigame/mobi/base.cpp, sync.cpp,
 * packet_handlers.cpp, client/client_base.cpp, unprocessed/unprocessed.cpp): packets saved while
 * disconnected and replayed once encryption is on, the key exchange, and the sync packet.
 */
module Bridge {
  import opened Common
  import opened Compaction
  import opened Session

  const HEADER_MS_DATA_UPDATE: Byte := 10
  const HEADER_MS_GUILD_JOIN: Byte := 13
  const HEADER_MS_GUILD_LEAVE: Byte := 14
  const HEADER_MS_GUILD_WAR: Byte := 24

  const MAX_UNPROCESSED_COUNT: nat := 30000
  const CLEANUP_INTERVAL: int := 60
  const DATA_TIMEOUT: int := 180
  const MAX_RETRY_COUNT: nat := 3

  /** TUnprocessedContainer; `call` is the call of SendPacket that saved it. */
  datatype Saved = Saved(call: nat, data: Bytes, encrypt: bool, used: bool, created: int)

  /** One request to send, with the outcome of encrypting it should it come to that. */
  datatype Req = Req(data: Bytes, encrypt: bool, encOk: bool, now: int)

  /**
   * `calls` counts the calls of SendPacket, `sent` lists those whose packet was accepted by Send,
   * directly or by replay; `synced` counts the sync packets sent since the cache became ready.
   */
  datatype Host = Host(
    client: State,
    store: seq<Saved>,
    lastCleanup: int,
    calls: nat,
    sent: seq<nat>,
    cacheReady: bool,
    syncSent: bool,
    retries: nat,
    synced: nat)

  const START := Host(INITIAL, [], 0, 0, [], false, false, 0, 0)

  // ----- Saving and replaying -----

  predicate IsSyncPacket(header: Byte) {
    header == HEADER_MS_DATA_UPDATE || header == HEADER_MS_GUILD_JOIN
    || header == HEADER_MS_GUILD_LEAVE || header == HEADER_MS_GUILD_WAR
  }

  /** unprocessed_add */
  function Save(store: seq<Saved>, call: nat, data: Bytes, encrypt: bool, now: int): seq<Saved> {
    if data == [] || !IsSyncPacket(data[0]) then store
    else
      var kept := if |store| >= MAX_UNPROCESSED_COUNT then store[1..] else store;
      kept + [Saved(call, data, encrypt, false, now)]
  }

  /** SendPacket */
  function SendPacket(h: Host, r: Req): (Host, bool) {
    if r.data == [] then (h, false)
    else
      var o := Send(h.client, r.data, r.encrypt, r.encOk);
      var h1 := h.(client := o.s, calls := h.calls + 1);
      match o.res
      case Success => (h1.(sent := h.sent + [h.calls]), true)
      case NotConnected => (h1.(store := Save(h.store, h.calls, o.data, r.encrypt, r.now)), false)
      case _ => (h1, false)
  }

  /** One turn of the loop of unprocessed_process. */
  function ReplayOne(h: Host, i: nat, encOk: bool): Host
    requires i < |h.store|
  {
    var p := h.store[i];
    var o := Send(h.client, p.data, p.encrypt, encOk);
    var moved := p.(data := o.data, used := p.used || o.res.Success?);
    h.(client := o.s, store := h.store[i := moved], sent := if o.res.Success? then h.sent + [p.call] else h.sent)
  }

  predicate Encrypts(encOks: seq<bool>, i: nat) { i < |encOks| ==> encOks[i] }

  /** The loop of unprocessed_process over the first `n` saved packets. */
  function Replay(h: Host, encOks: seq<bool>, n: nat): (r: Host)
    requires n <= |h.store|
    ensures |r.store| == |h.store|
  {
    if n == 0 then h else ReplayOne(Replay(h, encOks, n - 1), n - 1, Encrypts(encOks, n - 1))
  }

  /** What the clean-up removes: used packets, and those past the timeout. */
  function Spent(now: int): Saved -> bool {
    (p: Saved) => now - p.created > DATA_TIMEOUT || p.used
  }

  function Unexpired(store: seq<Saved>, now: int): seq<Saved> { Kept(store, Spent(now)) }

  /** unprocessed_cleanup_expired */
  function CleanupStore(h: Host, now: int): Host {
    if now - h.lastCleanup < CLEANUP_INTERVAL then h
    else h.(lastCleanup := now, store := Unexpired(h.store, now))
  }

  // ----- The rest of MobiClient -----

  function SetBridgeCacheStatus(h: Host, ready: bool): Host {
    if h.cacheReady == ready then h
    else if ready then h.(cacheReady := true, synced := 0)
    else h.(cacheReady := false, syncSent := false)
  }

  /** `client` after some operation of it; OnDisconnect marks the bridge's cache as not ready. */
  function OfClient(h: Host, client: State): Host {
    var h1 := h.(client := client);
    if client.losses > h.client.losses then SetBridgeCacheStatus(h1, false) else h1
  }

  /** Sends that bypass SendPacket and ignore the outcome, as the settings refresh does. */
  function DirectSends(s: State, reqs: seq<Req>): State {
    if reqs == [] then s
    else
      var r := reqs[|reqs| - 1];
      Send(DirectSends(s, reqs[..|reqs| - 1]), r.data, r.encrypt, r.encOk).s
  }

  /** HandleKeyExchange; OnEnabledEnc, at its end, replays the store and refreshes the settings. */
  function HandleKeyExchange(h: Host, haveKey: bool, pub: Bytes, keyOk: bool, encOks: seq<bool>, refresh: seq<Req>, now: int)
    : (Host, bool)
  {
    if !haveKey then (h, false)
    else
      var (h1, ok) := SendPacket(h, Req(pub, false, true, now));
      if !ok then (h1, false)
      else
        var e := EnableEncryption(h1.client, keyOk);
        var h2 := h1.(client := e.s);
        if !e.ok || !e.begins then (h2, e.ok)
        else
          var h3 := CleanupStore(Replay(h2, encOks, |h2.store|), now);
          (h3.(client := DirectSends(h3.client, refresh)), true)
  }

  function SendPackets(h: Host, reqs: seq<Req>): Host {
    if reqs == [] then h else SendPacket(SendPackets(h, reqs[..|reqs| - 1]), reqs[|reqs| - 1]).0
  }

  /** What OnDataReceived does with a packet. */
  datatype Handler =
    | KeyExchange(haveKey: bool, pub: Bytes, keyOk: bool, encOks: seq<bool>, refresh: seq<Req>, now: int)
    | CacheStatus(ready: bool)
    | Answers(reqs: seq<Req>, ok: bool)

  function Handle(h: Host, w: Handler): (Host, bool) {
    match w
    case KeyExchange(haveKey, pub, keyOk, encOks, refresh, now) => HandleKeyExchange(h, haveKey, pub, keyOk, encOks, refresh, now)
    case CacheStatus(ready) => (SetBridgeCacheStatus(h, ready), true)
    case Answers(reqs, ok) => (SendPackets(h, reqs), ok)
  }

  /** A whole packet has been read on chain `k` and is handled. */
  function PacketRead(h: Host, k: nat, w: Handler): Host {
    if h.client.readers[k] == 0 then h
    else
      var h1 := h.(client := TakeRead(h.client, k));
      if !h1.client.conn.Connected? then h1
      else
        var (h2, ok) := Handle(h1, w);
        OfClient(h2, ReadHandled(h2.client, k, ok))
  }

  /** SendSync; `data` is what GetSyncData yields. */
  function SendSync(h: Host, data: Bytes, authority: bool, encOk: bool): Host {
    if h.syncSent || !h.cacheReady || !authority then h
    else if data == [] then h.(syncSent := true)
    else if h.retries >= MAX_RETRY_COUNT then h.(retries := 0, syncSent := true)
    else
      var o := Send(h.client, data, true, encOk);
      if !o.res.Success? then h.(client := o.s, retries := h.retries + 1)
      else h.(client := o.s, retries := 0, syncSent := true, synced := h.synced + 1)
  }

  // ----- Runs -----

  datatype Event =
    | EvSendPacket(r: Req)
    | EvSync(data: Bytes, authority: bool, encOk: bool)
    | EvCleanup(now: int)
    | EvConnect
    | EvDisconnect(needReconnect: bool)
    | EvTickEnd
    | EvReconnectExpires
    | EvTimeoutExpires
    | EvReconnectFired(ok: bool)
    | EvTimeoutFired(ok: bool)
    | EvResolved(found: Resolution)
    | EvConnectDone(c: Connection)
    | EvRunTask
    | EvWriteDone(e: Option<Err>)
    | EvReadFailed(k: nat, err: Err, inBody: bool)
    | EvReadMalformed(k: nat)
    | EvReadUnknown(k: nat)
    | EvPacket(k: nat, w: Handler)

  function ClientStep(s: State, e: Event): State {
    match e
    case EvConnect => Connect(s)
    case EvDisconnect(needReconnect) => Disconnect(s, needReconnect)
    case EvTickEnd => TickEnd(s)
    case EvReconnectExpires => ReconnectExpires(s)
    case EvTimeoutExpires => TimeoutExpires(s)
    case EvReconnectFired(ok) => ReconnectFired(s, ok)
    case EvTimeoutFired(ok) => TimeoutFired(s, ok)
    case EvResolved(found) => Resolved(s, found)
    case EvConnectDone(c) => ConnectDone(s, c)
    case EvRunTask => RunTask(s)
    case EvWriteDone(err) => WriteDone(s, err)
    case EvReadFailed(k, err, inBody) => ReadFailed(s, k, err, inBody)
    case EvReadMalformed(k) => ReadMalformed(s, k)
    case EvReadUnknown(k) => ReadUnknown(s, k)
    case _ => s
  }

  function Step(h: Host, e: Event): Host {
    match e
    case EvSendPacket(r) => SendPacket(h, r).0
    case EvSync(data, authority, encOk) => SendSync(h, data, authority, encOk)
    case EvCleanup(now) => CleanupStore(h, now)
    case EvPacket(k, w) => PacketRead(h, k, w)
    case _ => OfClient(h, ClientStep(h.client, e))
  }

  function Steps(h: Host, events: seq<Event>): Host {
    if events == [] then h else Step(Steps(h, events[..|events| - 1]), events[|events| - 1])
  }

  /** Any sequence of events is a run: an event that is not possible in a state changes nothing. */
  function Run(events: seq<Event>): Host { Steps(START, events) }
}
