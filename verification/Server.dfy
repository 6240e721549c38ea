/**
 * Bridge client and messenger together (mobigame/client/client_base.cpp, packet_handlers.cpp): login
 * and logout packets of the bridge drive the mobile set, and losing the connection empties it.
 */
module Server {
  import opened Common
  import B = Bridge
  import BP = BridgeProofs
  import P = Presence

  /** What one core of the game server holds. */
  datatype Core = Core(host: B.Host, messenger: P.State)

  const INITIAL := Core(B.START, P.INITIAL)

  datatype Event =
    | Client(e: B.Event, order: seq<P.Account>)  // `order`: how the mobile set is visited, should the connection be lost
    | MobileLoginPacket(k: nat, account: P.Account)
    | MobileLogoutPacket(k: nat, account: P.Account)
    | Local(p: P.Event)

  /** OnDisconnect has been called on the way from `h` to `h'`. */
  predicate Lost(h: B.Host, h': B.Host) { h'.client.losses > h.client.losses }

  /** A packet read on chain `k` gets as far as its handler. */
  predicate IsHandled(h: B.Host, k: nat) { h.client.readers[k] > 0 && h.client.conn.Connected? }

  /** HandleMobileLogin and HandleMobileLogout send nothing and succeed. */
  const QUIET := B.Answers([], true)

  ghost predicate Possible(s: Core, e: Event) {
    match e
    case Client(e, order) => Lost(s.host, B.Step(s.host, e)) ==> P.Enumerates(order, s.messenger.mobile)
    case Local(p) => !p.EvMobileLogin? && !p.EvMobileLogout? && !p.EvConnectionLost?
    case _ => true
  }

  ghost function Step(s: Core, e: Event): Core
    requires Possible(s, e)
  {
    match e
    case Client(e, order) =>
      var h := B.Step(s.host, e);
      Core(h, if Lost(s.host, h) then P.ConnectionLost(s.messenger, order) else s.messenger)
    case MobileLoginPacket(k, a) =>
      Core(B.PacketRead(s.host, k, QUIET), if IsHandled(s.host, k) then P.MobileLogin(s.messenger, a) else s.messenger)
    case MobileLogoutPacket(k, a) =>
      Core(B.PacketRead(s.host, k, QUIET), if IsHandled(s.host, k) then P.MobileLogout(s.messenger, a) else s.messenger)
    case Local(p) => Core(s.host, P.Step(s.messenger, p))
  }

  ghost predicate IsRun(trace: seq<Core>, events: seq<Event>) {
    && |trace| == |events| + 1
    && trace[0] == INITIAL
    && forall i :: 0 <= i < |events| ==> Possible(trace[i], events[i]) && trace[i + 1] == Step(trace[i], events[i])
  }

  ghost predicate Inv(s: Core) {
    && BP.HostInv(s.host)
    && P.Inv(s.messenger)
    && (!s.host.client.conn.Connected? ==> s.messenger.mobile == {})
  }

  lemma LosingKeeps(m: P.State, order: seq<P.Account>)
    requires P.Inv(m) && P.Enumerates(order, m.mobile)
    ensures P.Inv(P.ConnectionLost(m, order)) && P.ConnectionLost(m, order).mobile == {}
  {
    P.ConnectionLostIsLogoutOfAll(m, order);
    P.LogoutEachKeeps(m, order);
  }

  lemma ClientKeeps(s: Core, e: Event)
    requires Inv(s) && e.Client? && Possible(s, e)
    ensures Inv(Step(s, e))
  {
    var h := B.Step(s.host, e.e);
    BP.StepKeeps(s.host, e.e);
    BP.StepAdvances(s.host, e.e);
    if Lost(s.host, h) {
      LosingKeeps(s.messenger, e.order);
      assert Step(s, e) == Core(h, P.ConnectionLost(s.messenger, e.order));
    } else {
      assert Step(s, e) == Core(h, s.messenger);
      assert h.client.losses == s.host.client.losses;
      assert s.host.client.conn.Connected? ==> h.client.conn.Connected?;
    }
  }

  /** A quiet packet that is handled leaves the connection up. */
  lemma QuietPacket(h: B.Host, k: nat)
    requires BP.HostInv(h)
    ensures BP.HostInv(B.PacketRead(h, k, QUIET))
    ensures B.PacketRead(h, k, QUIET).client.conn == h.client.conn
    ensures !Lost(h, B.PacketRead(h, k, QUIET))
  {
    BP.PacketReadKeeps(h, k, QUIET);
  }

  lemma PresencePacketKeeps(s: Core, e: Event)
    requires Inv(s) && (e.MobileLoginPacket? || e.MobileLogoutPacket?)
    ensures Inv(Step(s, e))
  {
    QuietPacket(s.host, e.k);
    P.MobileLoginKeeps(s.messenger, e.account);
    P.MobileLogoutKeeps(s.messenger, e.account);
  }

  lemma LocalKeeps(s: Core, e: Event)
    requires Inv(s) && e.Local? && Possible(s, e)
    ensures Inv(Step(s, e)) && Step(s, e).messenger.mobile == s.messenger.mobile
  {
    P.StepKeeps(s.messenger, e.p);
  }

  lemma StepKeeps(s: Core, e: Event)
    requires Inv(s) && Possible(s, e)
    ensures Inv(Step(s, e))
  {
    match e
    case Client(_, _) => ClientKeeps(s, e);
    case MobileLoginPacket(_, _) => PresencePacketKeeps(s, e);
    case MobileLogoutPacket(_, _) => PresencePacketKeeps(s, e);
    case Local(_) => LocalKeeps(s, e);
  }

  lemma {:induction false} RunsKeepInv(trace: seq<Core>, events: seq<Event>, n: nat)
    requires IsRun(trace, events) && n <= |events|
    ensures Inv(trace[n])
  {
    if n == 0 {
      BP.RunKeeps([]);
    } else {
      RunsKeepInv(trace, events, n - 1);
      StepKeeps(trace[n - 1], events[n - 1]);
    }
  }

  /** In every state of every run, accounts are counted as mobile only while the bridge is connected. */
  lemma MobileOnlyWhileConnected(trace: seq<Core>, events: seq<Event>, n: nat, a: P.Account)
    requires IsRun(trace, events) && n <= |events| && a in trace[n].messenger.mobile
    ensures trace[n].host.client.conn.Connected?
  {
    RunsKeepInv(trace, events, n);
  }

  /**
   * While the bridge is not connected, nobody is shown as mobile: whoever an up-to-date client lists,
   * or has been told about, is shown as in game or offline, and as the right one of the two.
   */
  lemma NobodyShownMobileWithoutBridge(trace: seq<Core>, events: seq<Event>, n: nat, a: P.Account, f: P.Account)
    requires IsRun(trace, events) && n <= |events| && !trace[n].host.client.conn.Connected?
    requires var m := trace[n].messenger; P.Watches(m, a, f) && f != "" && f !in m.loading
    ensures var m := trace[n].messenger; P.Told(m, a, f) == if f in m.game then P.IN_GAME else P.OFFLINE
  {
    RunsKeepInv(trace, events, n);
  }

  /**
   * The step that loses the connection tells every synced client that is to be told of an account
   * that was only on mobile, and so goes offline.
   */
  lemma LosingTheBridgeIsTold(s: Core, e: Event, a: P.Account, f: P.Account)
    requires Inv(s) && e.Client? && Possible(s, e)
    requires s.host.client.conn.Connected? && !Step(s, e).host.client.conn.Connected?
    requires f in s.messenger.mobile && f !in s.messenger.game
    requires a in s.messenger.synced && a in P.At(s.messenger.inverse, f)
    ensures P.Told(Step(s, e).messenger, a, f) == P.OFFLINE
  {
    hide B.Step, BP.HostInv, P.ConnectionLost, P.Told, P.Inv, P.Enumerates;
    BP.StepAdvances(s.host, e.e);
    LosingIsTold(s.messenger, e.order, a, f);
  }

  lemma LosingIsTold(m: P.State, order: seq<P.Account>, a: P.Account, f: P.Account)
    requires P.Inv(m) && P.Enumerates(order, m.mobile)
    requires f in m.mobile && f !in m.game && a in m.synced && a in P.At(m.inverse, f)
    ensures P.Told(P.ConnectionLost(m, order), a, f) == P.OFFLINE
  {
    P.ConnectionLostIsLogoutOfAll(m, order);
    P.LogoutOfAllTells(m, order, a, f);
  }

  // ----- The joint runs are runs of each part -----

  /** The messenger's part of a joint run is a run of the messenger. */
  lemma {:induction false} MessengerRuns(trace: seq<Core>, events: seq<Event>, n: nat) returns (states: seq<P.State>, own: seq<P.Event>)
    requires IsRun(trace, events) && n <= |events|
    ensures P.IsRun(states, own) && states[|own|] == trace[n].messenger
  {
    hide P.Step, P.Possible, Step;
    if n == 0 {
      states, own := [P.INITIAL], [];
    } else {
      var before, so := MessengerRuns(trace, events, n - 1);
      var e := MessengerEvent(trace[n - 1], events[n - 1]);
      MessengerStep(trace[n - 1], events[n - 1]);
      states, own := before, so;
      if e.Some? {
        states, own := before + [trace[n].messenger], so + [e.value];
      }
    }
  }

  /** What the joint event is to the messenger. */
  ghost function MessengerEvent(s: Core, e: Event): Option<P.Event> {
    match e
    case Client(e, order) => if Lost(s.host, B.Step(s.host, e)) then Some(P.EvConnectionLost(order)) else None
    case MobileLoginPacket(k, a) => if IsHandled(s.host, k) then Some(P.EvMobileLogin(a)) else None
    case MobileLogoutPacket(k, a) => if IsHandled(s.host, k) then Some(P.EvMobileLogout(a)) else None
    case Local(p) => Some(p)
  }

  lemma MessengerStep(s: Core, e: Event)
    requires Possible(s, e)
    ensures var m := MessengerEvent(s, e);
            if m.None? then Step(s, e).messenger == s.messenger
            else P.Possible(s.messenger, m.value) && Step(s, e).messenger == P.Step(s.messenger, m.value)
  {
    hide B.Step, B.PacketRead, P.ConnectionLost, P.MobileLogin, P.MobileLogout;
  }

  /** And the client's part is a run of the client. */
  lemma {:induction false} HostRuns(trace: seq<Core>, events: seq<Event>, n: nat) returns (own: seq<B.Event>)
    requires IsRun(trace, events) && n <= |events|
    ensures B.Run(own) == trace[n].host
  {
    hide B.Step, B.PacketRead;
    if n == 0 {
      own := [];
    } else {
      own := HostRuns(trace, events, n - 1);
      match events[n - 1]
      case Client(e, _) =>
        BP.RunAppend(own, e);
        own := own + [e];
      case MobileLoginPacket(k, _) =>
        BP.RunAppend(own, B.EvPacket(k, QUIET));
        PacketStep(trace[n - 1].host, k);
        own := own + [B.EvPacket(k, QUIET)];
      case MobileLogoutPacket(k, _) =>
        BP.RunAppend(own, B.EvPacket(k, QUIET));
        PacketStep(trace[n - 1].host, k);
        own := own + [B.EvPacket(k, QUIET)];
      case Local(_) =>
    }
  }

  lemma PacketStep(h: B.Host, k: nat)
    ensures B.Step(h, B.EvPacket(k, QUIET)) == B.PacketRead(h, k, QUIET)
  {}

  // ----- Who is on mobile -----

  /**
   * Among the presence packets handled so far, the last one about `a` was a login, and the connection
   * has not been lost since.
   */
  ghost predicate ReportedMobile(trace: seq<Core>, events: seq<Event>, n: nat, a: P.Account)
    requires n <= |events| < |trace|
  {
    n > 0
    && var before, h := ReportedMobile(trace, events, n - 1, a), trace[n - 1].host;
       match events[n - 1]
       case Client(_, _) => before && !Lost(h, trace[n].host)
       case MobileLoginPacket(k, b) => before || (b == a && h.client.readers[k] > 0 && h.client.conn.Connected?)
       case MobileLogoutPacket(k, b) => before && !(b == a && h.client.readers[k] > 0 && h.client.conn.Connected?)
       case Local(_) => before
  }

  /** In every joint run the mobile set is what the bridge's packets say, for as long as the connection is up. */
  lemma {:induction false} MobileIsWhatWasReported(trace: seq<Core>, events: seq<Event>, n: nat, a: P.Account)
    requires IsRun(trace, events) && n <= |events|
    ensures a in trace[n].messenger.mobile <==> ReportedMobile(trace, events, n, a)
  {
    hide B.Step, B.PacketRead, P.Step;
    if n > 0 {
      MobileIsWhatWasReported(trace, events, n - 1, a);
      RunsKeepInv(trace, events, n - 1);
      MobileStep(trace[n - 1], events[n - 1], a);
    }
  }

  lemma MobileStep(s: Core, e: Event, a: P.Account)
    requires Inv(s) && Possible(s, e)
    ensures a in Step(s, e).messenger.mobile
            <==> match e
                 case Client(_, _) => a in s.messenger.mobile && !Lost(s.host, Step(s, e).host)
                 case MobileLoginPacket(k, b) => a in s.messenger.mobile || (b == a && s.host.client.readers[k] > 0 && s.host.client.conn.Connected?)
                 case MobileLogoutPacket(k, b) => a in s.messenger.mobile && !(b == a && s.host.client.readers[k] > 0 && s.host.client.conn.Connected?)
                 case Local(_) => a in s.messenger.mobile
  {
    hide B.Step, B.PacketRead;
    if e.Local? {
      LocalKeeps(s, e);
    }
  }
}
