/**
 * What the presence part of the messenger manager (messenger_manager.cpp / .h) computes: two
 * presence sets, the friend relation, its inverse, and the status packets pushed to friends;
 * and the proof that clients are never left with an outdated status.
 */
module Presence {
  type Account = string
  type FriendMap = map<Account, set<Account>>

  // EUserStatus
  const OFFLINE: nat := 1
  const IN_GAME: nat := 2
  const IN_MOBILE: nat := 4

  /**
   * What goes out to clients: one status update about `about` to everybody in `to` (nobody, when
   * no friend can receive it), or a whole friend list.
   */
  datatype Packet =
    | Update(to: set<Account>, about: Account, status: nat)
    | List(receiver: Account, statuses: map<Account, nat>)

  /**
   * `present` are the accounts with a live character and descriptor on this core, `loading` the
   * list queries still under way. `synced` are the accounts in game and present ever since their
   * list was sent, and `since` the number of packets sent before that.
   */
  datatype State = State(
    game: set<Account>,
    mobile: set<Account>,
    relation: FriendMap,
    inverse: FriendMap,
    present: set<Account>,
    loading: multiset<Account>,
    synced: set<Account>,
    since: map<Account, nat>,
    sent: seq<Packet>)

  const INITIAL := State({}, {}, map[], map[], {}, multiset{}, {}, map[], [])

  // ----- What each operation does -----

  function Status(game: set<Account>, mobile: set<Account>, a: Account): nat {
    if a in game && a in mobile then IN_GAME + IN_MOBILE
    else if a in game then IN_GAME
    else if a in mobile then IN_MOBILE
    else OFFLINE
  }

  function StatusOf(s: State, a: Account): nat { Status(s.game, s.mobile, a) }

  function At(m: FriendMap, a: Account): set<Account> { if a in m then m[a] else {} }

  /** NotifyStatusChange: everybody who lists `a`, is in game and has a client. */
  function Notify(s: State, a: Account, status: nat): State {
    s.(sent := s.sent + [Update(At(s.inverse, a) * s.game * s.present, a, status)])
  }

  function WithoutFriend(m: FriendMap, a: Account): FriendMap {
    map k | k in m && k != a :: m[k] - {a}
  }

  /** The clean-up of an account that is neither in game nor on mobile. */
  function ForgetIfOffline(s: State, a: Account, status: nat): State {
    if status == OFFLINE then s.(relation := WithoutFriend(s.relation, a)) else s
  }

  function MobileLogin(s: State, a: Account): State {
    if a in s.mobile then s
    else
      var s1 := s.(mobile := s.mobile + {a});
      Notify(s1, a, StatusOf(s1, a))
  }

  function MobileLogout(s: State, a: Account): State {
    if a !in s.mobile then s
    else
      var s1 := s.(mobile := s.mobile - {a});
      var status := StatusOf(s1, a);
      ForgetIfOffline(Notify(s1, a, status), a, status)
  }

  /** Login: `escapes` says that SQL escaping leaves the name as it is. */
  function Login(s: State, a: Account, escapes: bool): State {
    if !escapes || a in s.game then s
    else s.(game := s.game + {a}, loading := s.loading + multiset{a})
  }

  function Logout(s: State, a: Account): State {
    if a !in s.game then s
    else
      var s1 := s.(game := s.game - {a}, synced := s.synced - {a});
      var status := StatusOf(s1, a);
      ForgetIfOffline(Notify(s1, a, status), a, status)
  }

  function Link(m: FriendMap, a: Account, f: Account): FriendMap { m[a := At(m, a) + {f}] }

  function LinkRows(m: FriendMap, a: Account, rows: set<Account>): FriendMap {
    if rows == {} then m else m[a := At(m, a) + rows]
  }

  function LinkAll(m: FriendMap, rows: set<Account>, a: Account): FriendMap {
    map k | k in m.Keys + rows :: if k in rows then At(m, k) + {a} else m[k]
  }

  function Statuses(game: set<Account>, mobile: set<Account>, friends: set<Account>): map<Account, nat> {
    map f | f in friends :: Status(game, mobile, f)
  }

  /** `a` is in game and about to be sent its list. */
  function Sync(s: State, a: Account): State {
    if a in s.synced then s else s.(synced := s.synced + {a}, since := s.since[a := |s.sent|])
  }

  function SendList(s: State, a: Account): State {
    if a !in s.present then s
    else
      var s1 := if a in s.game then Sync(s, a) else s;
      if At(s.relation, a) == {} then s1
      else s1.(sent := s.sent + [List(a, Statuses(s.game, s.mobile, At(s.relation, a)))])
  }

  /** LoadList: the query of an earlier Login of `a` returns the friends `rows`. */
  function LoadList(s: State, a: Account, rows: set<Account>): State {
    if a !in s.loading then s
    else
      var s1 := s.(loading := s.loading - multiset{a},
                   relation := LinkRows(s.relation, a, rows),
                   inverse := LinkAll(s.inverse, rows, a));
      var s2 := SendList(s1, a);
      Notify(s2, a, StatusOf(s2, a))
  }

  /** __AddToList */
  function AddToList(s: State, a: Account, f: Account): State {
    var s1 := s.(relation := Link(s.relation, a, f), inverse := Link(s.inverse, f, a));
    if f == "" then s1 else s1.(sent := s1.sent + [Update({a} * s1.present, f, StatusOf(s1, f))])
  }

  function Unlink(m: FriendMap, a: Account, f: Account): FriendMap {
    if a in m then m[a := m[a] - {f}] else m
  }

  /** __RemoveFromList */
  function RemoveFromList(s: State, a: Account, f: Account): State {
    s.(relation := Unlink(s.relation, a, f), inverse := Unlink(s.inverse, f, a))
  }

  function LostOne(s: State, a: Account): State {
    var status := if a in s.game then IN_GAME else OFFLINE;
    ForgetIfOffline(Notify(s, a, status), a, status)
  }

  function LostEach(s: State, order: seq<Account>): State {
    if order == [] then s
    else LostOne(LostEach(s, order[..|order| - 1]), order[|order| - 1])
  }

  /** HandleConnectionLost, visiting the mobile accounts in the order of the set. */
  function ConnectionLost(s: State, order: seq<Account>): State {
    LostEach(s, order).(mobile := {})
  }

  function Enter(s: State, a: Account): State { s.(present := s.present + {a}) }

  function Leave(s: State, a: Account): State { s.(present := s.present - {a}, synced := s.synced - {a}) }

  // ----- Runs -----

  ghost predicate Enumerates(order: seq<Account>, all: set<Account>) {
    && (forall a :: a in order <==> a in all)
    && (forall i, k :: 0 <= i < k < |order| ==> order[i] != order[k])
  }

  datatype Event =
    | EvMobileLogin(a: Account)
    | EvMobileLogout(a: Account)
    | EvLogin(a: Account, escapes: bool)
    | EvLogout(a: Account)
    | EvLoadList(a: Account, rows: set<Account>)
    | EvAdd(a: Account, f: Account)
    | EvRemove(a: Account, f: Account)
    | EvConnectionLost(order: seq<Account>)
    | EvEnter(a: Account)
    | EvLeave(a: Account)

  /** Only an enumeration of the mobile set is a possible order of visits. */
  ghost predicate Possible(s: State, e: Event) {
    e.EvConnectionLost? ==> Enumerates(e.order, s.mobile)
  }

  ghost function Step(s: State, e: Event): State
    requires Possible(s, e)
  {
    match e
    case EvMobileLogin(a) => MobileLogin(s, a)
    case EvMobileLogout(a) => MobileLogout(s, a)
    case EvLogin(a, escapes) => Login(s, a, escapes)
    case EvLogout(a) => Logout(s, a)
    case EvLoadList(a, rows) => LoadList(s, a, rows)
    case EvAdd(a, f) => AddToList(s, a, f)
    case EvRemove(a, f) => RemoveFromList(s, a, f)
    case EvConnectionLost(order) => ConnectionLost(s, order)
    case EvEnter(a) => Enter(s, a)
    case EvLeave(a) => Leave(s, a)
  }

  /** `trace` is a run: it starts in the initial state and every state follows by one event. */
  ghost predicate IsRun(trace: seq<State>, events: seq<Event>) {
    && |trace| == |events| + 1
    && trace[0] == INITIAL
    && forall i :: 0 <= i < |events| ==> Possible(trace[i], events[i]) && trace[i + 1] == Step(trace[i], events[i])
  }

  // ----- Coherence of what clients were told -----

  /** The last status `a` was told about `f` by `sent`; 0 if its last list does not name `f`. */
  function LastTold(sent: seq<Packet>, a: Account, f: Account): (r: nat)
  {
    if sent == [] then 0
    else
      match sent[|sent| - 1]
      case Update(to, about, status) =>
        if a in to && about == f then status else LastTold(sent[..|sent| - 1], a, f)
      case List(receiver, statuses) =>
        if receiver == a then (if f in statuses then statuses[f] else 0) else LastTold(sent[..|sent| - 1], a, f)
  }

  /** What the client of a synced `a` shows for `f`; 0 if it has not been told about `f` since it became synced. */
  function Told(s: State, a: Account, f: Account): nat {
    if a in s.since && s.since[a] <= |s.sent| then LastTold(s.sent[s.since[a]..], a, f) else 0
  }

  /** Whoever lists a friend is found when that friend's status changes. */
  ghost predicate InverseCovers(s: State) {
    forall a, f :: f in At(s.relation, a) ==> a in At(s.inverse, f)
  }

  /** `a` watches `f`: it lists `f` or, as after `f` went offline, still shows what it was told. */
  predicate Watches(s: State, a: Account, f: Account) {
    a in s.synced && a in At(s.inverse, f) && (f in At(s.relation, a) || Told(s, a, f) != 0)
  }

  /** Every synced client shows, for everybody it watches, what the server would compute. */
  ghost predicate Coherent(s: State) {
    forall a, f :: Watches(s, a, f) && f != "" && f !in s.loading ==> Told(s, a, f) == StatusOf(s, f)
  }

  ghost predicate SyncedOk(s: State) {
    s.synced <= s.game * s.present && forall a :: a in s.synced ==> a in s.since && s.since[a] <= |s.sent|
  }

  ghost predicate Inv(s: State) { SyncedOk(s) && InverseCovers(s) && Coherent(s) }

  lemma ToldAfterOne(sent: seq<Packet>, p: Packet, a: Account, f: Account)
    ensures p.Update? ==>
              LastTold(sent + [p], a, f) == if a in p.to && p.about == f then p.status else LastTold(sent, a, f)
    ensures p.List? ==>
              LastTold(sent + [p], a, f) ==
              if p.receiver == a then (if f in p.statuses then p.statuses[f] else 0) else LastTold(sent, a, f)
  {
    assert (sent + [p])[..|sent|] == sent;
  }

  /** What one more packet changes for a client. */
  lemma ToldAfterPacket(s: State, s': State, p: Packet, a: Account, f: Account)
    requires a in s.since && s.since[a] <= |s.sent|
    requires s'.since == s.since && s'.sent == s.sent + [p]
    ensures p.Update? ==> Told(s', a, f) == if a in p.to && p.about == f then p.status else Told(s, a, f)
    ensures p.List? ==>
              Told(s', a, f) == if p.receiver == a then (if f in p.statuses then p.statuses[f] else 0) else Told(s, a, f)
  {
    var n := s.since[a];
    assert s'.sent[n..] == s.sent[n..] + [p];
    ToldAfterOne(s.sent[n..], p, a, f);
  }

  /**
   * The heart of coherence: a change of `g`'s presence followed by its notification keeps every
   * other friend's status and tells everybody who watches `g` the new one.
   */
  lemma NotifyRestores(s: State, changed: State, g: Account)
    requires SyncedOk(s) && Coherent(s)
    requires changed.sent == s.sent && changed.since == s.since && changed.inverse == s.inverse
    requires changed.synced <= s.synced && changed.synced <= changed.game * changed.present
    requires forall a :: At(changed.relation, a) <= At(s.relation, a)
    requires forall f :: f != g ==> StatusOf(changed, f) == StatusOf(s, f) && (f in s.loading ==> f in changed.loading)
    ensures SyncedOk(Notify(changed, g, StatusOf(changed, g))) && Coherent(Notify(changed, g, StatusOf(changed, g)))
  {
    var s' := Notify(changed, g, StatusOf(changed, g));
    var p := s'.sent[|s'.sent| - 1];
    forall a, f | Watches(s', a, f) && f != "" && f !in s'.loading
      ensures Told(s', a, f) == StatusOf(s', f)
    {
      ToldAfterPacket(s, s', p, a, f);
    }
  }

  lemma ForgetKeeps(s: State, g: Account, status: nat)
    requires Inv(s)
    ensures Inv(ForgetIfOffline(s, g, status))
  {
    var s' := ForgetIfOffline(s, g, status);
    assert forall a :: At(s'.relation, a) <= At(s.relation, a);
    assert forall a, f :: Told(s', a, f) == Told(s, a, f);
  }

  lemma PresenceChangeKeeps(s: State, s1: State, g: Account)
    requires Inv(s)
    requires s1.relation == s.relation && s1.inverse == s.inverse && s1.sent == s.sent && s1.since == s.since
    requires s1.present == s.present && s1.loading == s.loading
    requires s1.synced <= s.synced && s1.synced <= s1.game
    requires forall f :: f != g ==> StatusOf(s1, f) == StatusOf(s, f)
    ensures Inv(Notify(s1, g, StatusOf(s1, g)))
    ensures Inv(ForgetIfOffline(Notify(s1, g, StatusOf(s1, g)), g, StatusOf(s1, g)))
  {
    NotifyRestores(s, s1, g);
    ForgetKeeps(Notify(s1, g, StatusOf(s1, g)), g, StatusOf(s1, g));
  }

  lemma MobileLoginKeeps(s: State, a: Account)
    requires Inv(s)
    ensures Inv(MobileLogin(s, a))
  {
    if a !in s.mobile {
      PresenceChangeKeeps(s, s.(mobile := s.mobile + {a}), a);
    }
  }

  lemma MobileLogoutKeeps(s: State, a: Account)
    requires Inv(s)
    ensures Inv(MobileLogout(s, a))
  {
    if a in s.mobile {
      PresenceChangeKeeps(s, s.(mobile := s.mobile - {a}), a);
    }
  }

  lemma LogoutKeeps(s: State, a: Account)
    requires Inv(s)
    ensures Inv(Logout(s, a))
  {
    if a in s.game {
      PresenceChangeKeeps(s, s.(game := s.game - {a}, synced := s.synced - {a}), a);
    }
  }

  lemma LoginKeeps(s: State, a: Account, escapes: bool)
    requires Inv(s)
    ensures Inv(Login(s, a, escapes))
  {
    var s' := Login(s, a, escapes);
    assert forall b, f :: Told(s', b, f) == Told(s, b, f);
  }

  /** Coherent, except perhaps for `a`, if it has a list to be sent. */
  ghost predicate CoherentBut(s: State, a: Account) {
    forall b, f :: Watches(s, b, f) && f != "" && f !in s.loading && (b == a ==> At(s.relation, a) == {}) ==>
      Told(s, b, f) == StatusOf(s, f)
  }

  lemma SyncKeeps(s: State, a: Account)
    requires SyncedOk(s) && CoherentBut(s, a) && a in s.game * s.present
    ensures SyncedOk(Sync(s, a)) && CoherentBut(Sync(s, a), a)
  {
    var s' := Sync(s, a);
    if a !in s.synced {
      assert s'.sent[s'.since[a]..] == [];
      assert forall f :: Told(s', a, f) == 0;
      assert forall b, f :: b != a ==> Told(s', b, f) == Told(s, b, f);
    }
  }

  /** The list settles what its receiver shows. */
  lemma ListSettles(s: State, a: Account)
    requires SyncedOk(s) && CoherentBut(s, a)
    ensures var s' := s.(sent := s.sent + [List(a, Statuses(s.game, s.mobile, At(s.relation, a)))]);
            SyncedOk(s') && Coherent(s')
  {
    var p := List(a, Statuses(s.game, s.mobile, At(s.relation, a)));
    var s' := s.(sent := s.sent + [p]);
    forall b, f | Watches(s', b, f) && f != "" && f !in s'.loading
      ensures Told(s', b, f) == StatusOf(s', f)
    {
      ToldAfterPacket(s, s', p, b, f);
    }
  }

  /** A client that has just been sent its list is up to date about everybody it watches. */
  lemma SendListSyncs(s: State, a: Account)
    requires SyncedOk(s) && InverseCovers(s) && CoherentBut(s, a)
    ensures Inv(SendList(s, a))
  {
    hide Told;
    if a in s.present {
      if a in s.game {
        SyncKeeps(s, a);
      }
      var s1 := if a in s.game then Sync(s, a) else s;
      if At(s.relation, a) != {} {
        ListSettles(s1, a);
      }
    }
  }

  lemma LinkAllCovers(s: State, a: Account, rows: set<Account>)
    requires InverseCovers(s)
    ensures var s' := s.(relation := LinkRows(s.relation, a, rows), inverse := LinkAll(s.inverse, rows, a));
            && InverseCovers(s')
            && (forall b :: At(s'.relation, b) == At(s.relation, b) + if b == a then rows else {})
            && (forall f :: At(s'.inverse, f) == At(s.inverse, f) + if f in rows then {a} else {})
  {
    assert forall b :: At(LinkRows(s.relation, a, rows), b) == At(s.relation, b) + if b == a then rows else {};
    assert forall f :: At(LinkAll(s.inverse, rows, a), f) == At(s.inverse, f) + if f in rows then {a} else {};
  }

  lemma LinkedBut(s: State, linked: State, a: Account, rows: set<Account>)
    requires Inv(s)
    requires linked == s.(relation := LinkRows(s.relation, a, rows), inverse := LinkAll(s.inverse, rows, a))
    ensures SyncedOk(linked) && InverseCovers(linked) && CoherentBut(linked, a)
  {
    LinkAllCovers(s, a, rows);
    assert forall b, f :: Told(linked, b, f) == Told(s, b, f);
  }

  lemma ListedLater(s: State, a: Account, loading: multiset<Account>)
    ensures SendList(s.(loading := loading), a) == SendList(s, a).(loading := loading)
  {}

  lemma LoadListKeeps(s: State, a: Account, rows: set<Account>)
    requires Inv(s)
    ensures Inv(LoadList(s, a, rows))
  {
    hide CoherentBut, LinkRows, LinkAll, SendList;
    if a in s.loading {
      var linked := s.(relation := LinkRows(s.relation, a, rows), inverse := LinkAll(s.inverse, rows, a));
      LinkedBut(s, linked, a, rows);
      SendListSyncs(linked, a);
      ListedLater(linked, a, s.loading - multiset{a});
      ListedSame(linked, a);
      NotifyRestores(SendList(linked, a), SendList(linked.(loading := s.loading - multiset{a}), a), a);
    }
  }

  lemma ListedSame(s: State, a: Account)
    ensures SendList(s, a).loading == s.loading && SendList(s, a).relation == s.relation && SendList(s, a).inverse == s.inverse
  {}

  lemma LinkCovers(s: State, a: Account, f: Account)
    requires InverseCovers(s)
    ensures var s' := s.(relation := Link(s.relation, a, f), inverse := Link(s.inverse, f, a));
            && InverseCovers(s')
            && (forall b :: At(s'.relation, b) == At(s.relation, b) + if b == a then {f} else {})
            && (forall g :: At(s'.inverse, g) == At(s.inverse, g) + if g == f then {a} else {})
  {
    assert forall b :: At(Link(s.relation, a, f), b) == At(s.relation, b) + if b == a then {f} else {};
    assert forall g :: At(Link(s.inverse, f, a), g) == At(s.inverse, g) + if g == f then {a} else {};
  }

  lemma AddToListKeeps(s: State, a: Account, f: Account)
    requires Inv(s)
    ensures Inv(AddToList(s, a, f))
  {
    var s' := AddToList(s, a, f);
    var linked := s.(relation := Link(s.relation, a, f), inverse := Link(s.inverse, f, a));
    LinkCovers(s, a, f);
    forall b, g | Watches(s', b, g) && g != "" && g !in s'.loading
      ensures Told(s', b, g) == StatusOf(s', g)
    {
      if f != "" {
        ToldAfterPacket(s, s', Update({a} * s.present, f, StatusOf(s, f)), b, g);
      } else {
        assert Told(s', b, g) == Told(s, b, g);
      }
    }
  }

  lemma RemoveFromListKeeps(s: State, a: Account, f: Account)
    requires Inv(s)
    ensures Inv(RemoveFromList(s, a, f))
  {
    var s' := RemoveFromList(s, a, f);
    assert forall b :: At(s'.relation, b) == At(s.relation, b) - if b == a then {f} else {};
    assert forall g :: At(s'.inverse, g) == At(s.inverse, g) - if g == f then {a} else {};
    assert forall b, g :: Told(s', b, g) == Told(s, b, g);
  }

  lemma ComeAndGoKeeps(s: State, a: Account)
    requires Inv(s)
    ensures Inv(Enter(s, a)) && Inv(Leave(s, a))
  {
    assert forall b, g :: Told(Enter(s, a), b, g) == Told(s, b, g) && Told(Leave(s, a), b, g) == Told(s, b, g);
  }

  // ----- Losing the bridge connection is logging every mobile user out -----

  function MobileLogoutEach(s: State, order: seq<Account>): State {
    if order == [] then s
    else MobileLogout(MobileLogoutEach(s, order[..|order| - 1]), order[|order| - 1])
  }

  ghost function Prefix(order: seq<Account>, n: nat): set<Account>
    requires n <= |order|
  {
    set i | 0 <= i < n :: order[i]
  }

  lemma {:induction false} LostIsLogoutSoFar(s: State, order: seq<Account>, n: nat)
    requires Enumerates(order, s.mobile) && n <= |order|
    ensures MobileLogoutEach(s, order[..n]) == LostEach(s, order[..n]).(mobile := s.mobile - Prefix(order, n))
    ensures LostEach(s, order[..n]).game == s.game
  {
    if n == 0 {
      assert s.mobile - Prefix(order, 0) == s.mobile;
    } else {
      LostIsLogoutSoFar(s, order, n - 1);
      var a := order[n - 1];
      assert order[..n][..n - 1] == order[..n - 1];
      assert a in order && a !in Prefix(order, n - 1);
      assert s.mobile - Prefix(order, n - 1) - {a} == s.mobile - Prefix(order, n);
    }
  }

  /**
   * HandleConnectionLost ends in the state, and sends the packets, of a MobileLogout of every
   * mobile account in the same order.
   */
  lemma ConnectionLostIsLogoutOfAll(s: State, order: seq<Account>)
    requires Enumerates(order, s.mobile)
    ensures ConnectionLost(s, order) == MobileLogoutEach(s, order)
  {
    LostIsLogoutSoFar(s, order, |order|);
    assert order[..|order|] == order;
    assert s.mobile - Prefix(order, |order|) == {};
  }

  lemma {:induction false} LogoutEachKeeps(s: State, order: seq<Account>)
    requires Inv(s)
    ensures Inv(MobileLogoutEach(s, order))
  {
    if order != [] {
      LogoutEachKeeps(s, order[..|order| - 1]);
      MobileLogoutKeeps(MobileLogoutEach(s, order[..|order| - 1]), order[|order| - 1]);
    }
  }

  lemma StepKeeps(s: State, e: Event)
    requires Inv(s) && Possible(s, e)
    ensures Inv(Step(s, e))
  {
    match e
    case EvMobileLogin(a) => MobileLoginKeeps(s, a);
    case EvMobileLogout(a) => MobileLogoutKeeps(s, a);
    case EvLogin(a, escapes) => LoginKeeps(s, a, escapes);
    case EvLogout(a) => LogoutKeeps(s, a);
    case EvLoadList(a, rows) => LoadListKeeps(s, a, rows);
    case EvAdd(a, f) => AddToListKeeps(s, a, f);
    case EvRemove(a, f) => RemoveFromListKeeps(s, a, f);
    case EvConnectionLost(order) =>
      ConnectionLostIsLogoutOfAll(s, order);
      LogoutEachKeeps(s, order);
    case EvEnter(a) => ComeAndGoKeeps(s, a);
    case EvLeave(a) => ComeAndGoKeeps(s, a);
  }

  lemma {:induction false} RunsKeepInv(trace: seq<State>, events: seq<Event>, n: nat)
    requires IsRun(trace, events) && n <= |events|
    ensures Inv(trace[n])
  {
    if n > 0 {
      RunsKeepInv(trace, events, n - 1);
      StepKeeps(trace[n - 1], events[n - 1]);
    }
  }

  /**
   * In every state of every run, a client in game whose list has been sent shows exactly the status
   * the server computes of every named account it watches, that is, of the friends it lists and of
   * those gone offline; unless that account's own list is being loaded.
   */
  lemma ClientsAreUpToDate(trace: seq<State>, events: seq<Event>, n: nat, a: Account, f: Account)
    requires IsRun(trace, events) && n <= |events|
    requires Watches(trace[n], a, f) && f != "" && f !in trace[n].loading
    ensures Told(trace[n], a, f) == StatusOf(trace[n], f)
  {
    RunsKeepInv(trace, events, n);
  }

  /** Notified accounts show what they were notified of. */
  lemma NotifyTells(s: State, g: Account, status: nat, a: Account, f: Account)
    requires SyncedOk(s) && a in s.synced
    ensures Told(Notify(s, g, status), a, f) == if f == g && a in At(s.inverse, g) then status else Told(s, a, f)
  {
    var s' := Notify(s, g, status);
    ToldAfterPacket(s, s', s'.sent[|s'.sent| - 1], a, f);
  }

  /** Logging `g` out tells every synced client that is to be told the new status, and changes nothing else it shows. */
  lemma MobileLogoutTells(s: State, g: Account, a: Account, f: Account)
    requires SyncedOk(s) && a in s.synced
    ensures var s' := MobileLogout(s, g);
            && SyncedOk(s') && s'.synced == s.synced && s'.inverse == s.inverse
            && Told(s', a, f) == (if f == g && g in s.mobile && a in At(s.inverse, g) then StatusOf(s', g) else Told(s, a, f))
            && At(s'.relation, a) <= At(s.relation, a)
            && (f == g && g in s.mobile && StatusOf(s', g) == OFFLINE ==> f !in At(s'.relation, a))
  {
    if g in s.mobile {
      var s1 := s.(mobile := s.mobile - {g});
      NotifyTells(s1, g, StatusOf(s1, g), a, f);
      assert Told(s1, a, f) == Told(s, a, f);
      assert Told(MobileLogout(s, g), a, f) == Told(Notify(s1, g, StatusOf(s1, g)), a, f);
    }
  }

  lemma {:induction false} LogoutOfAllTells(s: State, order: seq<Account>, a: Account, f: Account)
    requires SyncedOk(s) && a in s.synced && a in At(s.inverse, f) && f in s.mobile && f !in s.game
    ensures var s' := MobileLogoutEach(s, order);
            && SyncedOk(s') && s'.synced == s.synced && s'.inverse == s.inverse && s'.game == s.game
            && (f in s'.mobile <==> f !in order)
            && (f in order ==> Told(s', a, f) == OFFLINE && f !in At(s'.relation, a))
  {
    if order != [] {
      var before, g := order[..|order| - 1], order[|order| - 1];
      LogoutOfAllTells(s, before, a, f);
      MobileLogoutTells(MobileLogoutEach(s, before), g, a, f);
      assert order == before + [g];
    }
  }

  lemma LogoutTells(s: State, f: Account, a: Account)
    requires SyncedOk(s) && f in s.game && a in Logout(s, f).synced && a in At(s.inverse, f)
    ensures Told(Logout(s, f), a, f) == StatusOf(Logout(s, f), f)
    ensures StatusOf(Logout(s, f), f) == OFFLINE ==> f !in At(Logout(s, f).relation, a)
  {
    var s1 := s.(game := s.game - {f}, synced := s.synced - {f});
    NotifyTells(s1, f, StatusOf(s1, f), a, f);
    assert Told(Logout(s, f), a, f) == Told(Notify(s1, f, StatusOf(s1, f)), a, f);
  }

  /** The only ways offline. */
  lemma WaysOffline(s: State, e: Event, f: Account)
    requires Possible(s, e) && StatusOf(s, f) != OFFLINE && StatusOf(Step(s, e), f) == OFFLINE
    ensures (e == EvMobileLogout(f) && f in s.mobile) || (e == EvLogout(f) && f in s.game)
            || (e.EvConnectionLost? && f in s.mobile && f !in s.game)
  {
    if e.EvConnectionLost? {
      LostIsLogoutSoFar(s, e.order, |e.order|);
      assert e.order[..|e.order|] == e.order;
    }
  }

  /**
   * Whatever takes `f` offline tells so, in the same step, every synced client that is to be told,
   * although that step also takes `f` off its list.
   */
  lemma GoingOfflineIsTold(s: State, e: Event, a: Account, f: Account)
    requires Inv(s) && Possible(s, e)
    requires StatusOf(s, f) != OFFLINE && StatusOf(Step(s, e), f) == OFFLINE
    requires a in Step(s, e).synced && a in At(s.inverse, f)
    ensures Told(Step(s, e), a, f) == OFFLINE
    ensures f !in At(Step(s, e).relation, a)
  {
    WaysOffline(s, e, f);
    match e
    case EvMobileLogout(_) => MobileLogoutTells(s, f, a, f);
    case EvLogout(_) => LogoutTells(s, f, a);
    case EvConnectionLost(order) =>
      ConnectionLostIsLogoutOfAll(s, order);
      LostKeepsSynced(s, order);
      LogoutOfAllTells(s, order, a, f);
  }

  lemma {:induction false} LostKeepsSynced(s: State, order: seq<Account>)
    ensures ConnectionLost(s, order).synced == s.synced
  {
    if order != [] {
      LostKeepsSynced(s, order[..|order| - 1]);
    }
  }

  /** Who goes offline by logging out is on nobody's list afterwards and has none. */
  lemma OfflineIsForgotten(s: State, a: Account, b: Account)
    ensures a in s.mobile && StatusOf(MobileLogout(s, a), a) == OFFLINE ==>
              a !in MobileLogout(s, a).relation && a !in At(MobileLogout(s, a).relation, b)
    ensures a in s.game && StatusOf(Logout(s, a), a) == OFFLINE ==>
              a !in Logout(s, a).relation && a !in At(Logout(s, a).relation, b)
  {}

  /** Removing a friend undoes adding it, on the list and in its inverse. */
  lemma RemoveUndoesAdd(s: State, a: Account, f: Account, b: Account)
    requires f !in At(s.relation, a) && a !in At(s.inverse, f)
    ensures var s' := RemoveFromList(AddToList(s, a, f), a, f);
            At(s'.relation, b) == At(s.relation, b) && At(s'.inverse, b) == At(s.inverse, b)
  {}

  /**
   * Both provisos are needed. Between Login and LoadList every client that lists the account still
   * shows its status of before; and a nameless friend is listed without ever being reported.
   */
  lemma LoginIsNotTold(s: State, f: Account, a: Account)
    requires Inv(s) && f !in s.game && f !in s.loading && f != ""
    requires a in s.synced && f in At(s.relation, a)
    ensures var s' := Login(s, f, true);
            && a in s'.synced && f in At(s'.relation, a) && f in s'.loading
            && Told(s', a, f) == StatusOf(s, f) != StatusOf(s', f)
  {
    assert Told(Login(s, f, true), a, f) == Told(s, a, f);
    assert Watches(s, a, f);
  }

  /** The state in which "a" has logged in, its list naming `friends` has been sent, and `s` was before. */
  function Listed(s: State, friends: set<Account>): State { LoadList(Login(Enter(s, "a"), "a", true), "a", friends) }

  lemma ListedKeeps(s: State, friends: set<Account>)
    requires Inv(s)
    ensures Inv(Listed(s, friends))
  {
    ComeAndGoKeeps(s, "a");
    LoginKeeps(Enter(s, "a"), "a", true);
    LoadListKeeps(Login(Enter(s, "a"), "a", true), "a", friends);
  }

  lemma StaleWhileLoading()
    ensures var s := Login(Listed(MobileLogin(INITIAL, "f"), {"f"}), "f", true);
            && "a" in s.synced && "f" in At(s.relation, "a") && "f" in s.loading
            && Told(s, "a", "f") == IN_MOBILE
            && StatusOf(s, "f") == IN_GAME + IN_MOBILE
  {
    var s0 := MobileLogin(INITIAL, "f");
    MobileLoginKeeps(INITIAL, "f");
    ListedKeeps(s0, {"f"});
    var s1 := Login(Enter(s0, "a"), "a", true);
    LinkAllCovers(s1, "a", {"f"});
    LoginIsNotTold(Listed(s0, {"f"}), "f", "a");
  }

  /** Adding a nameless friend tells nobody anything. */
  lemma NamelessNotTold(s: State, a: Account)
    requires a in s.synced && Told(s, a, "") == 0
    ensures var s' := AddToList(s, a, "");
            a in s'.synced && "" in At(s'.relation, a) && Told(s', a, "") == 0 != StatusOf(s', "")
  {}

  lemma ListedAlone()
    ensures var s := Listed(INITIAL, {});
            && "a" in s.synced && s.loading == multiset{}
            && s.since == map["a" := 0] && s.sent == [Update({}, "a", IN_GAME)]
  {
    var s0 := Login(Enter(INITIAL, "a"), "a", true);
    var s1 := s0.(loading := s0.loading - multiset{"a"}, inverse := LinkAll(s0.inverse, {}, "a"));
    assert s1.relation == map[] && At(s1.inverse, "a") == {} && s1.loading == multiset{};
    var s2 := SendList(s1, "a");
    assert s2 == s1.(synced := {"a"}, since := map["a" := 0]);
    assert At(s2.inverse, "a") * s2.game * s2.present == {};
  }

  lemma NamelessNotReported()
    ensures var s := AddToList(Listed(INITIAL, {}), "a", "");
            && "a" in s.synced && "" in At(s.relation, "a") && "" !in s.loading
            && Told(s, "a", "") != StatusOf(s, "")
  {
    hide Listed, LastTold;
    var s := Listed(INITIAL, {});
    ListedAlone();
    assert s.sent[0..] == s.sent;
    ToldNothing();
    NamelessNotTold(s, "a");
  }

  lemma ToldNothing()
    ensures LastTold([Update({}, "a", IN_GAME)], "a", "") == 0
  {
    ToldAfterOne([], Update({}, "a", IN_GAME), "a", "");
  }
}
