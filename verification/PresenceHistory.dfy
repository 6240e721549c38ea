/**
 * The messenger manager's sets and lists as functions of what has happened, with no state in between,
 * and what each call makes the clients show (messenger_manager.cpp / .h).
 */
module PresenceHistory {
  import opened Presence

  // ----- What the events so far amount to -----

  /** The last accepted login of `a` is later than its last logout. */
  predicate LoggedIn(events: seq<Event>, a: Account) {
    if events == [] then false
    else
      var before := LoggedIn(events[..|events| - 1], a);
      match events[|events| - 1]
      case EvLogin(b, escapes) => before || (b == a && escapes)
      case EvLogout(b) => before && b != a
      case _ => before
  }

  /** The last mobile login of `a` is later than its last mobile logout and the last loss of the connection. */
  predicate OnMobile(events: seq<Event>, a: Account) {
    if events == [] then false
    else
      var before := OnMobile(events[..|events| - 1], a);
      match events[|events| - 1]
      case EvMobileLogin(b) => before || b == a
      case EvMobileLogout(b) => before && b != a
      case EvConnectionLost(_) => false
      case _ => before
  }

  predicate Here(events: seq<Event>, a: Account) {
    if events == [] then false
    else
      var before := Here(events[..|events| - 1], a);
      match events[|events| - 1]
      case EvEnter(b) => before || b == a
      case EvLeave(b) => before && b != a
      case _ => before
  }

  predicate Offline(events: seq<Event>, a: Account) { !LoggedIn(events, a) && !OnMobile(events, a) }

  /** The last event has taken `a` offline. */
  predicate WentOffline(events: seq<Event>, a: Account)
    requires events != []
  {
    !Offline(events[..|events| - 1], a) && Offline(events, a)
  }

  /** How many list queries for `a` are under way: one for each time it came into game, less those answered. */
  function Queries(events: seq<Event>, a: Account): nat {
    if events == [] then 0
    else
      var before := Queries(events[..|events| - 1], a);
      match events[|events| - 1]
      case EvLogin(b, escapes) => if b == a && escapes && !LoggedIn(events[..|events| - 1], a) then before + 1 else before
      case EvLoadList(b, _) => if b == a && before > 0 then before - 1 else before
      case _ => before
  }

  /** The answer of a query for `a` that is under way names `f`. */
  predicate Answers(events: seq<Event>, a: Account, f: Account)
    requires events != []
  {
    var e := events[|events| - 1];
    e.EvLoadList? && e.a == a && f in e.rows && Queries(events[..|events| - 1], a) > 0
  }

  /** `f` was put on the list of `a`, and neither taken off it since, nor has one of the two gone offline. */
  predicate Lists(events: seq<Event>, a: Account, f: Account) {
    if events == [] then false
    else
      var e := events[|events| - 1];
      if e == EvAdd(a, f) || Answers(events, a, f) then true
      else Lists(events[..|events| - 1], a, f) && e != EvRemove(a, f) && !WentOffline(events, a) && !WentOffline(events, f)
  }

  /** `f` was put on the list of `a`, and not taken off it since. */
  predicate Reports(events: seq<Event>, a: Account, f: Account) {
    if events == [] then false
    else
      var e := events[|events| - 1];
      if e == EvAdd(a, f) || Answers(events, a, f) then true
      else Reports(events[..|events| - 1], a, f) && e != EvRemove(a, f)
  }

  // ----- One step -----

  lemma {:induction false} LostEachSets(s: State, order: seq<Account>, a: Account)
    ensures var s' := LostEach(s, order);
            && s'.game == s.game && s'.mobile == s.mobile && s'.present == s.present && s'.loading == s.loading
            && s'.inverse == s.inverse && s'.synced == s.synced && s'.since == s.since
    ensures forall f :: f in At(LostEach(s, order).relation, a) <==>
              f in At(s.relation, a) && !(a in order && a !in s.game) && !(f in order && f !in s.game)
  {
    if order != [] {
      LostEachSets(s, order[..|order| - 1], a);
      assert order == order[..|order| - 1] + [order[|order| - 1]];
    }
  }

  lemma LoadedSets(s: State, a: Account, rows: set<Account>)
    ensures var s' := LoadList(s, a, rows);
            && s'.game == s.game && s'.mobile == s.mobile && s'.present == s.present
            && (a !in s.loading ==> s' == s)
            && (a in s.loading ==> s'.loading == s.loading - multiset{a} && s'.relation == LinkRows(s.relation, a, rows)
                                   && s'.inverse == LinkAll(s.inverse, rows, a))
  {
    hide LinkRows, LinkAll, SendList;
    if a in s.loading {
      SendListSets(s.(loading := s.loading - multiset{a},
                      relation := LinkRows(s.relation, a, rows), inverse := LinkAll(s.inverse, rows, a)), a);
    }
  }

  lemma SendListSets(s: State, a: Account)
    ensures var s' := SendList(s, a);
            && s'.game == s.game && s'.mobile == s.mobile && s'.present == s.present
            && s'.loading == s.loading && s'.relation == s.relation && s'.inverse == s.inverse
  {}

  lemma StepGame(s: State, e: Event, a: Account)
    requires Possible(s, e)
    ensures a in Step(s, e).game <==> (a in s.game && e != EvLogout(a)) || e == EvLogin(a, true)
  {
    hide LoadList, LostEach, WithoutFriend, Status, At, Link, Unlink;
    if e.EvConnectionLost? {
      LostEachSets(s, e.order, "");
    } else if e.EvLoadList? {
      LoadedSets(s, e.a, e.rows);
    }
  }

  lemma StepMobile(s: State, e: Event, a: Account)
    requires Possible(s, e)
    ensures a in Step(s, e).mobile
            <==> (a in s.mobile && e != EvMobileLogout(a) && !e.EvConnectionLost?) || e == EvMobileLogin(a)
  {
    hide LoadList, LostEach, WithoutFriend, Status, At, Link, Unlink;
    if e.EvLoadList? {
      LoadedSets(s, e.a, e.rows);
    }
  }

  lemma StepPresent(s: State, e: Event, a: Account)
    requires Possible(s, e)
    ensures a in Step(s, e).present <==> (a in s.present && e != EvLeave(a)) || e == EvEnter(a)
  {
    hide LoadList, LostEach, WithoutFriend, Status, At, Link, Unlink;
    if e.EvConnectionLost? {
      LostEachSets(s, e.order, "");
    } else if e.EvLoadList? {
      LoadedSets(s, e.a, e.rows);
    }
  }

  lemma StepQueries(s: State, e: Event, a: Account)
    requires Possible(s, e)
    ensures Step(s, e).loading[a]
            == match e case EvLogin(b, escapes) => if b == a && escapes && a !in s.game then s.loading[a] + 1 else s.loading[a]
                       case EvLoadList(b, _) => if b == a && s.loading[a] > 0 then s.loading[a] - 1 else s.loading[a]
                       case _ => s.loading[a]
  {
    hide LoadList, LostEach, WithoutFriend, Status, At, Link, Unlink;
    if e.EvConnectionLost? {
      LostEachSets(s, e.order, "");
    } else if e.EvLoadList? {
      LoadedSets(s, e.a, e.rows);
    }
  }

  predicate GoesOffline(s: State, s': State, a: Account) { StatusOf(s, a) != OFFLINE && StatusOf(s', a) == OFFLINE }

  predicate Named(s: State, e: Event, a: Account, f: Account) {
    e == EvAdd(a, f) || (e.EvLoadList? && e.a == a && f in e.rows && s.loading[a] > 0)
  }

  lemma LoadedLists(s: State, b: Account, rows: set<Account>, a: Account, f: Account)
    ensures var s' := LoadList(s, b, rows);
            && (f in At(s'.relation, a) <==> f in At(s.relation, a) || (a == b && f in rows && s.loading[b] > 0))
            && (a in At(s'.inverse, f) <==> a in At(s.inverse, f) || (a == b && f in rows && s.loading[b] > 0))
            && StatusOf(s', a) == StatusOf(s, a) && StatusOf(s', f) == StatusOf(s, f)
  {
    hide LoadList;
    LoadedSets(s, b, rows);
  }

  lemma LoggedOutLists(s: State, e: Event, a: Account, f: Account)
    requires e.EvMobileLogout? || e.EvLogout?
    ensures var s' := if e.EvLogout? then Logout(s, e.a) else MobileLogout(s, e.a);
            && (f in At(s'.relation, a) <==> f in At(s.relation, a) && !GoesOffline(s, s', a) && !GoesOffline(s, s', f))
            && s'.inverse == s.inverse
  {}

  lemma ListedBy(s: State, e: Event, a: Account, f: Account)
    requires e.EvAdd? || e.EvRemove?
    ensures var s' := if e.EvAdd? then AddToList(s, e.a, e.f) else RemoveFromList(s, e.a, e.f);
            && (f in At(s'.relation, a) <==> e == EvAdd(a, f) || (f in At(s.relation, a) && e != EvRemove(a, f)))
            && (a in At(s'.inverse, f) <==> e == EvAdd(a, f) || (a in At(s.inverse, f) && e != EvRemove(a, f)))
            && StatusOf(s', a) == StatusOf(s, a) && StatusOf(s', f) == StatusOf(s, f)
  {}

  lemma StepLists(s: State, e: Event, a: Account, f: Account)
    requires Possible(s, e)
    ensures var s' := Step(s, e);
            && (f in At(s'.relation, a) <==>
                  Named(s, e, a, f)
                  || (f in At(s.relation, a) && e != EvRemove(a, f) && !GoesOffline(s, s', a) && !GoesOffline(s, s', f)))
            && (a in At(s'.inverse, f) <==> Named(s, e, a, f) || (a in At(s.inverse, f) && e != EvRemove(a, f)))
  {
    hide LoadList, Logout, MobileLogout, LostEach, AddToList, RemoveFromList;
    match e
    case EvAdd(_, _) => ListedBy(s, e, a, f);
    case EvRemove(_, _) => ListedBy(s, e, a, f);
    case EvLoadList(b, rows) => LoadedLists(s, b, rows, a, f);
    case EvMobileLogout(_) => LoggedOutLists(s, e, a, f);
    case EvLogout(_) => LoggedOutLists(s, e, a, f);
    case EvConnectionLost(order) => LostEachSets(s, order, a);
    case _ =>
  }

  // ----- In every run -----

  lemma {:induction false} SetsSoFar(trace: seq<State>, events: seq<Event>, n: nat, a: Account)
    requires IsRun(trace, events) && n <= |events|
    ensures a in trace[n].game <==> LoggedIn(events[..n], a)
    ensures a in trace[n].mobile <==> OnMobile(events[..n], a)
    ensures a in trace[n].present <==> Here(events[..n], a)
    ensures trace[n].loading[a] == Queries(events[..n], a)
  {
    hide Step;
    if n > 0 {
      SetsSoFar(trace, events, n - 1, a);
      assert events[..n][..n - 1] == events[..n - 1];
      StepGame(trace[n - 1], events[n - 1], a);
      StepMobile(trace[n - 1], events[n - 1], a);
      StepPresent(trace[n - 1], events[n - 1], a);
      StepQueries(trace[n - 1], events[n - 1], a);
    }
  }

  /**
   * In every run an account is in game exactly if its last accepted login is later than its last
   * logout, and on mobile exactly if its last mobile login is later than its last mobile logout and
   * the last loss of the connection; its status says just that.
   */
  lemma StatusIsHistory(trace: seq<State>, events: seq<Event>, n: nat, a: Account)
    requires IsRun(trace, events) && n <= |events|
    ensures a in trace[n].game <==> LoggedIn(events[..n], a)
    ensures a in trace[n].mobile <==> OnMobile(events[..n], a)
    ensures StatusOf(trace[n], a)
            == if LoggedIn(events[..n], a) then (if OnMobile(events[..n], a) then 6 else 2)
               else if OnMobile(events[..n], a) then 4 else 1
  {
    SetsSoFar(trace, events, n, a);
  }

  lemma WentOfflineIff(trace: seq<State>, events: seq<Event>, n: nat, a: Account)
    requires IsRun(trace, events) && 0 < n <= |events|
    ensures WentOffline(events[..n], a) <==> GoesOffline(trace[n - 1], trace[n], a)
  {
    hide LoggedIn, OnMobile, IsRun;
    StatusIsHistory(trace, events, n, a);
    StatusIsHistory(trace, events, n - 1, a);
    assert events[..n][..n - 1] == events[..n - 1];
  }

  lemma NamedIff(trace: seq<State>, events: seq<Event>, n: nat, a: Account, f: Account)
    requires IsRun(trace, events) && 0 < n <= |events|
    ensures Named(trace[n - 1], events[n - 1], a, f) <==> events[n - 1] == EvAdd(a, f) || Answers(events[..n], a, f)
  {
    hide Queries, IsRun;
    SetsSoFar(trace, events, n - 1, a);
    assert events[..n][..n - 1] == events[..n - 1];
  }

  /**
   * In every run the list of `a` names `f` exactly if `f` was put on it, by a call or by the answer to
   * a query, and neither removed since nor has one of the two gone offline; changes of `f` are
   * reported to `a` exactly if it was put on the list and not removed.
   */
  lemma {:induction false} ListsAreHistory(trace: seq<State>, events: seq<Event>, n: nat, a: Account, f: Account)
    requires IsRun(trace, events) && n <= |events|
    ensures f in At(trace[n].relation, a) <==> Lists(events[..n], a, f)
    ensures a in At(trace[n].inverse, f) <==> Reports(events[..n], a, f)
  {
    hide Step, GoesOffline, WentOffline, Named, Answers, At;
    if n == 0 {
      NothingListed(a, f);
    } else {
      ListsAreHistory(trace, events, n - 1, a, f);
      assert events[..n][..n - 1] == events[..n - 1];
      StepLists(trace[n - 1], events[n - 1], a, f);
      WentOfflineIff(trace, events, n, a);
      WentOfflineIff(trace, events, n, f);
      NamedIff(trace, events, n, a, f);
    }
  }

  lemma NothingListed(a: Account, f: Account)
    ensures At(INITIAL.relation, a) == At(INITIAL.inverse, f) == {}
  {}

  // ----- What the clients are made to show -----

  /** `b` is one of those whom a change of `f` is reported to. */
  predicate Hears(s: State, b: Account, f: Account) { b in At(s.inverse, f) && b in s.game && b in s.present }

  /** The call changes whether `a` is in game or on mobile, and reports it. */
  predicate Changes(s: State, e: Event, a: Account) {
    match e
    case EvMobileLogin(b) => b == a && a !in s.mobile
    case EvMobileLogout(b) => b == a && a in s.mobile
    case EvLogout(b) => b == a && a in s.game
    case EvConnectionLost(_) => a in s.mobile
    case _ => false
  }

  /** What the client of `b` shows for `f` when `sent` is all it has received. */
  function Shows(s: State, b: Account, f: Account): nat { LastTold(s.sent, b, f) }

  lemma NotifyShows(s: State, g: Account, status: nat, b: Account, f: Account)
    ensures Shows(Notify(s, g, status), b, f) == if f == g && Hears(s, b, g) then status else Shows(s, b, f)
    ensures |Notify(s, g, status).sent| == |s.sent| + 1
  {
    ToldAfterOne(s.sent, Update(At(s.inverse, g) * s.game * s.present, g, status), b, f);
  }

  lemma {:induction false} LostEachShows(s: State, order: seq<Account>, b: Account, f: Account)
    ensures Shows(LostEach(s, order), b, f)
            == if f in order && Hears(s, b, f) then (if f in s.game then IN_GAME else OFFLINE) else Shows(s, b, f)
    ensures |LostEach(s, order).sent| == |s.sent| + |order|
  {
    if order != [] {
      var rest, g := order[..|order| - 1], order[|order| - 1];
      LostEachShows(s, rest, b, f);
      LostEachSets(s, rest, b);
      NotifyShows(LostEach(s, rest), g, if g in s.game then IN_GAME else OFFLINE, b, f);
      assert order == rest + [g];
    }
  }

  /**
   * A change is told, as the status it leads to, to everybody in game with a client who has the account
   * on its list or has not removed it since; and nothing else that anybody shows changes.
   */
  lemma ChangeIsTold(s: State, e: Event, b: Account, f: Account)
    requires Possible(s, e) && (e.EvMobileLogin? || e.EvMobileLogout? || e.EvLogout? || e.EvConnectionLost?)
    ensures var s' := Step(s, e);
            Shows(s', b, f) == if Changes(s, e, f) && Hears(s', b, f) then StatusOf(s', f) else Shows(s, b, f)
  {
    hide LastTold;
    match e
    case EvMobileLogin(a) =>
      var s1 := s.(mobile := s.mobile + {a});
      NotifyShows(s1, a, StatusOf(s1, a), b, f);
    case EvMobileLogout(a) =>
      var s1 := s.(mobile := s.mobile - {a});
      NotifyShows(s1, a, StatusOf(s1, a), b, f);
    case EvLogout(a) =>
      var s1 := s.(game := s.game - {a}, synced := s.synced - {a});
      NotifyShows(s1, a, StatusOf(s1, a), b, f);
    case EvConnectionLost(order) =>
      LostEachShows(s, order, b, f);
      LostEachSets(s, order, b);
  }

  /** Adding a named friend tells the one who adds it, if it has a client, and nobody else. */
  lemma AddingIsTold(s: State, a: Account, g: Account, b: Account, f: Account)
    ensures var s' := AddToList(s, a, g);
            Shows(s', b, f) == if b == a && f == g && g != "" && a in s.present then StatusOf(s, g) else Shows(s, b, f)
  {
    ToldAfterOne(s.sent, Update({a} * s.present, g, StatusOf(s, g)), b, f);
  }

  /**
   * The answer to a list query shows its receiver every friend's status, in place of all it showed
   * before, and tells those who hear of the receiver that it is here.
   */
  lemma LoadedListIsTold(s: State, a: Account, rows: set<Account>, b: Account, f: Account)
    requires a in s.loading
    ensures var s' := LoadList(s, a, rows);
            var list := At(s.relation, a) + rows;
            Shows(s', b, f) == if f == a && Hears(s', b, a) then StatusOf(s, a)
                               else if b == a && a in s.present && list != {} then (if f in list then StatusOf(s, f) else 0)
                               else Shows(s, b, f)
  {
    hide LastTold;
    var s1 := s.(loading := s.loading - multiset{a},
                 relation := LinkRows(s.relation, a, rows), inverse := LinkAll(s.inverse, rows, a));
    assert At(s1.relation, a) == At(s.relation, a) + rows;
    var s2 := SendList(s1, a);
    ToldAfterOne(s.sent, List(a, Statuses(s.game, s.mobile, At(s1.relation, a))), b, f);
    NotifyShows(s2, a, StatusOf(s2, a), b, f);
  }

  /** The other calls send nothing. */
  lemma OthersTellNothing(s: State, e: Event)
    requires Possible(s, e) && (e.EvLogin? || e.EvRemove? || e.EvEnter? || e.EvLeave? || (e.EvLoadList? && e.a !in s.loading))
    ensures Step(s, e).sent == s.sent
  {}
}
