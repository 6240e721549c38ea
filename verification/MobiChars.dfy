/**
 * What CMobiCharManager (mobigame/character/ch_manager.cpp) does to its container of mobile
 * characters and to the descriptor table, outside shutdown; and the proof that no mobile
 * descriptor is ever left without an owner.
 */
module MobiChars {
  import opened Common
  import opened Containers

  type Pid = nat
  type Handle = nat

  datatype Desc = Desc(isMobile: bool, lastActivity: int)

  /** TMobiCharacter: its destructor destroys the descriptor with its handle. */
  datatype Mobi = Mobi(pid: Pid, login: string, handle: Handle)

  // EMobiLoad, as far as the manager tells its codes apart
  datatype LoadCode = Success | Loading | InGameReal | Logout | NoActivity | Failed(code: nat)

  datatype LoadResult = ResLoading | ResAlreadyForMobile | ResInGame

  const CLEANER_INTERVAL: int := 15 * 60 // seconds
  const ACTIVITY_TIMEOUT: int := 15 * 60

  datatype Notice = Notice(pid: Pid, code: LoadCode)

  /** `descs` in order of insertion, the descriptor table, the handle counter, what was reported. */
  datatype State = State(
    descs: seq<Entry<Pid, Mobi>>,
    table: map<Handle, Desc>,
    handleCount: nat,
    lastCleanup: int,
    notices: seq<Notice>)

  predicate IsLoadFailed(code: LoadCode) { !code.Success? && !code.Loading? }

  // ----- Operations -----

  function DestroyDesc(s: State, h: Handle): State { s.(table := s.table - {h}) }

  /** EraseByKey on the container, with the destructor of the erased element. */
  function Erase(s: State, pid: Pid): State {
    match Lookup(s.descs, pid)
    case None => s
    case Some(m) => DestroyDesc(s.(descs := Remove(s.descs, pid)), m.handle)
  }

  /** CreateDesc followed by Emplace for a pid that is not in the container. */
  function CreateOwned(s: State, pid: Pid, login: string, now: int): State {
    var h := s.handleCount + 1;
    s.(handleCount := h,
       table := s.table[h := Desc(true, now)],
       descs := s.descs + [Entry(pid, Mobi(pid, login, h))])
  }

  /** `byLogin`: whether the login name already has a descriptor here, and of which kind. */
  function CharacterLoad(s: State, pid: Pid, login: string, byLogin: Option<bool>, p2p: Option<bool>, now: int)
    : (State, LoadResult)
  {
    if Has(s.descs, pid) then (s, ResLoading)
    else if byLogin.Some? then (s, if byLogin.value then ResAlreadyForMobile else ResInGame)
    else if p2p.Some? then
      (s.(notices := s.notices + [Notice(pid, if p2p.value then Success else InGameReal)]),
       if p2p.value then ResAlreadyForMobile else ResInGame)
    else (CreateOwned(s, pid, login, now), ResLoading)
  }

  /** `keyOwner`: the descriptor the login key leads to, if it still is in the table. */
  function SendLoginRequest(s: State, pid: Pid, login: string, keyOwner: Option<Handle>, now: int): State {
    var s1 := Erase(s, pid);
    if keyOwner.Some? && keyOwner.value in s1.table then
      if !s1.table[keyOwner.value].isMobile then s1
      else CreateOwned(DestroyDesc(s1, keyOwner.value), pid, login, now)
    else CreateOwned(s1, pid, login, now)
  }

  /** MobiGetByHandleID */
  function FindByHandle(descs: seq<Entry<Pid, Mobi>>, h: Handle): Option<Mobi> {
    if descs == [] then None
    else if descs[0].val.handle == h then Some(descs[0].val)
    else FindByHandle(descs[1..], h)
  }

  function NotifyStatus(s: State, h: Handle, code: LoadCode): State {
    if h !in s.table || !s.table[h].isMobile then s
    else
      match FindByHandle(s.descs, h)
      case None => s
      case Some(m) =>
        var s1 := s.(notices := s.notices + [Notice(m.pid, code)]);
        if IsLoadFailed(code) then Erase(s1, m.pid) else s1
  }

  function HandleLogout(s: State, pid: Pid): State {
    if !Has(s.descs, pid) then s
    else
      var s1 := Erase(s, pid);
      s1.(notices := s1.notices + [Notice(pid, Logout)])
  }

  predicate IsStale(s: State, m: Mobi, now: int) {
    m.handle !in s.table || now - s.table[m.handle].lastActivity > ACTIVITY_TIMEOUT
  }

  /** The pids the clean-up pass collects, in container order. */
  function StalePids(s: State, descs: seq<Entry<Pid, Mobi>>, now: int): seq<Pid> {
    if descs == [] then []
    else if IsStale(s, descs[0].val, now) then [descs[0].val.pid] + StalePids(s, descs[1..], now)
    else StalePids(s, descs[1..], now)
  }

  function EraseEach(s: State, pids: seq<Pid>): State {
    if pids == [] then s
    else
      var s1 := EraseEach(s, pids[..|pids| - 1]);
      var pid := pids[|pids| - 1];
      if Has(s1.descs, pid) then
        var s2 := Erase(s1, pid);
        s2.(notices := s2.notices + [Notice(pid, NoActivity)])
      else s1
  }

  function Process(s: State, now: int): State {
    if now - s.lastCleanup < CLEANER_INTERVAL then s
    else
      var s1 := s.(lastCleanup := now);
      EraseEach(s1, StalePids(s1, s1.descs, now))
  }

  // What the rest of the game server does to the descriptor table.

  function OtherDesc(s: State, now: int): State {
    var h := s.handleCount + 1;
    s.(handleCount := h, table := s.table[h := Desc(false, now)])
  }

  function Touch(s: State, h: Handle, now: int): State {
    if h in s.table then s.(table := s.table[h := s.table[h].(lastActivity := now)]) else s
  }

  datatype Event =
    | EvLoad(pid: Pid, login: string, byLogin: Option<bool>, p2p: Option<bool>, now: int)
    | EvLoginRequest(pid: Pid, login: string, keyOwner: Option<Handle>, now: int)
    | EvNotify(h: Handle, code: LoadCode)
    | EvLogout(pid: Pid)
    | EvProcess(now: int)
    | EvOtherDesc(now: int)
    | EvDestroyed(h: Handle)
    | EvTouch(h: Handle, now: int)

  function Step(s: State, e: Event): State {
    match e
    case EvLoad(pid, login, byLogin, p2p, now) => CharacterLoad(s, pid, login, byLogin, p2p, now).0
    case EvLoginRequest(pid, login, keyOwner, now) => SendLoginRequest(s, pid, login, keyOwner, now)
    case EvNotify(h, code) => NotifyStatus(s, h, code)
    case EvLogout(pid) => HandleLogout(s, pid)
    case EvProcess(now) => Process(s, now)
    case EvOtherDesc(now) => OtherDesc(s, now)
    case EvDestroyed(h) => DestroyDesc(s, h)
    case EvTouch(h, now) => Touch(s, h, now)
  }

  function Run(s: State, events: seq<Event>): State {
    if events == [] then s else Step(Run(s, events[..|events| - 1]), events[|events| - 1])
  }

  /** A server that has not served a mobile character yet; `table` holds its ordinary descriptors. */
  ghost predicate Initial(s: State) {
    s.descs == [] && forall h :: h in s.table ==> 1 <= h <= s.handleCount && !s.table[h].isMobile
  }

  // ----- Ownership -----

  ghost predicate Owns(descs: seq<Entry<Pid, Mobi>>, i: nat, h: Handle) { i < |descs| && descs[i].val.handle == h }

  ghost predicate Inv(s: State) {
    && DistinctKeys(s.descs)
    && (forall i :: 0 <= i < |s.descs| ==> s.descs[i].key == s.descs[i].val.pid && s.descs[i].val.handle <= s.handleCount)
    && (forall i, j :: 0 <= i < j < |s.descs| ==> s.descs[i].val.handle != s.descs[j].val.handle)
    && (forall h :: h in s.table ==> h <= s.handleCount)
    && (forall i :: 0 <= i < |s.descs| && s.descs[i].val.handle in s.table ==> s.table[s.descs[i].val.handle].isMobile)
    && (forall h :: h in s.table && s.table[h].isMobile ==> exists i :: Owns(s.descs, i, h))
  }

  lemma FoundAt(descs: seq<Entry<Pid, Mobi>>, pid: Pid) returns (i: nat)
    requires DistinctKeys(descs) && Has(descs, pid)
    ensures i < |descs| && descs[i].key == pid
    ensures Lookup(descs, pid) == Some(descs[i].val) && Remove(descs, pid) == descs[..i] + descs[i + 1..]
  {
    i :| 0 <= i < |descs| && descs[i].key == pid;
    LookupAt(descs, i);
    RemoveAt(descs, i);
  }

  function Cut(s: State, i: nat): State
    requires i < |s.descs|
  {
    s.(descs := s.descs[..i] + s.descs[i + 1..], table := s.table - {s.descs[i].val.handle})
  }

  lemma CutOwns(s: State, i: nat, h: Handle)
    requires Inv(s) && i < |s.descs| && h in Cut(s, i).table && s.table[h].isMobile
    ensures exists k :: Owns(Cut(s, i).descs, k, h)
  {
    var j: nat :| Owns(s.descs, j, h);
    assert Owns(Cut(s, i).descs, if j < i then j else j - 1, h);
  }

  lemma CutDescs(s: State, i: nat, descs: seq<Entry<Pid, Mobi>>)
    requires Inv(s) && i < |s.descs| && descs == s.descs[..i] + s.descs[i + 1..]
    ensures DistinctKeys(descs)
    ensures forall k :: 0 <= k < |descs| ==> descs[k] in s.descs && descs[k].val.handle != s.descs[i].val.handle
    ensures forall k, l :: 0 <= k < l < |descs| ==> descs[k].val.handle != descs[l].val.handle
  {
    assert forall k :: 0 <= k < |descs| ==> descs[k] == s.descs[if k < i then k else k + 1];
  }

  /** Taking out one entry with its descriptor. */
  lemma CutKeeps(s: State, i: nat)
    requires Inv(s) && i < |s.descs|
    ensures Inv(Cut(s, i))
  {
    var s' := Cut(s, i);
    CutDescs(s, i, s'.descs);
    forall h | h in s'.table && s'.table[h].isMobile
      ensures exists k :: Owns(s'.descs, k, h)
    {
      CutOwns(s, i, h);
    }
  }

  lemma EraseKeeps(s: State, pid: Pid)
    requires Inv(s)
    ensures Inv(Erase(s, pid)) && !Has(Erase(s, pid).descs, pid)
    ensures Erase(s, pid).descs == Remove(s.descs, pid)
    ensures Erase(s, pid).handleCount == s.handleCount
  {
    hide Lookup, Remove, Inv;
    LookupMissing(s.descs, pid);
    RemoveKeys(s.descs, pid);
    if Has(s.descs, pid) {
      DistinctInInv(s);
      var i := FoundAt(s.descs, pid);
      CutKeeps(s, i);
    } else {
      assert forall k :: 0 <= k < |s.descs| ==> s.descs[k].key in Keys(s.descs);
      RemoveMissing(s.descs, pid);
    }
  }

  lemma DistinctInInv(s: State)
    requires Inv(s)
    ensures DistinctKeys(s.descs)
  {}

  lemma DestroyKeeps(s: State, h: Handle)
    requires Inv(s)
    ensures Inv(DestroyDesc(s, h))
  {}

  lemma NewKey(descs: seq<Entry<Pid, Mobi>>, pid: Pid)
    requires !Has(descs, pid)
    ensures forall i :: 0 <= i < |descs| ==> descs[i].key != pid
  {
    assert forall i :: 0 <= i < |descs| ==> descs[i].key in Keys(descs);
  }

  lemma CreateKeeps(s: State, pid: Pid, login: string, now: int)
    requires Inv(s) && !Has(s.descs, pid)
    ensures Inv(CreateOwned(s, pid, login, now))
  {
    var s' := CreateOwned(s, pid, login, now);
    var n := |s.descs|;
    NewKey(s.descs, pid);
    hide Keys, Has;
    forall h | h in s'.table && s'.table[h].isMobile
      ensures exists k :: Owns(s'.descs, k, h)
    {
      if h == s'.handleCount {
        assert Owns(s'.descs, n, h);
      } else {
        var j: nat :| Owns(s.descs, j, h);
        assert Owns(s'.descs, j, h);
      }
    }
  }

  lemma NoticeKeeps(s: State, notices: seq<Notice>, cleanup: int)
    requires Inv(s)
    ensures Inv(s.(notices := notices, lastCleanup := cleanup))
  {
    var s' := s.(notices := notices, lastCleanup := cleanup);
    assert s'.descs == s.descs && s'.table == s.table;
  }

  lemma {:induction false} EraseEachKeeps(s: State, pids: seq<Pid>)
    requires Inv(s)
    ensures Inv(EraseEach(s, pids))
  {
    if pids != [] {
      EraseEachKeeps(s, pids[..|pids| - 1]);
      var s1 := EraseEach(s, pids[..|pids| - 1]);
      var pid := pids[|pids| - 1];
      EraseKeeps(s1, pid);
      NoticeKeeps(Erase(s1, pid), Erase(s1, pid).notices + [Notice(pid, NoActivity)], Erase(s1, pid).lastCleanup);
    }
  }

  lemma SendLoginRequestKeeps(s: State, pid: Pid, login: string, keyOwner: Option<Handle>, now: int)
    requires Inv(s)
    ensures Inv(SendLoginRequest(s, pid, login, keyOwner, now))
  {
    EraseKeeps(s, pid);
    var s1 := Erase(s, pid);
    if keyOwner.Some? && keyOwner.value in s1.table {
      DestroyKeeps(s1, keyOwner.value);
      CreateKeeps(DestroyDesc(s1, keyOwner.value), pid, login, now);
    } else {
      CreateKeeps(s1, pid, login, now);
    }
  }

  lemma CharacterLoadKeeps(s: State, pid: Pid, login: string, byLogin: Option<bool>, p2p: Option<bool>, now: int)
    requires Inv(s)
    ensures Inv(CharacterLoad(s, pid, login, byLogin, p2p, now).0)
  {
    hide Inv, CreateOwned, Has;
    if !Has(s.descs, pid) {
      CreateKeeps(s, pid, login, now);
      NoticeKeeps(s, s.notices + [Notice(pid, if p2p == Some(true) then Success else InGameReal)], s.lastCleanup);
    }
  }

  lemma NotifyStatusKeeps(s: State, h: Handle, code: LoadCode)
    requires Inv(s)
    ensures Inv(NotifyStatus(s, h, code))
  {
    hide Inv, Erase, FindByHandle;
    match FindByHandle(s.descs, h)
    case None =>
    case Some(m) =>
      NoticeKeeps(s, s.notices + [Notice(m.pid, code)], s.lastCleanup);
      EraseKeeps(s.(notices := s.notices + [Notice(m.pid, code)]), m.pid);
  }

  lemma HandleLogoutKeeps(s: State, pid: Pid)
    requires Inv(s)
    ensures Inv(HandleLogout(s, pid))
  {
    hide Inv, Erase, Has;
    EraseKeeps(s, pid);
    NoticeKeeps(Erase(s, pid), Erase(s, pid).notices + [Notice(pid, Logout)], Erase(s, pid).lastCleanup);
  }

  lemma ProcessKeeps(s: State, now: int)
    requires Inv(s)
    ensures Inv(Process(s, now))
  {
    hide Inv, EraseEach, StalePids;
    var s1 := s.(lastCleanup := now);
    NoticeKeeps(s, s.notices, now);
    EraseEachKeeps(s1, StalePids(s1, s1.descs, now));
  }

  lemma StepKeeps(s: State, e: Event)
    requires Inv(s)
    ensures Inv(Step(s, e))
  {
    hide Inv, CharacterLoad, SendLoginRequest, NotifyStatus, HandleLogout, Process, OtherDesc, DestroyDesc, Touch;
    match e
    case EvLoad(pid, login, byLogin, p2p, now) => CharacterLoadKeeps(s, pid, login, byLogin, p2p, now);
    case EvLoginRequest(pid, login, keyOwner, now) => SendLoginRequestKeeps(s, pid, login, keyOwner, now);
    case EvNotify(h, code) => NotifyStatusKeeps(s, h, code);
    case EvLogout(pid) => HandleLogoutKeeps(s, pid);
    case EvProcess(now) => ProcessKeeps(s, now);
    case EvOtherDesc(now) => OtherDescKeeps(s, now);
    case EvDestroyed(h) => DestroyKeeps(s, h);
    case EvTouch(h, now) => TouchKeeps(s, h, now);
  }

  lemma OtherDescKeeps(s: State, now: int)
    requires Inv(s)
    ensures Inv(OtherDesc(s, now))
  {
    var s' := OtherDesc(s, now);
    forall h | h in s'.table && s'.table[h].isMobile
      ensures exists k :: Owns(s'.descs, k, h)
    {
      assert h in s.table && s.table[h].isMobile;
    }
  }

  lemma TouchKeeps(s: State, h: Handle, now: int)
    requires Inv(s)
    ensures Inv(Touch(s, h, now))
  {
    var s' := Touch(s, h, now);
    forall g | g in s'.table && s'.table[g].isMobile
      ensures exists k :: Owns(s'.descs, k, g)
    {
      assert g in s.table && s.table[g].isMobile;
    }
  }

  lemma {:induction false} RunKeeps(s: State, events: seq<Event>)
    requires Initial(s)
    ensures Inv(Run(s, events))
  {
    if events != [] {
      RunKeeps(s, events[..|events| - 1]);
      StepKeeps(Run(s, events[..|events| - 1]), events[|events| - 1]);
    }
  }

  /** After any run every live mobile descriptor belongs to exactly one entry of the container. */
  lemma NoLeakedDescriptor(s: State, events: seq<Event>, h: Handle)
    requires Initial(s)
    requires h in Run(s, events).table && Run(s, events).table[h].isMobile
    ensures exists i :: Owns(Run(s, events).descs, i, h)
                        && forall k :: Owns(Run(s, events).descs, k, h) ==> k == i
  {
    RunKeeps(s, events);
    var i: nat :| Owns(Run(s, events).descs, i, h);
  }

  /** No step of the manager takes an ordinary player's descriptor away. */
  lemma OrdinaryDescriptorsSurvive(s: State, e: Event, h: Handle)
    requires Inv(s) && h in s.table && !s.table[h].isMobile && e != EvDestroyed(h)
    ensures h in Step(s, e).table && !Step(s, e).table[h].isMobile
  {
    hide EraseEach, StalePids, FindByHandle, Lookup, Remove, Has;
    match e
    case EvLoad(pid, login, byLogin, p2p, now) =>
    case EvLoginRequest(pid, login, keyOwner, now) => EraseSpares(s, pid, h);
    case EvNotify(g, code) =>
      match FindByHandle(s.descs, g) {
        case None =>
        case Some(m) =>
          var s1 := s.(notices := s.notices + [Notice(m.pid, code)]);
          NoticeKeeps(s, s1.notices, s.lastCleanup);
          EraseSpares(s1, m.pid, h);
      }
    case EvLogout(pid) => EraseSpares(s, pid, h);
    case EvProcess(now) =>
      NoticeKeeps(s, s.notices, now);
      EraseEachSpares(s.(lastCleanup := now), StalePids(s.(lastCleanup := now), s.descs, now), h);
    case EvOtherDesc(now) =>
    case EvDestroyed(g) =>
    case EvTouch(g, now) =>
  }

  lemma EraseSpares(s: State, pid: Pid, h: Handle)
    requires Inv(s) && h in s.table && !s.table[h].isMobile
    ensures h in Erase(s, pid).table && Erase(s, pid).table[h] == s.table[h]
  {
    LookupMissing(s.descs, pid);
    if Has(s.descs, pid) {
      var i := FoundAt(s.descs, pid);
    }
  }

  lemma {:induction false} EraseEachSpares(s: State, pids: seq<Pid>, h: Handle)
    requires Inv(s) && h in s.table && !s.table[h].isMobile
    ensures h in EraseEach(s, pids).table && EraseEach(s, pids).table[h] == s.table[h]
  {
    if pids != [] {
      EraseEachSpares(s, pids[..|pids| - 1], h);
      EraseEachKeeps(s, pids[..|pids| - 1]);
      EraseSpares(EraseEach(s, pids[..|pids| - 1]), pids[|pids| - 1], h);
    }
  }

  lemma {:induction false} FindByHandleAt(descs: seq<Entry<Pid, Mobi>>, h: Handle) returns (i: nat)
    requires exists k: nat :: Owns(descs, k, h)
    ensures i < |descs| && FindByHandle(descs, h) == Some(descs[i].val) && descs[i].val.handle == h
  {
    if descs[0].val.handle == h {
      i := 0;
    } else {
      var k: nat :| Owns(descs, k, h);
      assert Owns(descs[1..], k - 1, h);
      i := FindByHandleAt(descs[1..], h);
      i := i + 1;
    }
  }

  /** A failed load releases the descriptor and its entry. */
  lemma FailedLoadReleases(s: State, h: Handle, code: LoadCode, k: nat)
    requires Inv(s) && h in s.table && s.table[h].isMobile && IsLoadFailed(code)
    ensures h !in NotifyStatus(s, h, code).table && !Owns(NotifyStatus(s, h, code).descs, k, h)
  {
    var i := FindByHandleAt(s.descs, h);
    LookupAt(s.descs, i);
    RemoveAt(s.descs, i);
  }

  /** Logging out a character releases its entry and its descriptor. */
  lemma LogoutReleases(s: State, i: nat)
    requires Inv(s) && i < |s.descs|
    ensures var s' := HandleLogout(s, s.descs[i].key);
            s.descs[i].val.handle !in s'.table && !Has(s'.descs, s.descs[i].key)
            && s'.descs == s.descs[..i] + s.descs[i + 1..]
  {
    assert s.descs[i].key in Keys(s.descs);
    LookupAt(s.descs, i);
    RemoveAt(s.descs, i);
    EraseKeeps(s, s.descs[i].key);
  }

  /** Unless an ordinary player holds the login key, a login request ends with a new descriptor for the pid. */
  lemma LoginRequestOwns(s: State, pid: Pid, login: string, keyOwner: Option<Handle>, now: int)
    requires Inv(s)
    requires keyOwner.Some? && keyOwner.value in s.table ==> s.table[keyOwner.value].isMobile
    ensures var s' := SendLoginRequest(s, pid, login, keyOwner, now);
            && Lookup(s'.descs, pid) == Some(Mobi(pid, login, s.handleCount + 1))
            && s'.table[s.handleCount + 1 := Desc(true, now)] == s'.table
  {
    EraseKeeps(s, pid);
    LookupMissing(s.descs, pid);
    var s1 := Erase(s, pid);
    LookupAfterInsert(s1.descs, pid, Mobi(pid, login, s.handleCount + 1), pid);
  }

  // ----- What the clean-up pass leaves -----

  function Live(s: State, descs: seq<Entry<Pid, Mobi>>, now: int): seq<Entry<Pid, Mobi>> {
    if descs == [] then []
    else if IsStale(s, descs[0].val, now) then Live(s, descs[1..], now)
    else [descs[0]] + Live(s, descs[1..], now)
  }

  function Without(descs: seq<Entry<Pid, Mobi>>, pids: seq<Pid>): seq<Entry<Pid, Mobi>> {
    if descs == [] then []
    else if descs[0].key in pids then Without(descs[1..], pids)
    else [descs[0]] + Without(descs[1..], pids)
  }

  lemma {:induction false} RemoveWithout(descs: seq<Entry<Pid, Mobi>>, pids: seq<Pid>, pid: Pid)
    ensures Remove(Without(descs, pids), pid) == Without(descs, pids + [pid])
  {
    if descs != [] {
      RemoveWithout(descs[1..], pids, pid);
    }
  }

  lemma {:induction false} WithoutNothing(descs: seq<Entry<Pid, Mobi>>)
    ensures Without(descs, []) == descs
  {
    if descs != [] {
      WithoutNothing(descs[1..]);
    }
  }

  lemma {:induction false} EraseEachIsWithout(s: State, pids: seq<Pid>)
    requires Inv(s)
    ensures EraseEach(s, pids).descs == Without(s.descs, pids)
  {
    if pids == [] {
      WithoutNothing(s.descs);
    } else {
      var before, pid := pids[..|pids| - 1], pids[|pids| - 1];
      var s1 := EraseEach(s, before);
      EraseEachIsWithout(s, before);
      EraseEachKeeps(s, before);
      EraseKeeps(s1, pid);
      RemoveWithout(s.descs, before, pid);
      assert before + [pid] == pids;
      if !Has(s1.descs, pid) {
        assert forall k :: 0 <= k < |s1.descs| ==> s1.descs[k].key in Keys(s1.descs);
        RemoveMissing(s1.descs, pid);
      }
    }
  }

  lemma {:induction false} StalePidsOf(s: State, descs: seq<Entry<Pid, Mobi>>, now: int, pid: Pid)
    requires forall i :: 0 <= i < |descs| ==> descs[i].key == descs[i].val.pid
    ensures pid in StalePids(s, descs, now) <==> exists i :: 0 <= i < |descs| && descs[i].key == pid && IsStale(s, descs[i].val, now)
  {
    if descs != [] {
      StalePidsOf(s, descs[1..], now, pid);
      forall i | 0 <= i < |descs| && descs[i].key == pid && IsStale(s, descs[i].val, now)
        ensures pid in StalePids(s, descs, now)
      {
        assert i > 0 ==> descs[1..][i - 1] == descs[i];
      }
    }
  }

  lemma {:induction false} WithoutStaleIsLive(s: State, descs: seq<Entry<Pid, Mobi>>, now: int, pids: seq<Pid>)
    requires forall i :: 0 <= i < |descs| ==> (descs[i].key in pids <==> IsStale(s, descs[i].val, now))
    ensures Without(descs, pids) == Live(s, descs, now)
  {
    if descs != [] {
      forall i | 0 <= i < |descs[1..]|
        ensures descs[1..][i].key in pids <==> IsStale(s, descs[1..][i].val, now)
      {
        assert descs[1..][i] == descs[i + 1];
      }
      WithoutStaleIsLive(s, descs[1..], now, pids);
    }
  }

  /**
   * A due clean-up leaves exactly the entries whose descriptor is alive and recently active, in
   * their original order.
   */
  lemma ProcessKeepsExactlyLive(s: State, now: int)
    requires Inv(s) && now - s.lastCleanup >= CLEANER_INTERVAL
    ensures Process(s, now).descs == Live(s, s.descs, now)
  {
    var s1 := s.(lastCleanup := now);
    NoticeKeeps(s, s.notices, now);
    var pids := StalePids(s1, s.descs, now);
    EraseEachIsWithout(s1, pids);
    forall i | 0 <= i < |s.descs|
      ensures s.descs[i].key in pids <==> IsStale(s1, s.descs[i].val, now)
    {
      StalePidsOf(s1, s.descs, now, s.descs[i].key);
    }
    WithoutStaleIsLive(s1, s.descs, now, pids);
    LiveSame(s1, s, s.descs, now);
  }

  lemma {:induction false} LiveSame(s1: State, s: State, descs: seq<Entry<Pid, Mobi>>, now: int)
    requires s1.table == s.table
    ensures Live(s1, descs, now) == Live(s, descs, now)
  {
    if descs != [] {
      LiveSame(s1, s, descs[1..], now);
    }
  }

  lemma {:induction false} LiveEntries(s: State, descs: seq<Entry<Pid, Mobi>>, now: int)
    ensures forall e :: e in Live(s, descs, now) <==> e in descs && !IsStale(s, e.val, now)
  {
    if descs != [] {
      LiveEntries(s, descs[1..], now);
      assert forall e :: e in descs <==> e == descs[0] || e in descs[1..];
    }
  }

  lemma {:induction false} EraseEachShrinks(s: State, pids: seq<Pid>, h: Handle)
    requires h in EraseEach(s, pids).table
    ensures h in s.table && EraseEach(s, pids).table[h] == s.table[h]
  {
    if pids != [] {
      EraseEachShrinks(s, pids[..|pids| - 1], h);
    }
  }

  /** Erasing one entry leaves the descriptors of the remaining entries alone. */
  lemma EraseRetains(s: State, pid: Pid, e: Entry<Pid, Mobi>)
    requires Inv(s) && e in Erase(s, pid).descs && e.val.handle in s.table
    ensures e in s.descs && e.val.handle in Erase(s, pid).table
  {
    LookupMissing(s.descs, pid);
    RemoveEntries(s.descs, pid);
    if Has(s.descs, pid) {
      var i := FoundAt(s.descs, pid);
      var k :| 0 <= k < |s.descs| && s.descs[k] == e;
    }
  }

  lemma {:induction false} EraseEachRetains(s: State, pids: seq<Pid>, e: Entry<Pid, Mobi>)
    requires Inv(s) && e in EraseEach(s, pids).descs && e.val.handle in s.table
    ensures e in s.descs && e.val.handle in EraseEach(s, pids).table
  {
    if pids != [] {
      var before, pid := pids[..|pids| - 1], pids[|pids| - 1];
      var s1 := EraseEach(s, before);
      EraseEachKeeps(s, before);
      EraseKeeps(s1, pid);
      RemoveEntries(s1.descs, pid);
      assert e in s1.descs;
      EraseEachRetains(s, before, e);
      if Has(s1.descs, pid) {
        EraseRetains(s1, pid, e);
      }
    }
  }

  /** An entry is in the container after a due clean-up exactly when it was there and not stale. */
  lemma EntriesAfterProcess(s: State, now: int, e: Entry<Pid, Mobi>)
    requires Inv(s) && now - s.lastCleanup >= CLEANER_INTERVAL
    ensures e in Process(s, now).descs <==>
              e in s.descs && e.val.handle in s.table && now - s.table[e.val.handle].lastActivity <= ACTIVITY_TIMEOUT
  {
    ProcessKeepsExactlyLive(s, now);
    LiveEntries(s, s.descs, now);
  }

  /** A due clean-up destroys exactly the mobile descriptors that have been idle too long. */
  lemma ProcessDestroysExactlyIdle(s: State, now: int, h: Handle)
    requires Inv(s) && now - s.lastCleanup >= CLEANER_INTERVAL && h in s.table
    ensures h in Process(s, now).table <==>
            (s.table[h].isMobile ==> now - s.table[h].lastActivity <= ACTIVITY_TIMEOUT)
  {
    var s1 := s.(lastCleanup := now);
    var pids := StalePids(s1, s.descs, now);
    NoticeKeeps(s, s.notices, now);
    if !s.table[h].isMobile {
      EraseEachSpares(s1, pids, h);
    } else {
      var i: nat :| Owns(s.descs, i, h);
      EntriesAfterProcess(s, now, s.descs[i]);
      if s.descs[i] in Process(s, now).descs {
        EraseEachRetains(s1, pids, s.descs[i]);
      } else if h in Process(s, now).table {
        IdleIsUnowned(s, now, h, i);
      }
    }
  }

  lemma IdleIsUnowned(s: State, now: int, h: Handle, i: nat)
    requires Inv(s) && now - s.lastCleanup >= CLEANER_INTERVAL
    requires Owns(s.descs, i, h) && s.descs[i] !in Process(s, now).descs
    ensures h !in Process(s, now).table
  {
    var s1 := s.(lastCleanup := now);
    var pids := StalePids(s1, s.descs, now);
    NoticeKeeps(s, s.notices, now);
    EraseEachKeeps(s1, pids);
    if h in Process(s, now).table {
      EraseEachShrinks(s1, pids, h);
      var k: nat :| Owns(Process(s, now).descs, k, h);
      EntriesAfterProcess(s, now, Process(s, now).descs[k]);
      assert false;
    }
  }

  // ----- What the ordinary calls do -----

  /** CharacterLoad creates exactly for a pid and a login known nowhere; otherwise it only says where it found them. */
  lemma LoadOutcome(s: State, pid: Pid, login: string, byLogin: Option<bool>, p2p: Option<bool>, now: int, other: Pid)
    requires Inv(s)
    ensures var (s', res) := CharacterLoad(s, pid, login, byLogin, p2p, now);
            var isNew := !Has(s.descs, pid) && byLogin.None? && p2p.None?;
            var h := s.handleCount + 1;
            && Lookup(s'.descs, other) == (if isNew && other == pid then Some(Mobi(pid, login, h)) else Lookup(s.descs, other))
            && s'.table == (if isNew then s.table[h := Desc(true, now)] else s.table)
            && (res.ResLoading? <==> Has(s.descs, pid) || isNew)
            && (res.ResAlreadyForMobile? <==>
                  !Has(s.descs, pid) && if byLogin.Some? then byLogin.value else p2p == Some(true))
            && s'.notices == s.notices + if Has(s.descs, pid) || byLogin.Some? || p2p.None? then []
                                         else [Notice(pid, if p2p.value then Success else InGameReal)]
  {
    hide Lookup;
    if !Has(s.descs, pid) {
      LookupAfterInsert(s.descs, pid, Mobi(pid, login, s.handleCount + 1), other);
    }
  }

  /** Where an ordinary player holds the login key, a request only drops the old entry. */
  lemma LoginRequestRefused(s: State, pid: Pid, login: string, holder: Handle, now: int, other: Pid)
    requires Inv(s) && holder in s.table && !s.table[holder].isMobile
    ensures var s' := SendLoginRequest(s, pid, login, Some(holder), now);
            && Lookup(s'.descs, other) == (if other == pid then None else Lookup(s.descs, other))
            && s'.handleCount == s.handleCount && s'.table.Keys <= s.table.Keys && s'.notices == s.notices
  {
    EraseKeeps(s, pid);
    EraseSpares(s, pid, holder);
    LookupAfterRemove(s.descs, pid, other);
    EraseTable(s, pid);
  }

  lemma EraseTable(s: State, pid: Pid)
    ensures Erase(s, pid).table.Keys <= s.table.Keys && Erase(s, pid).notices == s.notices
  {}

  /** A login request leaves every other pid's entry, and destroys the mobile descriptor that held the key. */
  lemma LoginRequestSpares(s: State, pid: Pid, login: string, keyOwner: Option<Handle>, now: int, other: Pid)
    requires Inv(s) && other != pid
    ensures Lookup(SendLoginRequest(s, pid, login, keyOwner, now).descs, other) == Lookup(s.descs, other)
    ensures keyOwner.Some? && keyOwner.value in s.table && s.table[keyOwner.value].isMobile ==>
              keyOwner.value !in SendLoginRequest(s, pid, login, keyOwner, now).table
  {
    hide Lookup, Remove, Keys;
    EraseKeeps(s, pid);
    LookupAfterRemove(s.descs, pid, other);
    LookupAfterInsert(Erase(s, pid).descs, pid, Mobi(pid, login, s.handleCount + 1), other);
    HandlesInUse(s);
  }

  lemma HandlesInUse(s: State)
    requires Inv(s)
    ensures s.handleCount + 1 !in s.table
  {}

  /** The status of a live mobile descriptor is reported under its owner's pid, and kept exactly if it is no failure. */
  lemma StatusIsReported(s: State, code: LoadCode, i: nat)
    requires Inv(s) && i < |s.descs| && s.descs[i].val.handle in s.table
    ensures var s', good := NotifyStatus(s, s.descs[i].val.handle, code), code == Success || code == Loading;
            && s'.notices == s.notices + [Notice(s.descs[i].key, code)]
            && s'.descs == (if good then s.descs else s.descs[..i] + s.descs[i + 1..])
            && s'.table == (if good then s.table else s.table - {s.descs[i].val.handle})
  {
    var h := s.descs[i].val.handle;
    assert Owns(s.descs, i, h);
    var k := FindByHandleAt(s.descs, h);
    assert k == i;
    LookupAt(s.descs, i);
    RemoveAt(s.descs, i);
  }

  /** A status for any other handle is ignored. */
  lemma StrayStatusIsIgnored(s: State, h: Handle, code: LoadCode)
    requires Inv(s) && !(h in s.table && s.table[h].isMobile)
    ensures NotifyStatus(s, h, code) == s
  {}

  /** A logout is reported exactly if there was something to log out. */
  lemma LogoutIsReported(s: State, pid: Pid)
    requires Inv(s)
    ensures HandleLogout(s, pid).notices == s.notices + if Has(s.descs, pid) then [Notice(pid, Logout)] else []
    ensures !Has(s.descs, pid) ==> HandleLogout(s, pid) == s
  {
    EraseTable(s, pid);
  }

  function Idle(pids: seq<Pid>): seq<Notice> {
    if pids == [] then [] else Idle(pids[..|pids| - 1]) + [Notice(pids[|pids| - 1], NoActivity)]
  }

  lemma {:induction false} EraseEachReports(s: State, pids: seq<Pid>)
    requires Inv(s) && DistinctPids(s.descs, pids)
    ensures EraseEach(s, pids).notices == s.notices + Idle(pids)
    ensures forall p :: Has(s.descs, p) && p !in pids ==> Has(EraseEach(s, pids).descs, p)
    ensures EraseEach(s, pids).lastCleanup == s.lastCleanup
  {
    hide Erase, Has;
    if pids != [] {
      var rest, pid := pids[..|pids| - 1], pids[|pids| - 1];
      EraseEachReports(s, rest);
      EraseEachKeeps(s, rest);
      var s1 := EraseEach(s, rest);
      ErasedReports(s1, pid);
      forall p | Has(s.descs, p) && p !in pids ensures Has(EraseEach(s, pids).descs, p) {
        assert p !in rest && p != pid;
      }
    }
  }

  lemma ErasedReports(s: State, pid: Pid)
    requires Inv(s)
    ensures var s' := Erase(s, pid);
            && s'.notices == s.notices && s'.lastCleanup == s.lastCleanup
            && forall p :: Has(s'.descs, p) <==> Has(s.descs, p) && p != pid
  {
    EraseKeeps(s, pid);
    RemoveKeys(s.descs, pid);
  }

  lemma FirstKeyOnce(descs: seq<Entry<Pid, Mobi>>)
    requires descs != [] && DistinctKeys(descs)
    ensures !Has(descs[1..], descs[0].key) && DistinctKeys(descs[1..])
  {}

  /** Keys of `descs`, each at most once. */
  ghost predicate DistinctPids(descs: seq<Entry<Pid, Mobi>>, pids: seq<Pid>) {
    && (forall i :: 0 <= i < |pids| ==> Has(descs, pids[i]))
    && (forall i, j :: 0 <= i < j < |pids| ==> pids[i] != pids[j])
  }

  lemma DistinctFront(descs: seq<Entry<Pid, Mobi>>, rest: seq<Pid>)
    requires descs != [] && DistinctKeys(descs) && DistinctPids(descs[1..], rest)
    ensures DistinctPids(descs, rest) && DistinctPids(descs, [descs[0].key] + rest)
  {
    KeysCons(descs);
    FirstKeyOnce(descs);
  }

  lemma {:induction false} StalePidsDistinct(s: State, descs: seq<Entry<Pid, Mobi>>, now: int)
    requires DistinctKeys(descs) && forall i :: 0 <= i < |descs| ==> descs[i].key == descs[i].val.pid
    ensures DistinctPids(descs, StalePids(s, descs, now))
  {
    hide DistinctPids;
    if descs == [] {
      NoPids(descs);
    } else {
      StalePidsDistinct(s, descs[1..], now);
      DistinctFront(descs, StalePids(s, descs[1..], now));
    }
  }

  lemma NoPids(descs: seq<Entry<Pid, Mobi>>)
    ensures DistinctPids(descs, [])
  {}

  /** A due clean-up reports every character it removes, each once and in order; one that is not due does nothing. */
  lemma ProcessReports(s: State, now: int)
    requires Inv(s)
    ensures now - s.lastCleanup < CLEANER_INTERVAL ==> Process(s, now) == s
    ensures now - s.lastCleanup >= CLEANER_INTERVAL ==>
              && Process(s, now).lastCleanup == now
              && Process(s, now).notices == s.notices + Idle(StalePids(s, s.descs, now))
  {
    var s1 := s.(lastCleanup := now);
    if now - s.lastCleanup >= CLEANER_INTERVAL {
      StaleSame(s1, s, s.descs, now);
      StalePidsDistinct(s1, s.descs, now);
      NoticeKeeps(s, s.notices, now);
      EraseEachReports(s1, StalePids(s1, s1.descs, now));
    }
  }

  lemma {:induction false} StaleSame(s1: State, s: State, descs: seq<Entry<Pid, Mobi>>, now: int)
    requires s1.table == s.table
    ensures StalePids(s1, descs, now) == StalePids(s, descs, now)
  {
    if descs != [] {
      StaleSame(s1, s, descs[1..], now);
    }
  }
}
