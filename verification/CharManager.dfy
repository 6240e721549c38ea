/** CMobiCharManager as an object over a Container, operation by operation against module MobiChars. */
module CharManager {
  import opened Common
  import opened Containers
  import opened MobiChars

  class CMobiCharManager {
    const descs: Container<Pid, Mobi>
    /** DESC_MANAGER: the descriptor table and its handle counter. */
    var table: map<Handle, Desc>
    var handleCount: nat
    var lastCleanup: int
    var notices: seq<Notice>

    ghost predicate Valid()
      reads this, descs
    {
      descs.Valid()
    }

    ghost function Abs(): State
      reads this, descs
    {
      State(descs.entries, table, handleCount, lastCleanup, notices)
    }

    constructor (ordinary: map<Handle, Desc>, count: nat)
      requires forall h :: h in ordinary ==> 1 <= h <= count && !ordinary[h].isMobile
      ensures Valid() && Initial(Abs()) && fresh(descs)
    {
      descs := new Container<Pid, Mobi>();
      table, handleCount, lastCleanup, notices := ordinary, count, 0, [];
    }

    /** ~TMobiCharacter */
    method DestroyMobi(m: Mobi)
      modifies this`table
      ensures table == old(table) - {m.handle}
    {
      if m.handle !in table {
        return;
      }
      table := table - {m.handle};
    }

    /** EraseByKey, which runs the destructor of the element it takes out. */
    method Erase(pid: Pid) returns (ok: bool)
      requires Valid()
      modifies this`table, descs
      ensures Valid() && Abs() == MobiChars.Erase(old(Abs()), pid)
      ensures ok <==> Has(old(descs.entries), pid)
    {
      var victim := descs.FindByKey(pid);
      ok := descs.EraseByKey(pid);
      LookupMissing(old(descs.entries), pid);
      if victim.Some? {
        DestroyMobi(victim.value);
      } else {
        assert forall i :: 0 <= i < |old(descs.entries)| ==> old(descs.entries)[i].key in Keys(old(descs.entries));
        RemoveMissing(old(descs.entries), pid);
      }
    }

    method CreateDesc(now: int) returns (h: Handle)
      modifies this`table, this`handleCount
      ensures h == old(handleCount) + 1 == handleCount
      ensures table == old(table)[h := Desc(true, now)]
    {
      handleCount := handleCount + 1;
      h := handleCount;
      table := table[h := Desc(true, now)];
    }

    /** CreateDesc and Emplace, as both login paths combine them; the key is never taken. */
    method CreateOwned(pid: Pid, login: string, now: int)
      requires Valid() && !Has(descs.entries, pid)
      modifies this`table, this`handleCount, descs
      ensures Valid() && Abs() == MobiChars.CreateOwned(old(Abs()), pid, login, now)
    {
      var newd := CreateDesc(now);
      var emplaced := descs.Emplace(pid, Mobi(pid, login, newd));
      assert emplaced;
    }

    method CharacterLoad(pid: Pid, login: string, byLogin: Option<bool>, p2p: Option<bool>, now: int)
      returns (res: LoadResult)
      requires Valid()
      modifies this, descs
      ensures Valid() && (Abs(), res) == MobiChars.CharacterLoad(old(Abs()), pid, login, byLogin, p2p, now)
    {
      var found := descs.FindByKey(pid);
      LookupMissing(descs.entries, pid);
      if found.Some? {
        return ResLoading;
      }
      if byLogin.Some? {
        return if byLogin.value then ResAlreadyForMobile else ResInGame;
      }
      if p2p.Some? {
        notices := notices + [Notice(pid, if p2p.value then Success else InGameReal)];
        if !p2p.value {
          return ResInGame;
        } else {
          return ResAlreadyForMobile;
        }
      }
      CreateOwned(pid, login, now);
      return ResLoading;
    }

    method SendLoginRequest(pid: Pid, login: string, keyOwner: Option<Handle>, now: int)
      requires Valid() && Inv(Abs())
      modifies this, descs
      ensures Valid() && Abs() == MobiChars.SendLoginRequest(old(Abs()), pid, login, keyOwner, now)
    {
      EraseKeeps(Abs(), pid);
      var existed := Erase(pid);
      if keyOwner.Some? && keyOwner.value in table {
        if !table[keyOwner.value].isMobile {
          return;
        }
        table := table - {keyOwner.value};
      }
      CreateOwned(pid, login, now);
    }

    /** MobiGetByHandleID: the first element with that handle. */
    method MobiGetByHandleID(h: Handle) returns (found: Option<Mobi>)
      requires Valid()
      ensures found == FindByHandle(descs.entries, h)
    {
      var i := 0;
      assert descs.entries[0..] == descs.entries;
      while i < descs.Size()
        invariant i <= descs.Size()
        invariant FindByHandle(descs.entries, h) == FindByHandle(descs.entries[i..], h)
      {
        var mobi := descs.ElementAt(i);
        if mobi.handle == h {
          return Some(mobi);
        }
        i := i + 1;
      }
      return None;
    }

    method NotifyStatus(h: Handle, code: LoadCode)
      requires Valid()
      modifies this, descs
      ensures Valid() && Abs() == MobiChars.NotifyStatus(old(Abs()), h, code)
    {
      if h !in table {
        return;
      }
      if !table[h].isMobile {
        return;
      }
      var ptr := MobiGetByHandleID(h);
      if ptr.None? {
        return;
      }
      var pid := ptr.value.pid;
      notices := notices + [Notice(pid, code)];
      if !IsLoadFailed(code) {
        return;
      }
      var erased := Erase(pid);
    }

    method HandleLogout(pid: Pid) returns (ok: bool)
      requires Valid()
      modifies this, descs
      ensures Valid() && Abs() == MobiChars.HandleLogout(old(Abs()), pid)
      ensures ok <==> Has(old(descs.entries), pid)
    {
      LookupMissing(descs.entries, pid);
      var erased := Erase(pid);
      if !erased {
        return false;
      }
      notices := notices + [Notice(pid, Logout)];
      return true;
    }

    /** The first loop of Process: which pids have to go. */
    method CollectStale(now: int) returns (removeVec: seq<Pid>)
      requires Valid()
      ensures removeVec == StalePids(Abs(), descs.entries, now)
    {
      hide Lookup, Remove, Keys, Has, EraseEach;
      removeVec := [];
      var i := 0;
      assert descs.entries[0..] == descs.entries;
      while i < descs.Size()
        invariant i <= descs.Size()
        invariant StalePids(Abs(), descs.entries, now) == removeVec + StalePids(Abs(), descs.entries[i..], now)
      {
        var mobi := descs.ElementAt(i);
        var needRemove := true;
        if mobi.handle !in table {
        } else if now - table[mobi.handle].lastActivity > ACTIVITY_TIMEOUT {
        } else {
          needRemove := false;
        }
        if needRemove {
          removeVec := removeVec + [mobi.pid];
        }
        i := i + 1;
      }
    }

    method Process(now: int)
      requires Valid()
      modifies this, descs
      ensures Valid() && Abs() == MobiChars.Process(old(Abs()), now)
    {
      hide Lookup, Remove, Keys, Has, StalePids, IsStale;
      if now - lastCleanup < CLEANER_INTERVAL {
        return;
      }
      lastCleanup := now;
      var removeVec := CollectStale(now);
      ghost var s1 := Abs();
      var i := 0;
      while i < |removeVec|
        invariant i <= |removeVec|
        invariant Valid() && Abs() == EraseEach(s1, removeVec[..i])
      {
        assert removeVec[..i + 1][..i] == removeVec[..i];
        LookupMissing(descs.entries, removeVec[i]);
        var erased := Erase(removeVec[i]);
        if erased {
          notices := notices + [Notice(removeVec[i], NoActivity)];
        }
        i := i + 1;
      }
      assert removeVec[..|removeVec|] == removeVec;
    }
  }
}
