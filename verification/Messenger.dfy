/** The messenger manager as an object, operation by operation against module Presence. */
module Messenger {
  import opened Presence

  class MessengerManager {
    var setLoginAccount: set<Account>
    var setMobileAccount: set<Account>
    var relation: FriendMap
    var inverseRelation: FriendMap
    /** The accounts CHARACTER_MANAGER::FindPC finds with a descriptor. */
    var present: set<Account>
    /** The packets handed to descriptors. */
    var sent: seq<Packet>
    ghost var loading: multiset<Account>
    ghost var synced: set<Account>
    ghost var since: map<Account, nat>

    ghost function Abs(): State
      reads this
    {
      State(setLoginAccount, setMobileAccount, relation, inverseRelation, present, loading, synced, since, sent)
    }

    constructor ()
      ensures Abs() == INITIAL
    {
      setLoginAccount, setMobileAccount := {}, {};
      relation, inverseRelation := map[], map[];
      present, sent := {}, [];
      loading, synced, since := multiset{}, {}, map[];
    }

    predicate IsAccountInGame(account: Account) reads this { account in setLoginAccount }

    predicate IsAccountInMobile(account: Account) reads this { account in setMobileAccount }

    function GetUserStatus(account: Account): (r: nat)
      reads this
      ensures r == StatusOf(Abs(), account)
    {
      var inGame, inMobile := IsAccountInGame(account), IsAccountInMobile(account);
      if inGame && inMobile then IN_GAME + IN_MOBILE
      else if inGame then IN_GAME
      else if inMobile then IN_MOBILE
      else OFFLINE
    }

    /** NotifyStatusChange over ForEachFriend and SendStatusUpdate. */
    method NotifyStatusChange(account: Account, newStatus: nat)
      modifies this`sent
      ensures Abs() == Notify(old(Abs()), account, newStatus)
    {
      var todo: set<Account> := if account in inverseRelation then inverseRelation[account] else {};
      var to := {};
      ghost var friends := todo;
      while todo != {}
        invariant todo <= friends
        invariant to == (friends - todo) * setLoginAccount * present
        decreases todo
      {
        var friend :| friend in todo;
        todo := todo - {friend};
        if IsAccountInGame(friend) {
          if friend in present {
            to := to + {friend};
          }
        }
      }
      assert to == friends * setLoginAccount * present;
      sent := sent + [Update(to, account, newStatus)];
    }

    /** `for (auto& relationPair : m_Relation) relationPair.second.erase(account);` and the erasure of its own list. */
    method CleanUpRelations(account: Account)
      modifies this`relation
      ensures relation == WithoutFriend(old(relation), account)
    {
      var todo := relation.Keys;
      while todo != {}
        invariant relation.Keys == old(relation).Keys && todo <= relation.Keys
        invariant forall k :: k in relation ==>
                    relation[k] == if k in todo then old(relation)[k] else old(relation)[k] - {account}
        decreases todo
      {
        var k :| k in todo;
        todo := todo - {k};
        relation := relation[k := relation[k] - {account}];
      }
      relation := relation - {account};
    }

    method MobileLogin(account: Account)
      modifies this
      ensures Abs() == Presence.MobileLogin(old(Abs()), account)
    {
      if IsAccountInMobile(account) {
        return;
      }
      setMobileAccount := setMobileAccount + {account};
      var newStatus := GetUserStatus(account);
      NotifyStatusChange(account, newStatus);
    }

    method MobileLogout(account: Account)
      modifies this
      ensures Abs() == Presence.MobileLogout(old(Abs()), account)
    {
      if !IsAccountInMobile(account) {
        return;
      }
      setMobileAccount := setMobileAccount - {account};
      var newStatus := GetUserStatus(account);
      NotifyStatusChange(account, newStatus);
      if newStatus == OFFLINE {
        CleanUpRelations(account);
      }
    }

    method Login(account: Account, escapes: bool)
      modifies this
      ensures Abs() == Presence.Login(old(Abs()), account, escapes)
    {
      if !escapes {
        return;
      }
      if IsAccountInGame(account) {
        return;
      }
      loading := loading + multiset{account};
      setLoginAccount := setLoginAccount + {account};
    }

    method Logout(account: Account)
      modifies this
      ensures Abs() == Presence.Logout(old(Abs()), account)
    {
      if !IsAccountInGame(account) {
        return;
      }
      setLoginAccount := setLoginAccount - {account};
      synced := synced - {account};
      var newStatus := GetUserStatus(account);
      NotifyStatusChange(account, newStatus);
      if newStatus == OFFLINE {
        CleanUpRelations(account);
      }
    }

    method SendList(account: Account)
      modifies this`sent, this`synced, this`since
      ensures Abs() == Presence.SendList(old(Abs()), account)
    {
      if account !in present {
        return;
      }
      if account in setLoginAccount && account !in synced {
        synced, since := synced + {account}, since[account := |sent|];
      }
      if account !in relation {
        return;
      }
      if relation[account] == {} {
        return;
      }
      var todo := relation[account];
      var buf: map<Account, nat> := map[];
      while todo != {}
        invariant todo <= relation[account]
        invariant buf == Statuses(setLoginAccount, setMobileAccount, relation[account] - todo)
        decreases todo
      {
        var friend :| friend in todo;
        todo := todo - {friend};
        buf := buf[friend := GetUserStatus(friend)];
      }
      assert relation[account] - todo == relation[account];
      sent := sent + [List(account, buf)];
    }

    method LoadList(account: Account, rows: set<Account>)
      requires account in loading
      modifies this
      ensures Abs() == Presence.LoadList(old(Abs()), account, rows)
    {
      hide LinkRows, LinkAll, Presence.SendList, Notify;
      loading := loading - multiset{account};
      relation := LinkRows(relation, account, rows);
      inverseRelation := LinkAll(inverseRelation, rows, account);
      ghost var linked := Abs();
      SendList(account);
      ghost var listed := Abs();
      assert listed == Presence.SendList(linked, account);
      var currentStatus := GetUserStatus(account);
      NotifyStatusChange(account, currentStatus);
    }

    /** __AddToList, ending in SendLogin or SendLogout. */
    method AddToList(account: Account, companion: Account)
      modifies this
      ensures Abs() == Presence.AddToList(old(Abs()), account, companion)
    {
      relation := Link(relation, account, companion);
      inverseRelation := Link(inverseRelation, companion, account);
      SendPresence(account, companion);
    }

    /** SendLogin and SendLogout, which compute and send the same packet. */
    method SendPresence(account: Account, companion: Account)
      modifies this`sent
      ensures sent == if companion == "" then old(sent)
                      else old(sent) + [Update({account} * present, companion, StatusOf(Abs(), companion))]
    {
      if companion == "" {
        return;
      }
      var companionStatus := GetUserStatus(companion);
      var to := if account in present then {account} else {};
      assert to == {account} * present;
      sent := sent + [Update(to, companion, companionStatus)];
    }

    /** __RemoveFromList */
    method RemoveFromList(account: Account, companion: Account)
      modifies this
      ensures Abs() == Presence.RemoveFromList(old(Abs()), account, companion)
    {
      if account in relation {
        relation := relation[account := relation[account] - {companion}];
      }
      if companion in inverseRelation {
        inverseRelation := inverseRelation[companion := inverseRelation[companion] - {account}];
      }
    }

    /** The set is visited in some order; whichever it is, the outcome is that of `ConnectionLost`. */
    method HandleConnectionLost()
      modifies this
      ensures exists order :: Enumerates(order, old(setMobileAccount)) && Abs() == ConnectionLost(old(Abs()), order)
    {
      var todo := setMobileAccount;
      ghost var order: seq<Account> := [];
      while todo != {}
        invariant setMobileAccount == old(setMobileAccount) && todo <= setMobileAccount
        invariant Enumerates(order, setMobileAccount - todo)
        invariant Abs() == LostEach(old(Abs()), order)
        decreases todo
      {
        var acc :| acc in todo;
        todo := todo - {acc};
        var newStatus := if IsAccountInGame(acc) then IN_GAME else OFFLINE;
        NotifyStatusChange(acc, newStatus);
        if newStatus == OFFLINE {
          CleanUpRelations(acc);
        }
        assert (order + [acc])[..|order|] == order;
        order := order + [acc];
      }
      assert setMobileAccount - todo == setMobileAccount;
      setMobileAccount := {};
    }
  }
}
