/** GameClientBase's glue as an object over MobiClient and the messenger manager. */
module GameServer {
  import B = Bridge
  import S = Server
  import P = Presence
  import Ms = Messenger
  import Mc = MobiClient

  class GameServer {
    const mobi: Mc.MobiClientImpl
    const messenger: Ms.MessengerManager

    ghost function Abs(): S.Core
      reads mobi, mobi.client, messenger
    {
      S.Core(mobi.Abs(), messenger.Abs())
    }

    constructor ()
      ensures fresh(mobi) && fresh(mobi.client) && fresh(messenger) && Abs() == S.INITIAL
    {
      mobi := new Mc.MobiClientImpl();
      messenger := new Ms.MessengerManager();
    }

    /** A client event; OnDisconnect also tells the messenger. */
    method ClientEvent(e: B.Event)
      modifies mobi, mobi.client, messenger
      ensures exists order :: S.Possible(old(Abs()), S.Client(e, order)) && Abs() == S.Step(old(Abs()), S.Client(e, order))
    {
      var losses := mobi.client.losses;
      ghost var before := Abs();
      mobi.Dispatch(e);
      assert messenger.Abs() == before.messenger;
      if mobi.client.losses > losses {
        messenger.HandleConnectionLost();
        ghost var order :| P.Enumerates(order, before.messenger.mobile) && messenger.Abs() == P.ConnectionLost(before.messenger, order);
        assert S.Possible(before, S.Client(e, order)) && Abs() == S.Step(before, S.Client(e, order));
      } else {
        assert S.Possible(before, S.Client(e, [])) && Abs() == S.Step(before, S.Client(e, []));
      }
    }

    /** A login (or logout) packet of the bridge has been read on chain `k`. */
    method PresencePacket(k: nat, account: P.Account, login: bool)
      modifies mobi, mobi.client, messenger
      ensures Abs() == S.Step(old(Abs()), if login then S.MobileLoginPacket(k, account) else S.MobileLogoutPacket(k, account))
    {
      var handled := mobi.client.readers[k] > 0 && mobi.client.IsConnected();
      ghost var before := Abs();
      mobi.PacketRead(k, S.QUIET);
      assert messenger.Abs() == before.messenger;
      if handled {
        if login {
          messenger.MobileLogin(account);
        } else {
          messenger.MobileLogout(account);
        }
      }
    }
  }
}
