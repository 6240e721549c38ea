/** NetworkClientImpl as an object: its fields, and every operation against module Session. */
module NetworkClient {
  import opened Common
  import opened Session
  import opened FrameReader

  class NetworkClientImpl {
    var connectState: ConnectState
    var isEncrypted: bool
    /** Whether `crypto_` exists. */
    var crypto: bool
    var writeQueue: seq<WireFrame>
    /** The posted tasks; `pending_tasks_count_` is their number. */
    var tasks: seq<Task>
    var reconnectTimer: Timer
    var connectTimeoutTimer: Timer
    // The io_context's side: what is in flight.
    var readers: multiset<nat>
    var writes: nat
    var resolves: nat
    var connects: nat
    // History.
    var session: nat
    var losses: nat
    ghost var log: seq<Entry>

    ghost function Abs(): State
      reads this
    {
      State(connectState, isEncrypted, crypto, writeQueue, tasks, session, losses, readers, writes,
            reconnectTimer, connectTimeoutTimer, resolves, connects, log)
    }

    constructor ()
      ensures Abs() == INITIAL
    {
      connectState, isEncrypted, crypto := Disconnected, false, false;
      writeQueue, tasks := [], [];
      reconnectTimer, connectTimeoutTimer := Timer(false, 0), Timer(false, 0);
      readers, writes, resolves, connects := multiset{}, 0, 0, 0;
      session, losses, log := 0, 0, [];
    }

    predicate IsConnected()
      reads this
    {
      connectState == Connected
    }

    method PostTask(t: Task)
      modifies this`tasks
      ensures Abs() == Session.PostTask(old(Abs()), t)
    {
      if |tasks| >= MAX_PENDING_TASKS {
        return;
      }
      tasks := tasks + [t];
    }

    method ClearTimers()
      modifies this`connectTimeoutTimer, this`reconnectTimer
      ensures Abs() == Session.ClearTimers(old(Abs()))
    {
      connectTimeoutTimer := connectTimeoutTimer.(armed := false);
      reconnectTimer := reconnectTimer.(armed := false);
    }

    method StartReconnectTimer()
      modifies this`connectState, this`reconnectTimer
      ensures Abs() == Session.StartReconnectTimer(old(Abs()))
    {
      if connectState == Connecting || connectState == Connected {
        return;
      }
      connectState := Connecting;
      reconnectTimer := reconnectTimer.(armed := true);
    }

    method SessionStop()
      modifies this`isEncrypted, this`crypto, this`writeQueue, this`log
      ensures Abs() == Session.SessionStop(old(Abs()))
    {
      if !IsConnected() {
        return;
      }
      log := log + [Stopped(writeQueue)];
      isEncrypted := false;
      crypto := false;
      writeQueue := [];
    }

    method Disconnect(needReconnect: bool)
      modifies this
      ensures Abs() == Session.Disconnect(old(Abs()), needReconnect)
    {
      hide Session.StartReconnectTimer;
      if connectState == Disconnected {
        StartReconnectTimer();
        return;
      }
      ClearTimers();
      SessionStop();
      connectState := Disconnected;
      losses := losses + 1; // OnDisconnect
      if needReconnect {
        StartReconnectTimer();
      }
    }

    /** session_handle_error, and the callback the constructor installs. */
    method SessionHandleError(e: Err, critical: bool)
      modifies this
      ensures Abs() == HandleError(old(Abs()), e, critical)
    {
      hide Session.Disconnect, CloseDecision;
      if CloseDecision(e, critical) == CloseNone {
        return;
      }
      Disconnect(true);
    }

    method SessionHandleActivityError(again: Task, e: Err)
      modifies this
      ensures Abs() == HandleActivityError(old(Abs()), again, e)
    {
      hide HandleError, CloseDecision, Session.PostTask;
      if CloseDecision(e, false) == CloseNone {
        if IsConnected() {
          PostTask(again);
        }
      }
      SessionHandleError(e, false);
    }

    method Connect()
      modifies this
      ensures Abs() == Session.Connect(old(Abs()))
    {
      if IsConnected() {
        return;
      }
      connectState := Connecting;
      connectTimeoutTimer := connectTimeoutTimer.(armed := true);
      resolves := resolves + 1;
    }

    method SessionStart() returns (ok: bool)
      modifies this
      ensures Abs() == Session.SessionStart(old(Abs()))
      ensures ok <==> old(connectState) != Connected
    {
      if IsConnected() {
        SessionHandleError(PROTOCOL, false);
        return false;
      }
      connectState := Connected;
      ClearTimers();
      session := session + 1;
      log := log + [Started(session)];
      PostTask(ReadTask(session));
      return true;
    }

    method ReconnectExpires()
      modifies this`reconnectTimer
      ensures Abs() == Session.ReconnectExpires(old(Abs()))
    {
      if reconnectTimer.armed {
        reconnectTimer := Timer(false, reconnectTimer.fired + 1);
      }
    }

    method TimeoutExpires()
      modifies this`connectTimeoutTimer
      ensures Abs() == Session.TimeoutExpires(old(Abs()))
    {
      if connectTimeoutTimer.armed {
        connectTimeoutTimer := Timer(false, connectTimeoutTimer.fired + 1);
      }
    }

    method ReconnectFired(ok: bool)
      modifies this
      ensures Abs() == Session.ReconnectFired(old(Abs()), ok)
    {
      hide HandleError, Session.Connect;
      if reconnectTimer.fired == 0 {
        return;
      }
      reconnectTimer := reconnectTimer.(fired := reconnectTimer.fired - 1);
      if !ok {
        SessionHandleError(PROTOCOL, true);
      }
      Connect();
    }

    method TimeoutFired(ok: bool)
      modifies this
      ensures Abs() == Session.TimeoutFired(old(Abs()), ok)
    {
      hide HandleError;
      if connectTimeoutTimer.fired == 0 {
        return;
      }
      connectTimeoutTimer := connectTimeoutTimer.(fired := connectTimeoutTimer.fired - 1);
      if ok {
        SessionHandleError(Err(NoError, false, false), true);
      }
      if connectState != Connected {
        connectState := Disconnected;
        SessionHandleError(PROTOCOL, true);
      }
    }

    method Resolved(r: Resolution)
      modifies this
      ensures Abs() == Session.Resolved(old(Abs()), r)
    {
      hide HandleError;
      if resolves == 0 {
        return;
      }
      resolves := resolves - 1;
      match r {
        case ResolveFailed(e) => SessionHandleError(e, true);
        case NoIPv4 => SessionHandleError(NO_IPV4, false);
        case Found => connects := connects + 1;
      }
    }

    method ConnectDone(r: Connection)
      modifies this
      ensures Abs() == Session.ConnectDone(old(Abs()), r)
    {
      hide HandleError, Session.SessionStart;
      if connects == 0 {
        return;
      }
      connects := connects - 1;
      match r {
        case ConnectFailed(e) => SessionHandleError(e, true);
        case NotOpen => SessionHandleError(PROTOCOL, true);
        case Opened =>
          var started := SessionStart();
          if !started {
            SessionHandleError(PROTOCOL, true);
          }
      }
    }

    method SessionWrite()
      modifies this
      ensures Abs() == Session.SessionWrite(old(Abs()))
    {
      if writeQueue == [] {
        return;
      }
      var currentPacket := writeQueue[0];
      writeQueue := writeQueue[1..];
      if currentPacket.data == [] {
        if writeQueue != [] {
          PostTask(WriteTask);
        }
        return;
      }
      log := log + [Issued(currentPacket)];
      writes := writes + 1;
    }

    method RunTask()
      modifies this
      ensures Abs() == Session.RunTask(old(Abs()))
    {
      hide Session.SessionWrite;
      if tasks == [] {
        return;
      }
      var task := tasks[0];
      tasks := tasks[1..];
      match task {
        case ReadTask(k) =>
          if IsConnected() {
            readers := readers + multiset{k};
          }
        case WriteTask => SessionWrite();
        case WriteAgainTask =>
          if writeQueue != [] {
            SessionWrite();
          }
      }
    }

    method WriteDone(e: Option<Err>)
      modifies this
      ensures Abs() == Session.WriteDone(old(Abs()), e)
    {
      hide HandleActivityError, Session.PostTask;
      if writes == 0 {
        return;
      }
      writes := writes - 1;
      if e.Some? {
        SessionHandleActivityError(WriteAgainTask, e.value);
        return;
      }
      if !IsConnected() {
        return;
      }
      if writeQueue != [] {
        PostTask(WriteTask);
      }
    }

    method TakeRead(k: nat)
      requires readers[k] > 0
      modifies this`readers
      ensures Abs() == Session.TakeRead(old(Abs()), k)
    {
      readers := readers - multiset{k};
    }

    method ReadFailed(k: nat, e: Err, inBody: bool)
      modifies this
      ensures Abs() == Session.ReadFailed(old(Abs()), k, e, inBody)
    {
      hide HandleActivityError, Session.TakeRead;
      if readers[k] == 0 {
        return;
      }
      TakeRead(k);
      if inBody && !IsConnected() {
        return;
      }
      SessionHandleActivityError(ReadTask(k), e);
    }

    method ReadMalformed(k: nat)
      modifies this
      ensures Abs() == Session.ReadMalformed(old(Abs()), k)
    {
      hide HandleActivityError, Session.TakeRead;
      if readers[k] == 0 {
        return;
      }
      TakeRead(k);
      if !IsConnected() {
        return;
      }
      SessionHandleActivityError(ReadTask(k), PROTOCOL);
    }

    method ReadUnknown(k: nat)
      modifies this`readers
      ensures Abs() == Session.ReadUnknown(old(Abs()), k)
    {
      if readers[k] != 0 {
        TakeRead(k);
      }
    }

    method ReadHandled(k: nat, ok: bool)
      modifies this
      ensures Abs() == Session.ReadHandled(old(Abs()), k, ok)
    {
      hide HandleActivityError, Session.PostTask;
      if !ok {
        SessionHandleActivityError(ReadTask(k), PROTOCOL);
        return;
      }
      PostTask(ReadTask(k));
    }

    /** Send; `encOk`: the encryption, which replaces the bytes in place, succeeds. */
    method Send(v: ByteVector, encrypt: bool, encOk: bool) returns (res: SendResult)
      modifies this, v
      ensures SendOutcome(Abs(), res, v.data) == Session.Send(old(Abs()), old(v.data), encrypt, encOk)
    {
      if v.data == [] || v.data[0] == 0 {
        SessionHandleError(PROTOCOL, false);
        return EmptyPacket;
      }
      if !IsConnected() {
        SessionHandleError(PROTOCOL, false);
        return NotConnected;
      }
      var frame := WireFrame(v.data, false);
      if encrypt && isEncrypted && crypto {
        if !encOk {
          SessionHandleError(PROTOCOL, false);
          return EncryptionFailed;
        }
        frame := frame.(isSealed := true);
      }
      if |writeQueue| >= MAX_WRITE_QUEUE_SIZE {
        log := log + [DroppedOldest(writeQueue[0])];
        writeQueue := writeQueue[1..];
      } else {
        assert log + [] == log;
      }
      log := log + [Accepted(frame, encrypt)];
      writeQueue := writeQueue + [frame];
      v.data := [];
      PostTask(WriteTask);
      return Success;
    }

    /** session_enable_encryption up to OnEnabledEnc, whose call `begins` announces. */
    method SessionEnableEncryption(keyOk: bool) returns (ok: bool, begins: bool)
      modifies this`isEncrypted, this`crypto, this`log
      ensures EnableOutcome(Abs(), ok, begins) == EnableEncryption(old(Abs()), keyOk)
    {
      if isEncrypted {
        return true, false;
      }
      if !keyOk {
        return false, false;
      }
      crypto := true;
      isEncrypted := true;
      log := log + [EncryptionOn];
      return true, true;
    }

    /** The end of a DoWork tick. */
    method TickEnd()
      modifies this
      ensures Abs() == Session.TickEnd(old(Abs()))
      ensures connectState != Disconnected
    {
      if connectState == Disconnected {
        StartReconnectTimer();
      }
    }
  }
}
