/**
 * The client's session machine (Source/Raw/raw_client.*, raw_session.cpp, Network/error_handler.cpp)
 * as functions on its state: connection state, two timers, the posted tasks, the reads and writes
 * in flight and the write queue. Every operation of the machine is here, with what it keeps.
 */
module Session {
  import opened Common

  const MAX_PENDING_TASKS: nat := 100000
  const MAX_WRITE_QUEUE_SIZE: nat := 100000

  datatype ConnectState = Connected | Connecting | Disconnected

  /** A frame handed to the socket: the packet and whether `crypto_` encrypted it. */
  datatype WireFrame = WireFrame(data: Bytes, isSealed: bool)

  /** The posted lambdas. `session` is the session that began the read chain. */
  datatype Task = ReadTask(session: nat) | WriteTask | WriteAgainTask

  /** A steady_timer: a wait that is pending, and expired waits whose handlers are still queued. */
  datatype Timer = Timer(armed: bool, fired: nat)

  /** What happened, in order; only accepted frames carry what the caller asked for. */
  datatype Entry =
    | Started(session: nat)
    | EncryptionOn
    | Accepted(frame: WireFrame, wanted: bool)
    | Issued(frame: WireFrame)
    | DroppedOldest(frame: WireFrame)
    | Stopped(discarded: seq<WireFrame>)

  /**
   * `session` counts the sessions started and `losses` the calls of OnDisconnect; `readers` holds the
   * read chains in flight, `writes`, `resolves` and `connects` count asynchronous operations.
   */
  datatype State = State(
    conn: ConnectState,
    encrypted: bool,
    crypto: bool,
    queue: seq<WireFrame>,
    tasks: seq<Task>,
    session: nat,
    losses: nat,
    readers: multiset<nat>,
    writes: nat,
    reconnect: Timer,
    timeout: Timer,
    resolves: nat,
    connects: nat,
    log: seq<Entry>)

  const INITIAL := State(Disconnected, false, false, [], [], 0, 0, multiset{}, 0, Timer(false, 0), Timer(false, 0), 0, 0, [])

  // ----- Which errors close the session -----

  datatype ErrorCode =
    | NoError | ConnectionReset | ConnectionAborted | NetworkDown | BrokenPipe | OperationAborted | ShutDown
    | Eof | ConnectionRefused | TimedOut | HostUnreachable | NetworkUnreachable
    | AddressFamilyNotSupported | ProtocolError | OtherError

  /** An error code with what its message text contains: a phrase of closing, or "end of file". */
  datatype Err = Err(code: ErrorCode, tellsClosed: bool, tellsEof: bool)

  datatype CloseType = CloseNone | CloseUser | CloseSystem

  /** adjustShouldCloseSession; `critical`: the operation's name contains "critical:". */
  function CloseDecision(e: Err, critical: bool): CloseType {
    if e.code.ConnectionReset? || e.code.ConnectionAborted? || e.code.NetworkDown? || e.code.BrokenPipe?
       || e.code.OperationAborted? || e.code.ShutDown? then CloseSystem
    else if e.tellsClosed then CloseSystem
    else if critical then CloseSystem
    else if e.code.Eof? || e.tellsEof then CloseUser
    else CloseNone
  }

  const PROTOCOL := Err(ProtocolError, false, false)
  const NO_IPV4 := Err(AddressFamilyNotSupported, false, false)

  // ----- Operations -----

  function Logged(s: State, e: Entry): State { s.(log := s.log + [e]) }

  /** At the cap a task is silently not posted. */
  function Posted(tasks: seq<Task>, t: Task): seq<Task> {
    if |tasks| >= MAX_PENDING_TASKS then tasks else tasks + [t]
  }

  function PostTask(s: State, t: Task): State { s.(tasks := Posted(s.tasks, t)) }

  function ClearTimers(s: State): State {
    s.(timeout := s.timeout.(armed := false), reconnect := s.reconnect.(armed := false))
  }

  function StartReconnectTimer(s: State): State {
    if s.conn.Connecting? || s.conn.Connected? then s
    else s.(conn := Connecting, reconnect := s.reconnect.(armed := true))
  }

  /** session_stop */
  function SessionStop(s: State): State {
    if !s.conn.Connected? then s
    else Logged(s, Stopped(s.queue)).(encrypted := false, crypto := false, queue := [])
  }

  function Disconnect(s: State, needReconnect: bool): State {
    if s.conn.Disconnected? then StartReconnectTimer(s)
    else
      var s1 := SessionStop(ClearTimers(s));
      var s2 := s1.(conn := Disconnected, losses := s1.losses + 1);
      if needReconnect then StartReconnectTimer(s2) else s2
  }

  /** session_handle_error without an activity. */
  function HandleError(s: State, e: Err, critical: bool): State {
    if CloseDecision(e, critical).CloseNone? then s else Disconnect(s, true)
  }

  /** session_handle_error for a read or write: recoverable errors continue the activity. */
  function HandleActivityError(s: State, again: Task, e: Err): State {
    var s1 := if CloseDecision(e, false).CloseNone? && s.conn.Connected? then PostTask(s, again) else s;
    HandleError(s1, e, false)
  }

  function Connect(s: State): State {
    if s.conn.Connected? then s
    else s.(conn := Connecting, timeout := s.timeout.(armed := true), resolves := s.resolves + 1)
  }

  /** session_start */
  function SessionStart(s: State): State {
    if s.conn.Connected? then HandleError(s, PROTOCOL, false)
    else
      var s1 := ClearTimers(s).(conn := Connected, session := s.session + 1);
      PostTask(Logged(s1, Started(s1.session)), ReadTask(s1.session))
  }

  // Handlers the io_context runs. An operation that is not under way has no handler to run.

  function ReconnectExpires(s: State): State {
    if !s.reconnect.armed then s else s.(reconnect := Timer(false, s.reconnect.fired + 1))
  }

  function TimeoutExpires(s: State): State {
    if !s.timeout.armed then s else s.(timeout := Timer(false, s.timeout.fired + 1))
  }

  /** The handler of the reconnect timer; `ok`: its error code is zero. */
  function ReconnectFired(s: State, ok: bool): State {
    if s.reconnect.fired == 0 then s
    else
      var s1 := s.(reconnect := s.reconnect.(fired := s.reconnect.fired - 1));
      Connect(if ok then s1 else HandleError(s1, PROTOCOL, true))
  }

  /** The handler of the connect timer; it reports an error precisely when it has none. */
  function TimeoutFired(s: State, ok: bool): State {
    if s.timeout.fired == 0 then s
    else
      var s1 := s.(timeout := s.timeout.(fired := s.timeout.fired - 1));
      var s2 := if ok then HandleError(s1, Err(NoError, false, false), true) else s1;
      if s2.conn.Connected? then s2 else HandleError(s2.(conn := Disconnected), PROTOCOL, true)
  }

  datatype Resolution = ResolveFailed(e: Err) | NoIPv4 | Found

  function Resolved(s: State, r: Resolution): State {
    if s.resolves == 0 then s
    else
      var s1 := s.(resolves := s.resolves - 1);
      match r
      case ResolveFailed(e) => HandleError(s1, e, true)
      case NoIPv4 => HandleError(s1, NO_IPV4, false)
      case Found => s1.(connects := s1.connects + 1)
  }

  datatype Connection = ConnectFailed(e: Err) | NotOpen | Opened

  function ConnectDone(s: State, r: Connection): State {
    if s.connects == 0 then s
    else
      var s1 := s.(connects := s.connects - 1);
      match r
      case ConnectFailed(e) => HandleError(s1, e, true)
      case NotOpen => HandleError(s1, PROTOCOL, true)
      case Opened => if s1.conn.Connected? then HandleError(SessionStart(s1), PROTOCOL, true) else SessionStart(s1)
  }

  /** session_write */
  function SessionWrite(s: State): State {
    if s.queue == [] then s
    else
      var f := s.queue[0];
      var s1 := s.(queue := s.queue[1..]);
      if f.data == [] then (if s1.queue != [] then PostTask(s1, WriteTask) else s1)
      else Logged(s1, Issued(f)).(writes := s1.writes + 1)
  }

  function RunTask(s: State): State {
    if s.tasks == [] then s
    else
      var s1 := s.(tasks := s.tasks[1..]);
      match s.tasks[0]
      case ReadTask(k) => if s1.conn.Connected? then s1.(readers := s1.readers + multiset{k}) else s1
      case WriteTask => SessionWrite(s1)
      case WriteAgainTask => if s1.queue != [] then SessionWrite(s1) else s1
  }

  function WriteDone(s: State, e: Option<Err>): State {
    if s.writes == 0 then s
    else
      var s1 := s.(writes := s.writes - 1);
      match e
      case Some(err) => HandleActivityError(s1, WriteAgainTask, err)
      case None => if s1.conn.Connected? && s1.queue != [] then PostTask(s1, WriteTask) else s1
  }

  function TakeRead(s: State, k: nat): State
    requires s.readers[k] > 0
  {
    s.(readers := s.readers - multiset{k})
  }

  /** A read fails; reads of a packet's body look at the connection before the error code. */
  function ReadFailed(s: State, k: nat, e: Err, inBody: bool): State {
    if s.readers[k] == 0 then s
    else
      var s1 := TakeRead(s, k);
      if inBody && !s1.conn.Connected? then s1 else HandleActivityError(s1, ReadTask(k), e)
  }

  /** A sealed frame with an impossible size, or one that does not decrypt. */
  function ReadMalformed(s: State, k: nat): State {
    if s.readers[k] == 0 then s
    else
      var s1 := TakeRead(s, k);
      if !s1.conn.Connected? then s1 else HandleActivityError(s1, ReadTask(k), PROTOCOL)
  }

  /** A packet with a header the reader does not know: the chain is not continued. */
  function ReadUnknown(s: State, k: nat): State {
    if s.readers[k] == 0 then s else TakeRead(s, k)
  }

  /** The end of packet_handle, once OnDataReceived has returned `ok`. */
  function ReadHandled(s: State, k: nat, ok: bool): State {
    if ok then PostTask(s, ReadTask(k)) else HandleActivityError(s, ReadTask(k), PROTOCOL)
  }

  datatype SendResult = Success | EmptyPacket | NotConnected | EncryptionFailed

  /** What Send leaves in the caller's buffer: on success it has been moved out. */
  datatype SendOutcome = SendOutcome(s: State, res: SendResult, data: Bytes)

  /** "Prevent unbounded queue growth": a full queue gives up its oldest frame. */
  function RoomIn(queue: seq<WireFrame>): seq<WireFrame> {
    if |queue| >= MAX_WRITE_QUEUE_SIZE then queue[1..] else queue
  }

  function RoomLog(queue: seq<WireFrame>): seq<Entry> {
    if |queue| >= MAX_WRITE_QUEUE_SIZE then [DroppedOldest(queue[0])] else []
  }

  /** The end of Send: the frame is queued and its writing posted. */
  function Enqueue(s: State, f: WireFrame, wanted: bool): State {
    s.(queue := RoomIn(s.queue) + [f],
       log := s.log + RoomLog(s.queue) + [Accepted(f, wanted)],
       tasks := Posted(s.tasks, WriteTask))
  }

  predicate Sendable(data: Bytes) { data != [] && data[0] != 0 }

  /** Whether Send encrypts. */
  predicate Encrypting(s: State, encrypt: bool) { encrypt && s.encrypted && s.crypto }

  /** Send; `encOk`: encryption succeeds if it comes to that. */
  function Send(s: State, data: Bytes, encrypt: bool, encOk: bool): SendOutcome {
    if !Sendable(data) then SendOutcome(HandleError(s, PROTOCOL, false), EmptyPacket, data)
    else if !s.conn.Connected? then SendOutcome(HandleError(s, PROTOCOL, false), NotConnected, data)
    else if Encrypting(s, encrypt) && !encOk then SendOutcome(HandleError(s, PROTOCOL, false), EncryptionFailed, data)
    else SendOutcome(Enqueue(s, WireFrame(data, Encrypting(s, encrypt)), encrypt), Success, [])
  }

  /** session_enable_encryption up to its call of OnEnabledEnc; the last part says whether that call follows. */
  datatype EnableOutcome = EnableOutcome(s: State, ok: bool, begins: bool)

  function EnableEncryption(s: State, keyOk: bool): EnableOutcome {
    if s.encrypted then EnableOutcome(s, true, false)
    else if !keyOk then EnableOutcome(s, false, false)
    else EnableOutcome(Logged(s, EncryptionOn).(encrypted := true, crypto := true), true, true)
  }

  /** The end of a DoWork tick. */
  function TickEnd(s: State): State { if s.conn.Disconnected? then StartReconnectTimer(s) else s }
}
