/**
 * The abstract state of a WT13106 (Boogy Board) device connection and the
 * transition performed by each of its public operations.
 *
 * The connection is a two-state machine (disconnected / connected) that also
 * remembers the message of the last error. Every operation checks the flag,
 * and sometimes the emptiness of its input, and then either records one of a
 * fixed set of error messages or changes state and clears the error. The
 * transport work (USB, serial, sockets) is absent from the modelled code, so
 * nothing here talks to a device.
 */
module ConnectionSpec {

  /** An unsigned 8-bit value, the element type of commands and responses. */
  type Byte = b: int | 0 <= b < 0x100

  /** An unsigned 32-bit value, the type of a timeout in milliseconds. */
  type Uint32 = n: int | 0 <= n < 0x1_0000_0000

  // The fixed error messages an operation may record.
  const AlreadyConnectedError: string := "Already connected"
  const ConnectionStringEmptyError: string := "Connection string is empty"
  const NotConnectedError: string := "Not connected"
  const NotConnectedToDeviceError: string := "Not connected to device"
  const CommandEmptyError: string := "Command is empty"

  /** Every value the last-error message can take: no error, or one of the messages above. */
  const KnownErrors: set<string> := {
    "", AlreadyConnectedError, ConnectionStringEmptyError, NotConnectedError,
    NotConnectedToDeviceError, CommandEmptyError
  }

  /** The three member fields of a connection object. */
  datatype State = State(connectionString: string, connected: bool, lastError: string)

  /** The outcome of an operation that answers with a success flag. */
  datatype Flagged = Flagged(ok: bool, next: State)

  /** The outcome of an operation that answers with the bytes it received. */
  datatype Received = Received(response: seq<Byte>, next: State)

  /** The state of a newly constructed connection. */
  function Init(connectionString: string): (s: State)
    ensures s.connectionString == connectionString
    ensures !s.connected && s.lastError == ""
  {
    State(connectionString, false, "")
  }

  /**
   * The helper that `connect` calls before connecting: it refuses an empty
   * connection string and otherwise leaves the state alone (it does not
   * clear the last error).
   */
  function InitializeConnection(s: State): (r: Flagged)
    ensures r.ok <==> s.connectionString != ""
    ensures r.ok ==> r.next == s
    ensures !r.ok ==> r.next.connected == s.connected && r.next.connectionString == s.connectionString
    ensures !r.ok ==> r.next.lastError == ConnectionStringEmptyError
  {
    if s.connectionString == "" then
      Flagged(false, s.(lastError := ConnectionStringEmptyError))
    else
      Flagged(true, s)
  }

  /** Open the connection. */
  function Connect(s: State): (r: Flagged)
    ensures r.next.connectionString == s.connectionString
    ensures r.ok <==> !s.connected && s.connectionString != ""
    ensures r.next.connected <==> s.connected || r.ok
    ensures r.ok ==> r.next.lastError == ""
    ensures !r.ok && s.connected ==> r.next.lastError == AlreadyConnectedError
    ensures !r.ok && !s.connected ==> r.next.lastError == ConnectionStringEmptyError
  {
    if s.connected then
      Flagged(false, s.(lastError := AlreadyConnectedError))
    else
      var init := InitializeConnection(s);
      if !init.ok then
        init
      else
        Flagged(true, init.next.(connected := true, lastError := ""))
  }

  /** Close the connection; the resource cleanup it calls does nothing. */
  function Disconnect(s: State): (r: Flagged)
    ensures r.next.connectionString == s.connectionString
    ensures r.ok <==> s.connected
    ensures !r.next.connected
    ensures r.next.lastError == (if r.ok then "" else NotConnectedError)
  {
    if !s.connected then
      Flagged(false, s.(lastError := NotConnectedError))
    else
      Flagged(true, s.(connected := false, lastError := ""))
  }

  /** Send a command; the bytes themselves go nowhere. */
  function SendCommand(s: State, command: seq<Byte>): (r: Flagged)
    ensures r.next.connectionString == s.connectionString
    ensures r.next.connected == s.connected
    ensures r.ok <==> s.connected && command != []
    ensures r.ok ==> r.next.lastError == ""
    ensures !s.connected ==> r.next.lastError == NotConnectedToDeviceError
    ensures s.connected && command == [] ==> r.next.lastError == CommandEmptyError
  {
    if !s.connected then
      Flagged(false, s.(lastError := NotConnectedToDeviceError))
    else if command == [] then
      Flagged(false, s.(lastError := CommandEmptyError))
    else
      Flagged(true, s.(lastError := ""))
  }

  /**
   * Receive a response. Nothing is ever read, so the response is empty
   * whatever the state and the timeout; the only effect is on the last error.
   */
  function ReceiveResponse(s: State, timeoutMs: Uint32): (r: Received)
    ensures r.response == []
    ensures r.next.connectionString == s.connectionString
    ensures r.next.connected == s.connected
    ensures r.next.lastError == "" <==> s.connected
    ensures !s.connected ==> r.next.lastError == NotConnectedToDeviceError
  {
    var response := [];
    if !s.connected then
      Received(response, s.(lastError := NotConnectedToDeviceError))
    else
      Received(response, s.(lastError := ""))
  }

  /**
   * Send a command and, only if that succeeded, receive a response. Because
   * a successful send leaves the connection connected with no error, the
   * receive that follows it changes nothing: the composite has exactly the
   * effect of the send alone, and answers with no bytes.
   */
  function SendCommandAndReceive(s: State, command: seq<Byte>, timeoutMs: Uint32): (r: Received)
    ensures r == Received([], SendCommand(s, command).next)
    ensures r.next.lastError == "" <==> s.connected && command != []
  {
    var sent := SendCommand(s, command);
    if !sent.ok then
      Received([], sent.next)
    else
      ReceiveResponse(sent.next, timeoutMs)
  }

  /** The destructor: a connected object is disconnected first. */
  function Teardown(s: State): (r: State)
    ensures !r.connected
    ensures r.connectionString == s.connectionString
    ensures s.connected ==> r.lastError == ""
    ensures !s.connected ==> r == s
  {
    if s.connected then Disconnect(s).next else s
  }

  /** A second disconnect in a row reports "Not connected" and changes only the message. */
  lemma DisconnectTwice(s: State)
    ensures var once := Disconnect(s); var twice := Disconnect(once.next);
      && !twice.ok
      && twice.next == once.next.(lastError := NotConnectedError)
  {
  }

  /** The timeout given to `receiveResponse` has no influence on what it does. */
  lemma ReceiveIgnoresTimeout(s: State, t1: Uint32, t2: Uint32)
    ensures ReceiveResponse(s, t1) == ReceiveResponse(s, t2)
    ensures forall c :: SendCommandAndReceive(s, c, t1) == SendCommandAndReceive(s, c, t2)
  {
  }

  /**
   * The message left by an operation never depends on the message that was
   * there before: every state-changing operation overwrites it.
   */
  lemma OperationsOverwriteLastError(s: State, e: string, command: seq<Byte>, timeoutMs: Uint32)
    ensures Connect(s.(lastError := e)) == Connect(s)
    ensures Disconnect(s.(lastError := e)) == Disconnect(s)
    ensures SendCommand(s.(lastError := e), command) == SendCommand(s, command)
    ensures ReceiveResponse(s.(lastError := e), timeoutMs) == ReceiveResponse(s, timeoutMs)
    ensures SendCommandAndReceive(s.(lastError := e), command, timeoutMs) == SendCommandAndReceive(s, command, timeoutMs)
  {
  }
}
