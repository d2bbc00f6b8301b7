# WT13106Connection in Dafny

A model of the connection object of the Sync-VDC Boogy Board client,
`WT13106Connection` in `src/WT13106Connection.cpp`. The object has three
fields: the connection string, set once by the constructor; the connected
flag; and the last-error message. Every public method is a guarded
transition. It checks the flag, and sometimes whether its input is empty.
Then it either records a fixed error message and fails (returning `false`
or an empty byte vector), or changes state and clears the message. In this
file the transport work (USB bulk transfers, `WriteFile`/`ReadFile`,
sockets, handle cleanup) exists only as comments. What is left is control
logic, and the model captures all of it.

The project has three modules:

- `ConnectionSpec` (`connection_spec.dfy`): the fields as a value (`State`).
  It has one function per operation, giving the success flag or response
  together with the next state. Their contracts state each guard both ways,
  each error message, and what stays unchanged. It also has lemmas relating
  operations: a second disconnect, timeout independence, and the fact that
  every operation overwrites the last error.
- `Connection` (`connection.dfy`): the class `WT13106Connection`. Its
  fields are updated in place, as in the C++ class `WT13106Connection`.
  The connection string is a `const`, so no method can write it. Each mutating method is proved to
  have exactly the effect of its `ConnectionSpec` function on `View()`. The
  accessors have no `modifies` clause, so they cannot change the object.
  `Session` drives one object through connect, send, receive (2000 ms),
  disconnect, then a second send. Connect is the call the usage example
  makes before its read loop; send, receive (2000 ms) and disconnect are the
  calls it makes after that loop; the second send is added.
- `ConnectionTraces` (`traces.dfy`): histories of calls after construction.
  Its lemmas are proved by induction over the history:
  - the connection string never changes;
  - the object is connected exactly when the most recent connect/disconnect
    call was a connect and the string is non-empty;
  - hence a send succeeds exactly when the link is up and the command is
    non-empty;
  - every reachable state keeps the invariant "connected implies a non-empty
    string, and the last error is one of the known messages";
  - a loop of `isConnected`/`receiveResponse` calls keeps a connected object
    connected and receives no bytes. So with this file, the usage example's
    read loop (`while (device.isConnected())`, which stops only after 100
    non-empty samples) never ends.

The header `Sync VDC/include/WT13106Connection.h` and the second
implementation `Sync VDC/src/WT13106Connection.cpp` describe more than this
file does: `BT:`/`USB:` connection strings, a real serial port, and reads
that return data. The modelled file does none of that. The model follows the
modelled file: `connect` only rejects an empty string, and
`receiveResponse` always answers with no bytes.

The modelled file defines `initializeConnection`, which the header it
includes does not declare. The header's private section declares
`parseConnectionString`, `initializeBluetooth` and `initializeUSB` instead.
So as written the file does not compile against that header. The model
treats `initializeConnection` as a helper of `connect`, as the file uses it.

## Model

| member | source | states |
|---|---|---|
| `ConnectionSpec.Init` | src/WT13106Connection.cpp:10-15 | the state of a new object holds the given string, is disconnected, and has an empty last error |
| `ConnectionSpec.InitializeConnection` | src/WT13106Connection.cpp:161-176 | succeeds exactly when the connection string is non-empty. On success the state is untouched (the last error is not cleared). On failure only the message changes, to "Connection string is empty" |
| `ConnectionSpec.Connect` | src/WT13106Connection.cpp:24-55 | succeeds exactly when it was disconnected and the string is non-empty. Afterwards it is connected exactly when it was already connected or it succeeded. On success the error is cleared. When already connected the error is "Already connected"; otherwise it is "Connection string is empty". The string is unchanged |
| `ConnectionSpec.Disconnect` | src/WT13106Connection.cpp:57-68 | succeeds exactly when it was connected, and is always disconnected afterwards. The error is cleared on success and "Not connected" otherwise. The string is unchanged |
| `ConnectionSpec.SendCommand` | src/WT13106Connection.cpp:75-104 | succeeds exactly when connected and the command is non-empty. The connected flag and the string are unchanged. The error is "Not connected to device" when disconnected, "Command is empty" for an empty command while connected, and cleared on success |
| `ConnectionSpec.ReceiveResponse` | src/WT13106Connection.cpp:106-143 | the response is always empty, and the flag and the string are unchanged. The error is cleared exactly when connected; otherwise it is "Not connected to device" |
| `ConnectionSpec.SendCommandAndReceive` | src/WT13106Connection.cpp:145-154 | answers with no bytes and leaves exactly the state that the send alone leaves. After a failed send the receive is not reached, so the send's error stays. The error is cleared exactly when connected with a non-empty command |
| `ConnectionSpec.Teardown` | src/WT13106Connection.cpp:17-22 | afterwards the object is disconnected and the string is unchanged. A connected object ends with no error. A disconnected object is left exactly as it was |
| `ConnectionSpec.DisconnectTwice` | src/WT13106Connection.cpp:57-68 | a second disconnect in a row fails, and changes only the message, to "Not connected" |
| `ConnectionSpec.ReceiveIgnoresTimeout` | src/WT13106Connection.cpp:106-154 | `receiveResponse` and `sendCommandAndReceive` give the same result and state for any two timeouts |
| `ConnectionSpec.OperationsOverwriteLastError` | src/WT13106Connection.cpp:24-154 | the result and next state of connect, disconnect, send, receive and send-and-receive do not depend on the previous message |
| `Connection.WT13106Connection.constructor` | src/WT13106Connection.cpp:10-15 | a new object holds the given string, is disconnected, and has an empty last error |
| `Connection.WT13106Connection.Teardown` | src/WT13106Connection.cpp:17-22 | the fields afterwards are `ConnectionSpec.Teardown` of the fields before (disconnect only if connected) |
| `Connection.WT13106Connection.Connect` | src/WT13106Connection.cpp:24-55 | the result and the new fields are those of `ConnectionSpec.Connect` on the old fields |
| `Connection.WT13106Connection.Disconnect` | src/WT13106Connection.cpp:57-68 | the result and the new fields are those of `ConnectionSpec.Disconnect` on the old fields |
| `Connection.WT13106Connection.IsConnected` | src/WT13106Connection.cpp:70-73 | returns the connected flag. It has no `modifies` clause, so the object is unchanged |
| `Connection.WT13106Connection.SendCommand` | src/WT13106Connection.cpp:75-104 | the result and the new fields are those of `ConnectionSpec.SendCommand` on the old fields |
| `Connection.WT13106Connection.ReceiveResponse` | src/WT13106Connection.cpp:106-143 | the response and the new fields are those of `ConnectionSpec.ReceiveResponse` on the old fields |
| `Connection.WT13106Connection.SendCommandAndReceive` | src/WT13106Connection.cpp:145-154 | the response and the new fields are those of `ConnectionSpec.SendCommandAndReceive`. Proved from the two method calls it makes, with the receive skipped after a failed send |
| `Connection.WT13106Connection.GetLastError` | src/WT13106Connection.cpp:156-159 | returns the last-error message. It has no `modifies` clause, so the object is unchanged |
| `Connection.WT13106Connection.CleanupConnection` | src/WT13106Connection.cpp:178-182 | the empty cleanup body: the object is unchanged, and the method has no `modifies` clause, so it changes nothing |
| `Connection.WT13106Connection.InitializeConnection` | src/WT13106Connection.cpp:161-176 | may write only the last error; its result and new fields are those of `ConnectionSpec.InitializeConnection` |
| `Connection.Session` | src/WT13106Connection.cpp:24-159 | on a "BT:COM5" object, connect and a four-byte send succeed, and a 2000 ms receive answers with no bytes. Connect is the call the usage example makes before its read loop; send, receive and disconnect are the calls it makes after that loop. After a disconnect, an added second send fails with "Not connected to device" |
| `ConnectionTraces.RunKeepsConnectionString` | src/WT13106Connection.cpp:10-182 | no history of calls changes the connection string |
| `ConnectionTraces.StepKeepsInvariant` | src/WT13106Connection.cpp:24-159 | every call keeps two facts: connected implies a non-empty string, and the last error is empty or one of the five fixed messages |
| `ConnectionTraces.ReachableInvariant` | src/WT13106Connection.cpp:10-176 | every state reachable from the constructor satisfies that invariant |
| `ConnectionTraces.ConnectedIffLinkUp` | src/WT13106Connection.cpp:24-68 | after any history, the object is connected exactly when the string is non-empty and the most recent connect/disconnect call was a connect |
| `ConnectionTraces.SendSucceedsIffLinkUp` | src/WT13106Connection.cpp:75-104 | after any history, a send succeeds exactly when the link is up and the command is non-empty |
| `ConnectionTraces.ReceiveSucceedsIffLinkUp` | src/WT13106Connection.cpp:106-143 | after any history, a receive clears the error exactly when the link is up (that it yields no bytes holds in every state, by `ConnectionSpec.ReceiveResponse`'s contract) |
| `ConnectionTraces.EmptyStringNeverConnects` | src/WT13106Connection.cpp:161-172 | an object built with an empty string stays disconnected whatever is called |
| `ConnectionTraces.ReadLoopStaysConnected` | src/WT13106Connection.cpp:70-143 | starting connected, any sequence of `isConnected` and `receiveResponse` calls leaves the object connected with the same string (that a further receive answers with no bytes holds in every state, by `ConnectionSpec.ReceiveResponse`'s contract) |
| `ConnectionTraces.TeardownAfterAnyHistory` | src/WT13106Connection.cpp:17-22 | after any history, teardown leaves the object disconnected with the same string. It clears the error exactly when the link was up, and otherwise changes nothing |

## Left out

- Transport I/O: the commented-out libusb bulk transfers, `WriteFile`/`ReadFile` and socket `send`/`recv` calls (src/WT13106Connection.cpp:35-50, 87-100, 115-139) are comments and do nothing, so the model has no transport.
- Connection-string grammar (serial, `USB:VID:PID`, network address): the modelled file has it only as comments (src/WT13106Connection.cpp:163-167). The parser in `Sync VDC/src/WT13106Connection.cpp` is not part of this model.
- Timeouts: `timeoutMs` is accepted and never used, so the model takes it as a parameter and ignores it. `ConnectionSpec.ReceiveIgnoresTimeout` states this. The header's default argument `timeoutMs = 1000` (on `receiveResponse` and `sendCommandAndReceive`) is dropped: Dafny callers always pass a timeout, and its value makes no difference.
- Fields that the header declares and the modelled file never touches (`m_connectionType`, the serial/USB handles, `m_vid`, `m_pid`, `m_portName`, `m_baudRate`) are not modelled.
- `std::string` and `std::vector` allocation failures (`std::bad_alloc`) are not modelled. Byte values and timeouts are subset types of `int` with the ranges of `uint8_t` and `uint32_t`. No arithmetic is done on them, so there is no wrap-around to model.
- Object lifetime: the destructor is modelled as the method `Teardown`. Dafny has no destructors, so nothing forces a caller to invoke it last.
- Concurrency: the object is not safe for concurrent use, and the model assumes one caller at a time.
