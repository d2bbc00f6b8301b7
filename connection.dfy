/**
 * The connection object itself. Like the C++ class `WT13106Connection`, its
 * methods read and assign the fields in place; each one is proved to have,
 * on the triple of fields, exactly the effect that the matching function of
 * ConnectionSpec describes, so everything proved about those functions holds
 * of the object.
 */
module Connection {
  import Spec = ConnectionSpec

  class WT13106Connection {
    /** Set by the constructor; no method writes it. */
    const connectionString: string
    var connected: bool
    var lastError: string

    /** The fields as a value. */
    function View(): Spec.State
      reads this
    {
      Spec.State(connectionString, connected, lastError)
    }

    constructor (connectionString: string)
      ensures this.connectionString == connectionString
      ensures !connected && lastError == ""
      ensures View() == Spec.Init(connectionString)
    {
      this.connectionString := connectionString;
      connected := false;
      lastError := "";
    }

    /** What the destructor does before the object goes away. */
    method Teardown()
      modifies this
      ensures View() == Spec.Teardown(old(View()))
    {
      if connected {
        var _ := Disconnect();
      }
    }

    method Connect() returns (ok: bool)
      modifies this
      ensures Spec.Flagged(ok, View()) == Spec.Connect(old(View()))
    {
      if connected {
        lastError := Spec.AlreadyConnectedError;
        return false;
      }
      var initialized := InitializeConnection();
      if !initialized {
        return false;
      }
      connected := true;
      lastError := "";
      return true;
    }

    method Disconnect() returns (ok: bool)
      modifies this
      ensures Spec.Flagged(ok, View()) == Spec.Disconnect(old(View()))
    {
      if !connected {
        lastError := Spec.NotConnectedError;
        return false;
      }
      CleanupConnection();
      connected := false;
      lastError := "";
      return true;
    }

    /** Reads the flag; changes nothing. */
    method IsConnected() returns (b: bool)
      ensures b == connected
    {
      b := connected;
    }

    method SendCommand(command: seq<Spec.Byte>) returns (ok: bool)
      modifies this
      ensures Spec.Flagged(ok, View()) == Spec.SendCommand(old(View()), command)
    {
      if !connected {
        lastError := Spec.NotConnectedToDeviceError;
        return false;
      }
      if command == [] {
        lastError := Spec.CommandEmptyError;
        return false;
      }
      lastError := "";
      return true;
    }

    method ReceiveResponse(timeoutMs: Spec.Uint32) returns (response: seq<Spec.Byte>)
      modifies this
      ensures Spec.Received(response, View()) == Spec.ReceiveResponse(old(View()), timeoutMs)
    {
      response := [];
      if !connected {
        lastError := Spec.NotConnectedToDeviceError;
        return;
      }
      lastError := "";
    }

    method SendCommandAndReceive(command: seq<Spec.Byte>, timeoutMs: Spec.Uint32) returns (response: seq<Spec.Byte>)
      modifies this
      ensures Spec.Received(response, View()) == Spec.SendCommandAndReceive(old(View()), command, timeoutMs)
    {
      var sent := SendCommand(command);
      if !sent {
        return [];
      }
      response := ReceiveResponse(timeoutMs);
    }

    /** Reads the message; changes nothing. */
    method GetLastError() returns (e: string)
      ensures e == lastError
    {
      e := lastError;
    }

    /** Refuses an empty connection string; writes only the last error. */
    method InitializeConnection() returns (ok: bool)
      modifies this`lastError
      ensures Spec.Flagged(ok, View()) == Spec.InitializeConnection(old(View()))
    {
      if connectionString == "" {
        lastError := Spec.ConnectionStringEmptyError;
        return false;
      }
      return true;
    }

    /** Releasing transport resources: nothing to release, so it changes nothing. */
    method CleanupConnection()
      ensures unchanged(this)
    {
    }
  }

  /**
   * A session on one object: connect, send a command, receive with a
   * 2000 ms timeout, disconnect, then send again. Connect is the call the
   * usage example makes before its read loop; send, receive and disconnect
   * are the calls it makes after that loop. The last send is added to show
   * the object refusing once disconnected. The connection string is that
   * example's default.
   */
  method Session() returns (connected: bool, sent: bool, response: seq<Spec.Byte>, sentAfterDisconnect: bool, error: string)
    ensures connected && sent && response == []
    ensures !sentAfterDisconnect && error == Spec.NotConnectedToDeviceError
  {
    var device := new WT13106Connection("BT:COM5");
    connected := device.Connect();
    sent := device.SendCommand([0x01, 0x02, 0x03, 0x04]);
    response := device.ReceiveResponse(2000);
    var closed := device.Disconnect();
    assert closed;
    sentAfterDisconnect := device.SendCommand([0x01]);
    error := device.GetLastError();
    device.Teardown();
  }
}
