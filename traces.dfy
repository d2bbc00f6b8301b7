/**
 * Whole histories of calls on one connection object. A history is the
 * sequence of public calls made after construction; these lemmas say what
 * any history leaves behind.
 */
module ConnectionTraces {
  import Spec = ConnectionSpec

  /** One public call on the object. */
  datatype Op =
    | Connect
    | Disconnect
    | IsConnected
    | SendCommand(command: seq<Spec.Byte>)
    | ReceiveResponse(timeoutMs: Spec.Uint32)
    | SendCommandAndReceive(command: seq<Spec.Byte>, timeoutMs: Spec.Uint32)
    | GetLastError

  /** The state after one call. */
  function Next(s: Spec.State, op: Op): Spec.State
  {
    match op
    case Connect => Spec.Connect(s).next
    case Disconnect => Spec.Disconnect(s).next
    case IsConnected => s
    case SendCommand(c) => Spec.SendCommand(s, c).next
    case ReceiveResponse(t) => Spec.ReceiveResponse(s, t).next
    case SendCommandAndReceive(c, t) => Spec.SendCommandAndReceive(s, c, t).next
    case GetLastError => s
  }

  /** The state after the calls of `ops`, in order. */
  function Run(s: Spec.State, ops: seq<Op>): Spec.State
    decreases |ops|
  {
    if ops == [] then s else Next(Run(s, ops[..|ops| - 1]), ops[|ops| - 1])
  }

  /** The most recent Connect or Disconnect call in `ops` exists and is a Connect. */
  predicate LastLinkCallIsConnect(ops: seq<Op>)
    decreases |ops|
  {
    if ops == [] then false
    else match ops[|ops| - 1]
      case Connect => true
      case Disconnect => false
      case _ => LastLinkCallIsConnect(ops[..|ops| - 1])
  }

  /**
   * The link is up after `ops`: some connect succeeded (which needs a
   * non-empty connection string) and no disconnect has happened since.
   * It speaks of the last connect call, not of the last successful one:
   * after [Connect, Connect] the second call fails with "Already connected",
   * yet the object stays connected and a send succeeds.
   */
  predicate LinkUp(connectionString: string, ops: seq<Op>)
  {
    connectionString != "" && LastLinkCallIsConnect(ops)
  }

  /** What holds of every object reachable from the constructor. */
  predicate Invariant(s: Spec.State)
  {
    && (s.connected ==> s.connectionString != "")
    && s.lastError in Spec.KnownErrors
  }

  /** No call changes the connection string. */
  lemma {:induction false} RunKeepsConnectionString(s: Spec.State, ops: seq<Op>)
    ensures Run(s, ops).connectionString == s.connectionString
    decreases |ops|
  {
    if ops != [] {
      RunKeepsConnectionString(s, ops[..|ops| - 1]);
    }
  }

  /** Every call keeps the invariant. */
  lemma StepKeepsInvariant(s: Spec.State, op: Op)
    requires Invariant(s)
    ensures Invariant(Next(s, op))
  {
  }

  /**
   * Whatever the calls, the object is connected only with a non-empty
   * connection string, and its last error is empty or one of the fixed
   * messages.
   */
  lemma {:induction false} ReachableInvariant(connectionString: string, ops: seq<Op>)
    ensures Invariant(Run(Spec.Init(connectionString), ops))
    decreases |ops|
  {
    if ops != [] {
      ReachableInvariant(connectionString, ops[..|ops| - 1]);
      StepKeepsInvariant(Run(Spec.Init(connectionString), ops[..|ops| - 1]), ops[|ops| - 1]);
    }
  }

  /** The object is connected exactly when the link is up. */
  lemma {:induction false} ConnectedIffLinkUp(connectionString: string, ops: seq<Op>)
    ensures Run(Spec.Init(connectionString), ops).connected <==> LinkUp(connectionString, ops)
    decreases |ops|
  {
    if ops != [] {
      var prefix := ops[..|ops| - 1];
      ConnectedIffLinkUp(connectionString, prefix);
      RunKeepsConnectionString(Spec.Init(connectionString), prefix);
    }
  }

  /**
   * A command is accepted exactly when the link is up and the command is
   * not empty.
   */
  lemma SendSucceedsIffLinkUp(connectionString: string, ops: seq<Op>, command: seq<Spec.Byte>)
    ensures Spec.SendCommand(Run(Spec.Init(connectionString), ops), command).ok
        <==> LinkUp(connectionString, ops) && command != []
  {
    ConnectedIffLinkUp(connectionString, ops);
  }

  /**
   * A receive clears the last error exactly when the link is up. That it
   * yields no bytes does not depend on the history: it comes straight from
   * the contract of `ConnectionSpec.ReceiveResponse`.
   */
  lemma ReceiveSucceedsIffLinkUp(connectionString: string, ops: seq<Op>, timeoutMs: Spec.Uint32)
    ensures var r := Spec.ReceiveResponse(Run(Spec.Init(connectionString), ops), timeoutMs);
      && r.response == []
      && (r.next.lastError == "" <==> LinkUp(connectionString, ops))
  {
    ConnectedIffLinkUp(connectionString, ops);
  }

  /** With an empty connection string no history ever connects. */
  lemma {:induction false} EmptyStringNeverConnects(ops: seq<Op>)
    ensures !Run(Spec.Init(""), ops).connected
    ensures Run(Spec.Init(""), ops).connectionString == ""
    decreases |ops|
  {
    if ops != [] {
      EmptyStringNeverConnects(ops[..|ops| - 1]);
    }
  }

  /**
   * Tearing down after any history leaves the object disconnected; it
   * clears the last error exactly when the link was up, and otherwise
   * leaves the state as it was.
   */
  lemma TeardownAfterAnyHistory(connectionString: string, ops: seq<Op>)
    ensures var s := Run(Spec.Init(connectionString), ops);
      && !Spec.Teardown(s).connected
      && Spec.Teardown(s).connectionString == connectionString
      && (LinkUp(connectionString, ops) ==> Spec.Teardown(s).lastError == "")
      && (!LinkUp(connectionString, ops) ==> Spec.Teardown(s) == s)
  {
    ConnectedIffLinkUp(connectionString, ops);
    RunKeepsConnectionString(Spec.Init(connectionString), ops);
  }

  /**
   * A loop that only asks whether the object is connected and receives
   * never leaves a connected object: the flag stays set. Every receive
   * answers with no bytes (in any state, by the contract of
   * `ConnectionSpec.ReceiveResponse`), so a loop guarded by the flag that
   * waits for data never ends.
   */
  lemma {:induction false} ReadLoopStaysConnected(s: Spec.State, ops: seq<Op>)
    requires s.connected
    requires forall i :: 0 <= i < |ops| ==> ops[i].IsConnected? || ops[i].ReceiveResponse?
    ensures Run(s, ops).connected
    ensures Run(s, ops).connectionString == s.connectionString
    ensures forall t :: Spec.ReceiveResponse(Run(s, ops), t).response == []
    decreases |ops|
  {
    if ops != [] {
      ReadLoopStaysConnected(s, ops[..|ops| - 1]);
    }
  }
}
