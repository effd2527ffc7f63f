// The shutdown handshake of the Bluetooth IPC child actor: StopNotifying
// goes to the parent, the parent answers NotificationsStopped, and only
// then the actor deletes itself.

module BluetoothChildActor {

  datatype ShutdownState = Running | SentStopNotifying | Dead

  /** Messages the child sends to the parent. */
  datatype Outgoing = StopNotifying | Delete

  /** IPC_OK() or IPC_FAIL(this, "Bad state!"). */
  datatype IpcResult = IpcOk | IpcFail

  datatype Event = BeginShutdown | RecvBeginShutdown | RecvNotificationsStopped | ActorDestroy

  /** One handler's effect: the new state, what it sent, what it returned. */
  datatype StepResult = StepResult(state: ShutdownState, sent: seq<Outgoing>, result: IpcResult)

  /** What each handler does from state `s`; `debug` is whether DEBUG is
      defined, which alone makes ActorDestroy record the Dead state. */
  function Step(s: ShutdownState, e: Event, debug: bool): (r: StepResult)
    ensures e == BeginShutdown ==>
      r == if s == Running then StepResult(SentStopNotifying, [StopNotifying], IpcOk) else StepResult(s, [], IpcOk)
    ensures e == RecvBeginShutdown ==>
      (r.result == IpcFail <==> s.Dead?) &&
      (r.result == IpcOk ==> r.state == SentStopNotifying && r.sent == [StopNotifying]) &&
      (r.result == IpcFail ==> r.state == s && r.sent == [])
    ensures e == RecvNotificationsStopped ==>
      (r.result == IpcFail <==> s != SentStopNotifying) && r.state == s &&
      r.sent == (if s == SentStopNotifying then [Delete] else [])
    ensures e == ActorDestroy ==> r == StepResult(if debug then Dead else s, [], IpcOk)
  {
    match e
    case BeginShutdown =>
      if s == Running then StepResult(SentStopNotifying, [StopNotifying], IpcOk) else StepResult(s, [], IpcOk)
    case RecvBeginShutdown =>
      if s != Running && s != SentStopNotifying then StepResult(s, [], IpcFail)
      else StepResult(SentStopNotifying, [StopNotifying], IpcOk)
    case RecvNotificationsStopped =>
      if s != SentStopNotifying then StepResult(s, [], IpcFail) else StepResult(s, [Delete], IpcOk)
    case ActorDestroy =>
      StepResult(if debug then Dead else s, [], IpcOk)
  }

  /** A second BeginShutdown sends nothing more. */
  lemma BeginShutdownSendsOnce(s: ShutdownState, debug: bool)
    ensures var first := Step(s, BeginShutdown, debug);
      Step(first.state, BeginShutdown, debug).sent == []
      && |first.sent| <= 1
  {
  }

  /** The state and the messages sent after a sequence of handlers. */
  function Run(s: ShutdownState, events: seq<Event>, debug: bool): (r: (ShutdownState, seq<Outgoing>))
    decreases |events|
  {
    if events == [] then (s, [])
    else
      var step := Step(s, events[0], debug);
      var rest := Run(step.state, events[1..], debug);
      (rest.0, step.sent + rest.1)
  }

  /** Every Delete in `log` comes after some StopNotifying. */
  predicate DeleteFollowsStop(log: seq<Outgoing>)
  {
    forall k | 0 <= k < |log| && log[k] == Delete :: StopNotifying in log[..k]
  }

  /** Whatever the handlers and their order, the actor deletes itself only
      after it asked the parent to stop notifying: in the state it starts
      from, or in its own messages. */
  lemma {:induction false} DeleteOnlyAfterStopNotifying(s: ShutdownState, events: seq<Event>, debug: bool)
    requires s != SentStopNotifying
    ensures DeleteFollowsStop(Run(s, events, debug).1)
    decreases |events|
  {
    if events != [] {
      var step := Step(s, events[0], debug);
      var rest := Run(step.state, events[1..], debug);
      var log := step.sent + rest.1;
      if step.state != SentStopNotifying {
        assert step.sent == [];
        DeleteOnlyAfterStopNotifying(step.state, events[1..], debug);
        assert log == rest.1;
      } else {
        assert step.sent == [StopNotifying];
        forall k | 0 <= k < |log| && log[k] == Delete
          ensures StopNotifying in log[..k]
        {
          assert log[0] == StopNotifying;
          assert k > 0 && log[..k][0] == StopNotifying;
        }
      }
    }
  }

  /** The child actor and the messages it has sent. */
  class BluetoothChild {
    var shutdownState: ShutdownState
    var sent: seq<Outgoing>
    /** Whether the service has been told that the actor is dead. */
    var deadActorNoted: bool
    const debug: bool

    constructor (debug: bool)
      ensures shutdownState == Running && sent == [] && !deadActorNoted && this.debug == debug
    {
      shutdownState := Running;
      sent := [];
      deadActorNoted := false;
      this.debug := debug;
    }

    /** BeginShutdown: only a running actor starts the sequence. */
    method BeginShutdown()
      modifies this`shutdownState, this`sent
      ensures var step := Step(old(shutdownState), Event.BeginShutdown, debug);
        shutdownState == step.state && sent == old(sent) + step.sent
      ensures old(shutdownState) == Running ==> shutdownState == SentStopNotifying && sent == old(sent) + [StopNotifying]
      ensures old(shutdownState) != Running ==> shutdownState == old(shutdownState) && sent == old(sent)
    {
      if shutdownState == Running {
        sent := sent + [StopNotifying];
        shutdownState := SentStopNotifying;
      }
    }

    /** RecvBeginShutdown */
    method RecvBeginShutdown() returns (result: IpcResult)
      modifies this`shutdownState, this`sent
      ensures var step := Step(old(shutdownState), Event.RecvBeginShutdown, debug);
        shutdownState == step.state && sent == old(sent) + step.sent && result == step.result
      ensures old(shutdownState) == Dead <==> result == IpcFail
      ensures result == IpcFail ==> shutdownState == old(shutdownState) && sent == old(sent)
      ensures result == IpcOk ==> shutdownState == SentStopNotifying && sent == old(sent) + [StopNotifying]
    {
      if shutdownState != Running && shutdownState != SentStopNotifying {
        return IpcFail;
      }
      sent := sent + [StopNotifying];
      shutdownState := SentStopNotifying;
      return IpcOk;
    }

    /** RecvNotificationsStopped: Send__delete__ once StopNotifying was sent. */
    method RecvNotificationsStopped() returns (result: IpcResult)
      modifies this`sent
      ensures var step := Step(old(shutdownState), Event.RecvNotificationsStopped, debug);
        shutdownState == step.state && sent == old(sent) + step.sent && result == step.result
      ensures old(shutdownState) != SentStopNotifying <==> result == IpcFail
      ensures sent == old(sent) + (if result == IpcOk then [Delete] else [])
    {
      if shutdownState != SentStopNotifying {
        return IpcFail;
      }
      sent := sent + [Delete];
      return IpcOk;
    }

    /** ActorDestroy: the service notes the dead actor; a debug build
        records the Dead state the destructor asserts. */
    method ActorDestroy()
      modifies this`shutdownState, this`deadActorNoted
      ensures shutdownState == Step(old(shutdownState), Event.ActorDestroy, debug).state
      ensures deadActorNoted
      ensures shutdownState == if debug then Dead else old(shutdownState)
    {
      deadActorNoted := true;
      if debug {
        shutdownState := Dead;
      }
    }

    /** ~BluetoothChild's assertion: a release build never checks it; a
        debug build fails it in every state but Dead. */
    function MayBeDestroyed(): (r: bool)
      reads this
      ensures !debug ==> r
      ensures debug ==> (r <==> shutdownState.Dead?)
    {
      debug ==> shutdownState == Dead
    }
  }

  /** After ActorDestroy a debug-built actor may be destroyed. */
  method DestroyAfterActorDestroy(s: ShutdownState) returns (mayBeDestroyed: bool)
    ensures mayBeDestroyed
  {
    var a := new BluetoothChild(true);
    a.shutdownState := s;
    a.ActorDestroy();
    mayBeDestroyed := a.MayBeDestroyed();
  }
}
