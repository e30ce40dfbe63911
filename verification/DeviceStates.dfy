/** The device state machine of the Hermes Bridge client. */
module DeviceStates {
  import opened Wrappers

  datatype DeviceState =
    | Booting | ConnectingWifi | ConnectingBridge | Idle | Listening | Speaking | Error | Updating

  datatype DeviceEvent =
    | InitializationSucceeded | WifiConnected | HelloAcknowledged | BridgeDisconnected
    | HardwareOrConfigFailure | RetryableFailure | WifiLost | LocalInputAccepted
    | PlaybackStarted | ThinkingChanged | UpdateStarted | InputEnded | PlaybackEnded
    | BargeInTriggered | SafetyError | RecoverySucceeded | UpdateCompleted | UpdateFailed

  /** The transition table: the next state, or nothing where the event is refused. */
  function Transition(s: DeviceState, e: DeviceEvent): Option<DeviceState> {
    match (s, e)
    case (Updating, SafetyError) => None
    case (_, SafetyError) => Some(Error)
    case (Booting, InitializationSucceeded) => Some(ConnectingWifi)
    case (Booting, HardwareOrConfigFailure) => Some(Error)
    case (ConnectingWifi, WifiConnected) => Some(ConnectingBridge)
    case (ConnectingWifi, RetryableFailure) => Some(ConnectingWifi)
    case (ConnectingWifi, HardwareOrConfigFailure) => Some(Error)
    case (ConnectingBridge, HelloAcknowledged) => Some(Idle)
    case (ConnectingBridge, RetryableFailure) => Some(ConnectingBridge)
    case (ConnectingBridge, WifiLost) => Some(ConnectingWifi)
    case (Idle, BridgeDisconnected) => Some(ConnectingBridge)
    case (Idle, LocalInputAccepted) => Some(Listening)
    case (Idle, PlaybackStarted) => Some(Speaking)
    case (Idle, ThinkingChanged) => Some(Idle)
    case (Idle, UpdateStarted) => Some(Updating)
    case (Listening, InputEnded) => Some(Idle)
    case (Listening, PlaybackStarted) => Some(Speaking)
    case (Listening, BridgeDisconnected) => Some(ConnectingBridge)
    case (Speaking, PlaybackEnded) => Some(Idle)
    case (Speaking, BargeInTriggered) => Some(Listening)
    case (Speaking, BridgeDisconnected) => Some(ConnectingBridge)
    case (Error, RecoverySucceeded) => Some(ConnectingWifi)
    case (Updating, UpdateCompleted) => Some(Booting)
    case (Updating, UpdateFailed) => Some(Error)
    case _ => None
  }

  /** The state after an event: unchanged when the event is refused. */
  function After(s: DeviceState, e: DeviceEvent): DeviceState {
    match Transition(s, e)
    case Some(t) => t
    case None => s
  }

  /** The table the other way round: what leads to each state, and nothing else does. */
  lemma LeadsTo(s: DeviceState, e: DeviceEvent)
    ensures Transition(s, e) == Some(Booting) <==> (s, e) == (Updating, UpdateCompleted)
    ensures Transition(s, e) == Some(ConnectingWifi) <==>
      (s, e) in {(Booting, InitializationSucceeded), (ConnectingWifi, RetryableFailure), (ConnectingBridge, WifiLost),
                 (Error, RecoverySucceeded)}
    ensures Transition(s, e) == Some(ConnectingBridge) <==>
      || (s, e) in {(ConnectingWifi, WifiConnected), (ConnectingBridge, RetryableFailure)}
      || (Online(s) && e == BridgeDisconnected)
    ensures Transition(s, e) == Some(Idle) <==>
      (s, e) in {(ConnectingBridge, HelloAcknowledged), (Idle, ThinkingChanged), (Listening, InputEnded),
                 (Speaking, PlaybackEnded)}
    ensures Transition(s, e) == Some(Listening) <==> (s, e) in {(Idle, LocalInputAccepted), (Speaking, BargeInTriggered)}
    ensures Transition(s, e) == Some(Speaking) <==> s in {Idle, Listening} && e == PlaybackStarted
    ensures Transition(s, e) == Some(Updating) <==> (s, e) == (Idle, UpdateStarted)
    ensures Transition(s, e) == Some(Error) <==>
      || (e == SafetyError && s != Updating)
      || (e == HardwareOrConfigFailure && s in {Booting, ConnectingWifi})
      || (e == UpdateFailed && s == Updating)
  {
  }

  /** A session with the bridge is up: the handshake is acknowledged. */
  predicate Online(s: DeviceState) {
    s == Idle || s == Listening || s == Speaking
  }

  class DeviceStateMachine {
    var state: DeviceState

    constructor ()
      ensures state == Booting
    {
      state := Booting;
    }

    method Apply(event: DeviceEvent) returns (accepted: bool)
      modifies this
      ensures accepted == Transition(old(state), event).Some? && state == After(old(state), event)
    {
      if event == SafetyError && state != Updating {
        state := Error;
        return true;
      }
      match state {
        case Booting =>
          if event == InitializationSucceeded {
            state := ConnectingWifi;
            return true;
          }
          if event == HardwareOrConfigFailure {
            state := Error;
            return true;
          }
        case ConnectingWifi =>
          if event == WifiConnected {
            state := ConnectingBridge;
            return true;
          }
          if event == RetryableFailure {
            return true;
          }
          if event == HardwareOrConfigFailure {
            state := Error;
            return true;
          }
        case ConnectingBridge =>
          if event == HelloAcknowledged {
            state := Idle;
            return true;
          }
          if event == RetryableFailure {
            return true;
          }
          if event == WifiLost {
            state := ConnectingWifi;
            return true;
          }
        case Idle =>
          if event == BridgeDisconnected {
            state := ConnectingBridge;
            return true;
          }
          if event == LocalInputAccepted {
            state := Listening;
            return true;
          }
          if event == PlaybackStarted {
            state := Speaking;
            return true;
          }
          if event == ThinkingChanged {
            return true;
          }
          if event == UpdateStarted {
            state := Updating;
            return true;
          }
        case Listening =>
          if event == InputEnded {
            state := Idle;
            return true;
          }
          if event == PlaybackStarted {
            state := Speaking;
            return true;
          }
          if event == BridgeDisconnected {
            state := ConnectingBridge;
            return true;
          }
        case Speaking =>
          if event == PlaybackEnded {
            state := Idle;
            return true;
          }
          if event == BargeInTriggered {
            state := Listening;
            return true;
          }
          if event == BridgeDisconnected {
            state := ConnectingBridge;
            return true;
          }
        case Error =>
          if event == RecoverySucceeded {
            state := ConnectingWifi;
            return true;
          }
        case Updating =>
          if event == UpdateCompleted {
            state := Booting;
            return true;
          }
          if event == UpdateFailed {
            state := Error;
            return true;
          }
      }
      return false;
    }
  }
}
