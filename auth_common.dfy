/**
 * Values shared by the two authentication services: the hosting framework's
 * controllers and streaming handlers, the errors the services throw, and the
 * record of one push to a subscriber.
 */
module AuthCommon {

  datatype Option<+T> = None | Some(value: T)

  /** The errors the services throw. */
  datatype AuthError =
    | ControllerNotInitialized   // "Controller has not been initialized"
    | ProviderNotSet             // "Auth provider is not set"
    | ServiceNotInitialized      // "OcaAuthService not initialized. Call ... initialize(controller) first."

  /** A value, or the error a call threw instead of returning it. */
  datatype Result<+T> = Ok(value: T) | Err(error: AuthError)

  /**
   * A hosting-framework controller (one per webview). `EmptyContext` is the
   * `{}` stand-in that `AuthService.getInstance` creates when it constructs the
   * instance without being given a controller.
   */
  datatype Controller = Controller(id: nat) | EmptyContext

  /** A streaming response handler; handlers are compared by identity. */
  datatype Handler = Handler(id: nat)

  /** One call `stream(state, false)`: a non-final push of `state` to a subscriber. */
  datatype Delivery<+S> = Delivery(stream: Handler, state: S)

  /** The pushes of one broadcast round: `state` to each handler of `hs`, in order. */
  function DeliveriesOf<S>(hs: seq<Handler>, state: S): seq<Delivery<S>> {
    if hs == [] then [] else DeliveriesOf(hs[..|hs| - 1], state) + [Delivery(hs[|hs| - 1], state)]
  }

  /** Every handler of the snapshot is pushed exactly once, at its own position. */
  lemma {:induction false} DeliveriesOfSpec<S>(hs: seq<Handler>, state: S)
    ensures |DeliveriesOf(hs, state)| == |hs|
    ensures forall k :: 0 <= k < |hs| ==> DeliveriesOf(hs, state)[k] == Delivery(hs[k], state)
  {
    if hs != [] {
      var n := |hs| - 1;
      DeliveriesOfSpec(hs[..n], state);
      assert forall k :: 0 <= k < n ==> hs[..n][k] == hs[k];
    }
  }

  /** A push more at the end of the round. */
  lemma DeliveriesOfSnoc<S>(hs: seq<Handler>, h: Handler, state: S)
    ensures DeliveriesOf(hs + [h], state) == DeliveriesOf(hs, state) + [Delivery(h, state)]
  {
    assert (hs + [h])[..|hs|] == hs;
  }
}
