/**
 * The handlers of main.go, the program the service binary runs. Its wallet lookup,
 * balance operation and GET handler are the same code as requests/requests.go and
 * handlers/handlers.go and are modelled once, in Requests and Handlers. Its operation
 * handler differs in one place that a caller can see: an undecodable body is answered without the
 * decoder's error text.
 */
module Server {
  import opened Wrappers
  import opened Requests
  import opened Handlers

  /** main.go's answer to a body that does not decode. */
  const InvalidBody := Response(StatusBadRequest, Text("Invalid request body"))

  /** POST /api/v1/wallets/{WALLET_UUID}/operations as main.go answers it. */
  function OperationResponse(
    wallets: map<Uuid, Wallet>, pathId: Option<Uuid>, body: Result<WalletOperationRequest, string>, faults: Faults)
    : (resp: Response)
    ensures pathId.None? ==> resp == InvalidUuid
    ensures pathId.Some? && body.Failure? ==> resp == InvalidBody
    ensures pathId.Some? && body.Success? ==>
      var outcome := Operate(wallets, pathId.value, body.value.operationType, body.value.amount, faults);
      && (resp.status == StatusOK <==> outcome.Success?)
      && (outcome.Success? ==> resp.body == Empty)
      && (outcome.Failure? ==> resp == Response(ErrorStatus(outcome.error), Text(outcome.error.Message())))
  {
    match pathId
    case None => InvalidUuid
    case Some(id) =>
      match body
      case Failure(_) => InvalidBody
      case Success(req) =>
        var outcome := Operate(wallets, id, req.operationType, req.amount, faults);
        OutcomeResponse(if outcome.Success? then None else Some(outcome.error))
  }

  /**
   * main.go and handlers/handlers.go give every request the same status, and the same
   * body except when the request body does not decode.
   */
  lemma AgreesWithHandlers(
    wallets: map<Uuid, Wallet>, pathId: Option<Uuid>, body: Result<WalletOperationRequest, string>, faults: Faults)
    ensures OperationResponse(wallets, pathId, body, faults).status
         == Handlers.OperationResponse(wallets, pathId, body, faults).status
    ensures pathId.None? || body.Success? ==>
      OperationResponse(wallets, pathId, body, faults) == Handlers.OperationResponse(wallets, pathId, body, faults)
  {
  }

  /** main.go's operation handler; it changes the table exactly as the handlers package does. */
  method WalletOperationHandler(
    store: WalletStore, pathId: Option<Uuid>, body: Result<WalletOperationRequest, string>, faults: Faults)
    returns (resp: Response)
    requires store.Valid()
    modifies store
    ensures store.Valid()
    ensures resp == OperationResponse(old(store.wallets), pathId, body, faults)
    ensures pathId.None? || body.Failure? ==> store.wallets == old(store.wallets)
    ensures pathId.Some? && body.Success? ==>
      store.wallets == Committed(old(store.wallets), pathId.value, body.value.operationType, body.value.amount, faults)
  {
    if pathId.None? {
      return InvalidUuid;
    }
    var id := pathId.value;
    if body.Failure? {
      return InvalidBody;
    }
    var req := body.value;
    var err := store.PostWalletOperation(id, req.operationType, req.amount, faults);
    resp := OutcomeResponse(err);
  }
}
