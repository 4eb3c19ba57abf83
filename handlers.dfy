/**
 * The two HTTP handlers of handlers/handlers.go: they parse the wallet id from the
 * path, call the store and turn its error text into a status code.
 *
 * `uuid.Parse` of the path parameter is an input here (`None` when it fails), and so is
 * the JSON decoding of the request body (`Failure` carrying the decoder's error text).
 * A response is its status and what is written into the body.
 */
module Handlers {
  import opened Wrappers
  import opened Requests

  const StatusOK := 200
  const StatusBadRequest := 400
  const StatusNotFound := 404
  const StatusInternalServerError := 500

  /** What a handler writes: nothing, an error text (via http.Error) or the wallet as JSON. */
  datatype Body = Empty | Text(message: string) | WalletJson(wallet: Wallet)

  datatype Response = Response(status: int, body: Body)

  /** The decoded JSON body of an operation request: `operation_type` true is a deposit. */
  datatype WalletOperationRequest = WalletOperationRequest(operationType: bool, amount: int)

  /** Both handlers answer this when the path parameter is not a UUID. */
  const InvalidUuid := Response(StatusBadRequest, Text("Invalid UUID format"))

  /** The GET handler's choice of status, made on the error's text. */
  function GetErrorStatus(message: string): (status: int)
    ensures status == StatusNotFound || status == StatusInternalServerError
    ensures status == StatusNotFound <==> message == "wallet not found"
  {
    if message == "wallet not found" then StatusNotFound else StatusInternalServerError
  }

  /** The operation handler's choice of status, made on the error's text. */
  function OperationErrorStatus(message: string): (status: int)
    ensures status == StatusNotFound || status == StatusBadRequest || status == StatusInternalServerError
    ensures status == StatusNotFound <==> message == "wallet not found"
    ensures status == StatusBadRequest <==> message == "insufficient funds" || message == "amount must be positive"
  {
    if message == "wallet not found" then StatusNotFound
    else if message == "insufficient funds" || message == "amount must be positive" then StatusBadRequest
    else StatusInternalServerError
  }

  /** The status each kind of error stands for: the caller's mistakes are 4xx, database failures 500. */
  function ErrorStatus(e: WalletError): (status: int)
  {
    match e
    case WalletNotFound => StatusNotFound
    case AmountNotPositive => StatusBadRequest
    case InsufficientFunds => StatusBadRequest
    case _ => StatusInternalServerError
  }

  /** Branching on the error text gives the same status as branching on the kind of error. */
  lemma StatusByKind(e: WalletError)
    ensures OperationErrorStatus(e.Message()) == ErrorStatus(e)
    ensures GetErrorStatus(e.Message()) == if e.WalletNotFound? then StatusNotFound else StatusInternalServerError
  {
    MessageIdentifiesKind(e);
  }

  /** GET /api/v1/wallets/{WALLET_UUID}: the stored row as JSON, or the error as text. */
  function GetWalletHandler(store: WalletStore, pathId: Option<Uuid>, readError: Option<string>): (resp: Response)
    reads store
    ensures pathId.None? ==> resp == InvalidUuid
    ensures pathId.Some? ==>
      var id := pathId.value;
      && (resp.status == StatusOK <==> readError.None? && id in store.wallets)
      && (resp.status == StatusOK ==> resp.body == WalletJson(store.wallets[id]))
      && (resp.status == StatusOK && store.Valid() ==> resp.body.wallet.uuid == id)
      && (resp.status == StatusNotFound <==> readError.None? && id !in store.wallets)
      && (resp.status == StatusNotFound ==> resp.body == Text("wallet not found"))
      && (readError.Some? ==>
            resp == Response(StatusInternalServerError, Text("failed to get wallet: " + readError.value)))
  {
    match pathId
    case None => InvalidUuid
    case Some(id) =>
      match GetWallet(store.wallets, id, readError)
      case Failure(e) =>
        StatusByKind(e);
        Response(GetErrorStatus(e.Message()), Text(e.Message()))
      case Success(wallet) => Response(StatusOK, WalletJson(wallet))
  }

  /** The operation handler's answer once the store has run: empty 200, or the error text with its status. */
  function OutcomeResponse(err: Option<WalletError>): (resp: Response)
    ensures err.None? ==> resp == Response(StatusOK, Empty)
    ensures err.Some? ==> resp == Response(ErrorStatus(err.value), Text(err.value.Message()))
  {
    match err
    case None => Response(StatusOK, Empty)
    case Some(e) =>
      StatusByKind(e);
      Response(OperationErrorStatus(e.Message()), Text(e.Message()))
  }

  /**
   * POST /api/v1/wallets/{WALLET_UUID}/operations, as a function of the table the
   * request finds: the id is checked, then the body, and only then the store runs.
   */
  function OperationResponse(
    wallets: map<Uuid, Wallet>, pathId: Option<Uuid>, body: Result<WalletOperationRequest, string>, faults: Faults)
    : (resp: Response)
    ensures pathId.None? ==> resp == InvalidUuid
    ensures pathId.Some? && body.Failure? ==>
      resp == Response(StatusBadRequest, Text("Invalid request body: " + body.error))
    ensures pathId.Some? && body.Success? ==>
      var outcome := Operate(wallets, pathId.value, body.value.operationType, body.value.amount, faults);
      && (resp.status == StatusOK <==> outcome.Success?)
      && (outcome.Success? ==> resp.body == Empty)
      && (outcome.Failure? ==> resp == Response(ErrorStatus(outcome.error), Text(outcome.error.Message())))
  {
    match pathId
    case None => InvalidUuid
    case Some(id) =>
      match body
      case Failure(detail) => Response(StatusBadRequest, Text("Invalid request body: " + detail))
      case Success(req) =>
        var outcome := Operate(wallets, id, req.operationType, req.amount, faults);
        OutcomeResponse(if outcome.Success? then None else Some(outcome.error))
  }

  /**
   * For a well-formed request the status says what happened: 404 for an unknown
   * wallet, 400 for a bad amount or missing funds, 500 for a database failure.
   */
  lemma OperationStatusClassification(
    wallets: map<Uuid, Wallet>, id: Uuid, req: WalletOperationRequest, faults: Faults)
    ensures var status := OperationResponse(wallets, Some(id), Success(req), faults).status;
      var outcome := Operate(wallets, id, req.operationType, req.amount, faults);
      && (status == StatusNotFound <==> faults.readError.None? && id !in wallets)
      && (status == StatusBadRequest <==>
            && faults.readError.None?
            && id in wallets
            && (req.amount <= 0 || (faults.beginError.None? && !req.operationType && wallets[id].balance < req.amount)))
      && (status == StatusInternalServerError <==> outcome.Failure? && outcome.error.IsInfrastructure())
  {
  }

  /**
   * The operation handler: a malformed id or body is answered before the store is
   * touched; otherwise the store runs the operation and its error picks the status.
   */
  method WalletOperationHandler(
    store: WalletStore, pathId: Option<Uuid>, body: Result<WalletOperationRequest, string>, faults: Faults)
    returns (resp: Response)
    requires store.Valid()
    modifies store
    ensures store.Valid()
    ensures resp == OperationResponse(old(store.wallets), pathId, body, faults)
    ensures pathId.None? || body.Failure? ==> store.wallets == old(store.wallets)
    ensures pathId.Some? && body.Success? ==>
      store.wallets == Committed(old(store.wallets), pathId.value, body.value.operationType, body.value.amount, faults)
  {
    if pathId.None? {
      return InvalidUuid;
    }
    var id := pathId.value;
    if body.Failure? {
      return Response(StatusBadRequest, Text("Invalid request body: " + body.error));
    }
    var req := body.value;
    var err := store.PostWalletOperation(id, req.operationType, req.amount, faults);
    resp := OutcomeResponse(err);
  }
}
