# Wallet balance service: the balance rule and the status mapping

This project models the core of a small Go wallet service. The service keeps a
`wallets` table of rows `(uuid, balance, currency, created_at)`. It answers two requests:

- `GET /api/v1/wallets/{id}` returns the row as JSON.
- `POST /api/v1/wallets/{id}/operations` with `{operation_type, amount}` deposits
  (`true`) or withdraws (`false`) an amount.

The model covers three parts:

- **Requests** (`requests/requests.go`): the `Wallet` row and the error kinds with their
  exact texts. `GetWallet` is a pure lookup on the table. `Operate` is the reference definition
  of one balance operation: its outcome and the checks in the source's order (lookup,
  amount, BEGIN, funds, UPDATE, COMMIT). `Committed` gives the table afterwards.
  `WalletStore` is a class whose `wallets` map field `PostWalletOperation` updates in
  place. The method works on a local copy of the row and stages the UPDATE in a
  transaction-local map. Only the commit assigns the field, so every early return leaves
  the table as it was, as the deferred rollback does. `ApplyAll` runs a series of
  operations one after the other.
- **Handlers** (`handlers/handlers.go`): the status chosen by string comparison on the
  error text (`GetErrorStatus`, `OperationErrorStatus`). `StatusByKind` proves that it
  equals a per-kind mapping (`ErrorStatus`). The handlers are modelled end to end: the
  GET handler is a function that only reads the store. The operation handler is a method
  that touches the store only after the id and the body have been accepted.
- **Server** (`main.go`): `main.go` repeats `getWallet`, `postWalletOperation` and the
  GET handler word for word, so they are modelled once, above. Its operation handler
  differs in one place that a caller can see: it answers an undecodable body with "Invalid request body" and
  leaves out the decoder's text. `AgreesWithHandlers` proves that the two handlers give
  every request the same status.

Deliberate deviations and abstractions:

- Balances and amounts are integers in minor units (cents) instead of `float64`. The
  arithmetic is therefore exact. The model has no rounding drift and no NaN.
- `uuid.Parse` of the path parameter is an input. `None` means the parse failed.
- JSON decoding of the request body is an input. `Failure` carries the decoder's
  error text.
- Database failures are inputs, collected in the `Faults` record. These are a failing
  row query (anything but "no rows"), BEGIN, UPDATE and COMMIT. Each carries the
  driver's error text, which the source wraps with `%w`.
- A response is a status and what is written into the body. For an error, the body is
  the text passed to `http.Error`.
- The model follows the code in three places a reader may not expect:
  - The code looks up the wallet before it validates the amount, outside any
    transaction. An unknown id with a bad amount is therefore "wallet not found"
    (404), not an invalid amount.
  - A failing row query is a 500 "failed to get wallet: …" for GET as well.
  - A successful operation answers 200 with an empty body; the updated wallet is
    not returned.

## Model

| member | source | states |
|---|---|---|
| `Requests.WalletError.Message` | requests/requests.go:24-66 | The text of each error kind. The wrapped kinds (read, BEGIN, UPDATE, COMMIT failures) are exactly the texts that start with "failed to ", a fixed prefix followed by the driver's text; every other kind is one of "wallet not found", "amount must be positive" or "insufficient funds". |
| `Requests.MessageIdentifiesKind` | requests/requests.go:24-66 | The texts "wallet not found", "insufficient funds" and "amount must be positive" each come from exactly one error kind. No wrapped "failed to …" error can produce one of them. |
| `Requests.GetWallet` | requests/requests.go:19-28 | The lookup succeeds exactly when the query does not fail and the id has a row. It then returns that row unchanged, and the row's uuid is the requested id. Otherwise it returns the wrapped read error, or "wallet not found" when no row exists. |
| `Requests.NotFoundExactlyWhenAbsent` | main.go:144-154 | `getWallet` returns the text "wallet not found" exactly when the query succeeds and the id is absent. A failing query returns "failed to get wallet: " followed by the driver's text. |
| `Requests.Operate` | requests/requests.go:31-69 | An operation succeeds exactly when there is no database failure, the wallet exists, the amount is positive, and the operation is a deposit or the amount does not exceed the balance. On success only the balance changes: it becomes balance + amount for a deposit and balance − amount for a withdrawal. A non-negative balance stays non-negative. An error that is not a database failure only arises when the row query succeeded. |
| `Requests.Committed` | requests/requests.go:50-67 | After an operation the table has the same ids. Every other wallet is unchanged. The target keeps its uuid, currency and created_at. A failed operation leaves the table as it was; a committed one is the old table with the target's row replaced by the updated row. Non-negative balances and the uuid keying are preserved whatever the outcome. |
| `Requests.DepositAddsAmount` | requests/requests.go:57-60 | With no database failure, a positive deposit into an existing wallet commits and sets its balance to exactly the old balance plus the amount. |
| `Requests.WithdrawSucceedsIff` | requests/requests.go:52-56 | With no database failure, a positive withdrawal from an existing wallet commits if and only if it does not exceed the balance, and then subtracts the amount. Withdrawing the whole balance leaves 0. |
| `Requests.OverdraftRejected` | requests/requests.go:52-54 | When the row query and BEGIN succeed, withdrawing a positive amount greater than the balance of an existing wallet returns "insufficient funds" and leaves the table unchanged, even when UPDATE or COMMIT would also fail. |
| `Requests.AmountMustBePositive` | requests/requests.go:39-42 | When the row query succeeds, an amount ≤ 0 on an existing wallet returns "amount must be positive", for deposit and withdrawal alike, and changes nothing. |
| `Requests.NotFoundTakesPrecedence` | main.go:158-167 | When the row query succeeds, an unknown id returns "wallet not found" whatever the amount, because the lookup comes before the amount check. The table is unchanged. |
| `Requests.WriteFailureRollsBack` | main.go:175-192 | When UPDATE or COMMIT fails, the operation returns an error and the rollback leaves the table exactly as it was. |
| `Requests.ApplyAll` | requests/requests.go:44-68 | Applying a series of operations, each committed or rolled back on its own, never adds or removes a wallet. |
| `Requests.ApplyAllPreservesNonNegative` | requests/requests.go:52-60 | If every balance is ≥ 0 before a series of operations, every balance is ≥ 0 after it, whatever the outcomes. |
| `Requests.RepeatedDeposits` | requests/requests.go:57-60 | n deposits of a positive amount into an existing wallet, with no database failure, applied one after another, raise the balance by exactly n × amount. |
| `Requests.DepositThenOverdraft` | requests/requests.go:52-58 | The operation test's deposit (tests/tests_test.go:81-112): a USD wallet at 1000.00 becomes 1100.00 after a deposit of 100.00. An added withdrawal of 2000.00, not part of that test, is rejected by the funds check as "insufficient funds", and the balance stays 1100.00. |
| `Requests.WalletStore.PostWalletOperation` | requests/requests.go:31-69 | The method returns no error exactly when `Operate` succeeds on the old table, and otherwise returns `Operate`'s error. The new table is `Committed` of the old one. It keeps the table keyed by uuid. |
| `Handlers.GetErrorStatus` | handlers/handlers.go:30-36 | The GET handler answers 404 exactly for the text "wallet not found", and 500 for every other error text. |
| `Handlers.OperationErrorStatus` | handlers/handlers.go:60-67 | The operation handler answers 404 exactly for "wallet not found", 400 exactly for "insufficient funds" or "amount must be positive", and 500 otherwise. |
| `Handlers.StatusByKind` | main.go:114-124 | Choosing the status on the error text gives the same result as choosing it on the error kind: 404 for not found, 400 for a bad amount or missing funds, 500 for database failures. This holds for both handlers. |
| `Handlers.GetWalletHandler` | handlers/handlers.go:21-42 | A malformed id gets 400 "Invalid UUID format". Otherwise the status is 200 exactly when the row exists and the read did not fail, and the body is then the stored row with the requested uuid. The status is 404 "wallet not found" exactly when the read succeeds and the row is absent. A failing read is 500 with the wrapped text. |
| `Handlers.OutcomeResponse` | handlers/handlers.go:59-71 | A successful operation answers 200 with an empty body. A failed one answers its error text with the status of its kind. |
| `Handlers.OperationResponse` | handlers/handlers.go:44-73 | A malformed id gets 400 "Invalid UUID format". An undecodable body gets 400 "Invalid request body: " followed by the decoder's text. Otherwise the status is 200 exactly when the operation commits, with `operation_type` true passed as a deposit. Errors map as above. |
| `Handlers.OperationStatusClassification` | handlers/handlers.go:59-69 | For a well-formed request, the status is 404 exactly when the query succeeds and the wallet is absent. It is 400 exactly when the wallet exists and the amount is ≤ 0, or BEGIN succeeds and the withdrawal exceeds the balance. It is 500 exactly for a database failure. |
| `Handlers.WalletOperationHandler` | handlers/handlers.go:44-73 | The method's answer is `OperationResponse` of the table the request found. A malformed id or body leaves the table unchanged. A well-formed request changes the table as `Committed` says. |
| `Server.OperationResponse` | main.go:100-128 | main.go's operation handler answers a malformed id with 400 "Invalid UUID format" and an undecodable body with 400 "Invalid request body". A well-formed request gets 200 exactly when the operation commits, and its error otherwise. |
| `Server.AgreesWithHandlers` | main.go:108-112 | main.go and the handlers package give every request the same status. They give the same body too, except for an undecodable request body. |
| `Server.WalletOperationHandler` | main.go:100-128 | main.go's handler answers `Server.OperationResponse` of the table the request found. It changes the table exactly as the handlers package's handler does. |

## Left out

- The rate-limit middleware and its process-wide map of per-wallet semaphores (handlers/routes.go:12-35). They are concurrency control: a blocking acquire with context cancellation and an atomic load-or-store. The model is sequential. The 503 answer that the middleware produces is therefore not modelled.
- Concurrent requests. The source reads the row outside the transaction and writes the new balance unconditionally, so two parallel operations can lose an update. The model applies operations one at a time (`ApplyAll`), so it cannot show this race.
- Routing with chi, `http.ListenAndServe`, response headers and JSON encoding and decoding. These are transport plumbing. `http.Error` also appends a newline to the body text, which the model does not represent.
- config/database.go and main.go:19-75 (`loadEnv`, `connectToDB`, `main`, `walletRoutes`). These read environment files and open the Postgres connection.
- `uuid.Parse`, a foreign library. Its result is an input.
- SQL text and the database driver. The table is a map, and driver failures are the `Faults` inputs.
- `float64` rounding of balances and amounts. Integer minor units are used instead.
- The `created_at` and `currency` columns are carried as opaque values that no operation changes.
- The `uuid` field of the operation request body. It is decoded but never used.
- The `fmt.Println` of the unparsed id in handlers/handlers.go:48. It writes to standard output only.
