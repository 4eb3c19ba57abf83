/**
 * The wallet table and the two store operations of the service
 * (requests/requests.go, repeated verbatim as getWallet / postWalletOperation in main.go).
 *
 * The `wallets` table is a map from wallet id to its row. Balances and amounts are
 * integers in minor currency units (cents) instead of the source's float64, so the
 * arithmetic below is exact. Database failures that the model cannot produce itself
 * (a failing query, BEGIN, UPDATE or COMMIT) are inputs, gathered in `Faults`.
 */
module Requests {
  import opened Wrappers

  /** A 128-bit UUID, as the number its 16 bytes spell. */
  type Uuid = n: nat | n < 0x1_0000_0000_0000_0000_0000_0000_0000_0000

  /** The `created_at` column; the service never reads or changes it. */
  type Timestamp = int

  /** One row of the `wallets` table. */
  datatype Wallet = Wallet(uuid: Uuid, balance: int, currency: string, createdAt: Timestamp)

  /** Every error the two store operations return, with the text the handlers branch on. */
  datatype WalletError =
    | WalletNotFound
    | GetFailed(cause: string)
    | AmountNotPositive
    | BeginFailed(cause: string)
    | InsufficientFunds
    | UpdateFailed(cause: string)
    | CommitFailed(cause: string)
  {
    /** The error's text, `err.Error()` in the source; a wrapped driver error keeps its own text. */
    function Message(): (text: string)
      ensures IsInfrastructure() <==> |text| >= 10 && text[..10] == "failed to "
      ensures !IsInfrastructure() ==>
        text == "wallet not found" || text == "amount must be positive" || text == "insufficient funds"
    {
      match this
      case WalletNotFound =>
        assert "wallet not found"[..10][0] != "failed to "[0];
        "wallet not found"
      case GetFailed(cause) => Wrap("failed to get wallet: ", cause)
      case AmountNotPositive =>
        assert "amount must be positive"[..10][0] != "failed to "[0];
        "amount must be positive"
      case BeginFailed(cause) => Wrap("failed to begin transaction: ", cause)
      case InsufficientFunds =>
        assert "insufficient funds"[..10][0] != "failed to "[0];
        "insufficient funds"
      case UpdateFailed(cause) => Wrap("failed to update balance: ", cause)
      case CommitFailed(cause) => Wrap("failed to commit transaction: ", cause)
    }

    /** The errors produced by a database failure rather than by the caller's request. */
    predicate IsInfrastructure()
    {
      GetFailed? || BeginFailed? || UpdateFailed? || CommitFailed?
    }
  }

  /** `fmt.Errorf(prefix + "%w", err)`: the fixed text, then the wrapped error's own text. */
  function Wrap(prefix: string, cause: string): (text: string)
    requires |prefix| >= 10 && prefix[..10] == "failed to "
    ensures |text| >= 10 && text[..10] == "failed to "
    ensures |text| == |prefix| + |cause| && text[..|prefix|] == prefix && text[|prefix|..] == cause
  {
    assert (prefix + cause)[..10] == prefix[..10];
    prefix + cause
  }

  /**
   * The database failures one call may meet, each as the driver error's text:
   * the row query (other than "no rows"), BEGIN, the UPDATE statement and COMMIT.
   */
  datatype Faults = Faults(
    readError: Option<string>,
    beginError: Option<string>,
    updateError: Option<string>,
    commitError: Option<string>)

  const NoFaults := Faults(None, None, None, None)

  /** The table is keyed by its `uuid` column. */
  ghost predicate KeysMatch(wallets: map<Uuid, Wallet>)
  {
    forall id :: id in wallets ==> wallets[id].uuid == id
  }

  /** No stored balance is negative. */
  ghost predicate NonNegative(wallets: map<Uuid, Wallet>)
  {
    forall id :: id in wallets ==> wallets[id].balance >= 0
  }

  /** A message that the handlers single out cannot also come from a different kind of error. */
  lemma MessageIdentifiesKind(e: WalletError)
    ensures e.Message() == "wallet not found" <==> e.WalletNotFound?
    ensures e.Message() == "insufficient funds" <==> e.InsufficientFunds?
    ensures e.Message() == "amount must be positive" <==> e.AmountNotPositive?
  {
    if e.IsInfrastructure() {
      // every wrapped message begins with "failed to ..."
      assert e.Message()[0] == 'f';
    }
  }

  /** SELECT of one row: the row, "wallet not found" when there is none, or the wrapped driver error. */
  function GetWallet(wallets: map<Uuid, Wallet>, id: Uuid, readError: Option<string>): (r: Result<Wallet, WalletError>)
    ensures r.Success? <==> readError.None? && id in wallets
    ensures r.Success? ==> r.value == wallets[id]
    ensures r.Success? && KeysMatch(wallets) ==> r.value.uuid == id
    ensures r.Failure? && readError.Some? ==> r.error == GetFailed(readError.value)
    ensures r.Failure? && readError.None? ==> r.error == WalletNotFound
  {
    if readError.Some? then Failure(GetFailed(readError.value))
    else if id !in wallets then Failure(WalletNotFound)
    else Success(wallets[id])
  }

  /** The "wallet not found" text is returned exactly when the query succeeds and finds no row. */
  lemma NotFoundExactlyWhenAbsent(wallets: map<Uuid, Wallet>, id: Uuid, readError: Option<string>)
    ensures var r := GetWallet(wallets, id, readError);
      (r.Failure? && r.error.Message() == "wallet not found") <==> (readError.None? && id !in wallets)
    ensures var r := GetWallet(wallets, id, readError);
      r.Failure? && readError.Some? ==> r.error.Message() == "failed to get wallet: " + readError.value
  {
    var r := GetWallet(wallets, id, readError);
    if r.Failure? {
      MessageIdentifiesKind(r.error);
    }
  }

  /**
   * The outcome of one balance operation on table `wallets`: the row as the UPDATE
   * leaves it, or the error returned. `operationType` true is a deposit, false a
   * withdrawal. The checks run in the source's order: the lookup, the amount,
   * BEGIN, the funds, UPDATE, COMMIT.
   */
  function Operate(wallets: map<Uuid, Wallet>, id: Uuid, operationType: bool, amount: int, faults: Faults)
    : (r: Result<Wallet, WalletError>)
    ensures r.Success? <==>
      && faults == NoFaults
      && id in wallets
      && amount > 0
      && (operationType || amount <= wallets[id].balance)
    ensures r.Success? ==>
      && r.value == wallets[id].(balance := r.value.balance)
      && r.value.balance == if operationType then wallets[id].balance + amount else wallets[id].balance - amount
    ensures r.Success? && wallets[id].balance >= 0 ==> r.value.balance >= 0
    ensures r.Failure? && !r.error.IsInfrastructure() ==> faults.readError.None?
  {
    var lookup := GetWallet(wallets, id, faults.readError);
    if lookup.Failure? then Failure(lookup.error)
    else if amount <= 0 then Failure(AmountNotPositive)
    else if faults.beginError.Some? then Failure(BeginFailed(faults.beginError.value))
    else if !operationType && lookup.value.balance < amount then Failure(InsufficientFunds)
    else if faults.updateError.Some? then Failure(UpdateFailed(faults.updateError.value))
    else if faults.commitError.Some? then Failure(CommitFailed(faults.commitError.value))
    else
      var balance := if operationType then lookup.value.balance + amount else lookup.value.balance - amount;
      Success(lookup.value.(balance := balance))
  }

  /** The table after one operation: the updated row when it committed, the old table otherwise. */
  function Committed(wallets: map<Uuid, Wallet>, id: Uuid, operationType: bool, amount: int, faults: Faults)
    : (after: map<Uuid, Wallet>)
    ensures after.Keys == wallets.Keys
    ensures forall other :: other in wallets && other != id ==> after[other] == wallets[other]
    ensures id in wallets ==>
      && after[id].uuid == wallets[id].uuid
      && after[id].currency == wallets[id].currency
      && after[id].createdAt == wallets[id].createdAt
    ensures Operate(wallets, id, operationType, amount, faults).Failure? ==> after == wallets
    ensures Operate(wallets, id, operationType, amount, faults).Success? ==>
      after == wallets[id := Operate(wallets, id, operationType, amount, faults).value]
    ensures NonNegative(wallets) ==> NonNegative(after)
    ensures KeysMatch(wallets) ==> KeysMatch(after)
  {
    var r := Operate(wallets, id, operationType, amount, faults);
    if r.Success? then wallets[id := r.value] else wallets
  }

  /**
   * With no database failure, a deposit of a positive amount into an existing wallet
   * commits, adding the amount.
   */
  lemma DepositAddsAmount(wallets: map<Uuid, Wallet>, id: Uuid, amount: int)
    requires id in wallets && amount > 0
    ensures Operate(wallets, id, true, amount, NoFaults).Success?
    ensures Committed(wallets, id, true, amount, NoFaults)[id].balance == wallets[id].balance + amount
  {
  }

  /**
   * With no database failure, a withdrawal of a positive amount commits exactly when it
   * does not exceed the balance; taking the whole balance is allowed and leaves zero.
   */
  lemma WithdrawSucceedsIff(wallets: map<Uuid, Wallet>, id: Uuid, amount: int)
    requires id in wallets && amount > 0
    ensures Operate(wallets, id, false, amount, NoFaults).Success? <==> amount <= wallets[id].balance
    ensures amount <= wallets[id].balance ==>
      Committed(wallets, id, false, amount, NoFaults)[id].balance == wallets[id].balance - amount
    ensures amount == wallets[id].balance ==>
      Committed(wallets, id, false, amount, NoFaults)[id].balance == 0
  {
  }

  /**
   * When the row query and BEGIN succeed, withdrawing more than the balance fails with
   * "insufficient funds" and changes nothing.
   */
  lemma OverdraftRejected(wallets: map<Uuid, Wallet>, id: Uuid, amount: int, faults: Faults)
    requires faults.readError.None? && faults.beginError.None?
    requires id in wallets && amount > wallets[id].balance && amount > 0
    ensures Operate(wallets, id, false, amount, faults) == Failure(InsufficientFunds)
    ensures Committed(wallets, id, false, amount, faults) == wallets
  {
  }

  /**
   * When the row query succeeds, a non-positive amount on an existing wallet fails, for
   * both kinds, and changes nothing.
   */
  lemma AmountMustBePositive(wallets: map<Uuid, Wallet>, id: Uuid, operationType: bool, amount: int, faults: Faults)
    requires faults.readError.None? && id in wallets && amount <= 0
    ensures Operate(wallets, id, operationType, amount, faults) == Failure(AmountNotPositive)
    ensures Committed(wallets, id, operationType, amount, faults) == wallets
  {
  }

  /**
   * When the row query succeeds, the lookup comes first: an unknown id is
   * "wallet not found" whatever the amount.
   */
  lemma NotFoundTakesPrecedence(wallets: map<Uuid, Wallet>, id: Uuid, operationType: bool, amount: int, faults: Faults)
    requires faults.readError.None? && id !in wallets
    ensures Operate(wallets, id, operationType, amount, faults) == Failure(WalletNotFound)
    ensures Committed(wallets, id, operationType, amount, faults) == wallets
  {
  }

  /** A failing UPDATE or COMMIT is reported, and the rollback leaves the table as it was. */
  lemma WriteFailureRollsBack(wallets: map<Uuid, Wallet>, id: Uuid, operationType: bool, amount: int, faults: Faults)
    requires faults.updateError.Some? || faults.commitError.Some?
    ensures Operate(wallets, id, operationType, amount, faults).Failure?
    ensures Committed(wallets, id, operationType, amount, faults) == wallets
  {
  }

  /** One request against the service's table, in the order the store applied it. */
  datatype Operation = Operation(id: Uuid, operationType: bool, amount: int, faults: Faults)

  /** The table after a series of operations, each committed or rolled back on its own. */
  function ApplyAll(wallets: map<Uuid, Wallet>, ops: seq<Operation>): (after: map<Uuid, Wallet>)
    ensures after.Keys == wallets.Keys
    decreases |ops|
  {
    if ops == [] then wallets
    else
      var op := ops[0];
      ApplyAll(Committed(wallets, op.id, op.operationType, op.amount, op.faults), ops[1..])
  }

  /** No sequence of operations, whatever their outcomes, makes a balance negative. */
  lemma {:induction false} ApplyAllPreservesNonNegative(wallets: map<Uuid, Wallet>, ops: seq<Operation>)
    requires NonNegative(wallets)
    ensures NonNegative(ApplyAll(wallets, ops))
    decreases |ops|
  {
    if ops != [] {
      var op := ops[0];
      ApplyAllPreservesNonNegative(Committed(wallets, op.id, op.operationType, op.amount, op.faults), ops[1..]);
    }
  }

  /** `n` deposits of `amount` into one wallet, with no database failure. */
  function Deposits(id: Uuid, amount: int, n: nat): (ops: seq<Operation>)
    ensures |ops| == n
  {
    seq(n, _ => Operation(id, true, amount, NoFaults))
  }

  /**
   * With no database failure, `n` deposits of a positive `amount` into an existing
   * wallet, applied one after another, add exactly `n * amount`.
   */
  lemma {:induction false} RepeatedDeposits(wallets: map<Uuid, Wallet>, id: Uuid, amount: int, n: nat)
    requires id in wallets && amount > 0
    ensures ApplyAll(wallets, Deposits(id, amount, n))[id].balance == wallets[id].balance + n * amount
    decreases n
  {
    if n > 0 {
      var ops := Deposits(id, amount, n);
      assert ops[1..] == Deposits(id, amount, n - 1);
      var next := Committed(wallets, id, true, amount, NoFaults);
      DepositAddsAmount(wallets, id, amount);
      RepeatedDeposits(next, id, amount, n - 1);
      assert next[id].balance + (n - 1) * amount == wallets[id].balance + n * amount;
    }
  }

  /**
   * The operation test's deposit (a USD wallet holding 1000.00 takes 100.00 and holds
   * 1100.00), followed by an added withdrawal of 2000.00 that the funds check rejects
   * with "insufficient funds", leaving 1100.00.
   */
  lemma DepositThenOverdraft(id: Uuid, createdAt: Timestamp)
    ensures var start := map[id := Wallet(id, 100000, "USD", createdAt)];
      var afterDeposit := Committed(start, id, true, 10000, NoFaults);
      && afterDeposit[id].balance == 110000
      && Operate(afterDeposit, id, false, 200000, NoFaults) == Failure(InsufficientFunds)
      && Committed(afterDeposit, id, false, 200000, NoFaults)[id].balance == 110000
  {
  }

  /**
   * The `wallets` table behind the service's database handle.
   * Each store operation runs against it alone, one after the other.
   */
  class WalletStore {
    var wallets: map<Uuid, Wallet>

    ghost predicate Valid()
      reads this
    {
      KeysMatch(wallets)
    }

    constructor (initial: map<Uuid, Wallet>)
      requires KeysMatch(initial)
      ensures Valid() && wallets == initial
    {
      wallets := initial;
    }

    /**
     * Read the wallet, validate the amount, open a transaction, compute the new
     * balance on the local copy, UPDATE its row and COMMIT. Every early return goes
     * through the deferred rollback, so only a commit changes the table.
     */
    method PostWalletOperation(id: Uuid, operationType: bool, amount: int, faults: Faults)
      returns (err: Option<WalletError>)
      requires Valid()
      modifies this
      ensures Valid()
      ensures err.None? <==> Operate(old(wallets), id, operationType, amount, faults).Success?
      ensures err.Some? ==> err.value == Operate(old(wallets), id, operationType, amount, faults).error
      ensures wallets == Committed(old(wallets), id, operationType, amount, faults)
    {
      var lookup := GetWallet(wallets, id, faults.readError);
      if lookup.Failure? {
        return Some(lookup.error);
      }
      var wallet := lookup.value;

      if amount <= 0 {
        return Some(AmountNotPositive);
      }

      if faults.beginError.Some? {
        return Some(BeginFailed(faults.beginError.value));
      }
      // the transaction's own view of the table; discarded unless committed
      var pending := wallets;

      if !operationType {
        if wallet.balance < amount {
          return Some(InsufficientFunds);
        }
        wallet := wallet.(balance := wallet.balance - amount);
      } else {
        wallet := wallet.(balance := wallet.balance + amount);
      }

      if faults.updateError.Some? {
        return Some(UpdateFailed(faults.updateError.value));
      }
      pending := pending[id := pending[id].(balance := wallet.balance)];

      if faults.commitError.Some? {
        return Some(CommitFailed(faults.commitError.value));
      }
      wallets := pending;
      err := None;
    }
  }
}
