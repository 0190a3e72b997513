/** router/funds.py: per-user fund records and the reconciler that keeps their
    spent and balance fields in step with the user's expenses. Emails are keys
    after `strip().lower()`; `now` is the clock reading `datetime.utcnow()` gives. */
module Funds {
  import opened Results
  import opened Text
  import opened Grouping
  import opened Database

  /** The `total_funds`, `spent` and `balance` of a response. */
  datatype FundsTotals = FundsTotals(totalFunds: int, spent: int, balance: int)

  /** The response of `GET /funds/`; the timestamps are `None` when no record exists. */
  datatype FundsView = FundsView(totalFunds: int, spent: int, balance: int, createdAt: Option<int>, updatedAt: Option<int>)

  function Min(a: int, b: int): (r: int)
    ensures r <= a && r <= b && (r == a || r == b)
  {
    if a <= b then a else b
  }

  /** The (owner, amount) pairs the `$match`/`$group` pipeline of the reconciler reads. */
  function OwnerPairs(store: seq<ExpenseDoc>): (r: seq<(Option<string>, int)>)
    ensures |r| == |store|
    ensures forall i :: 0 <= i < |store| ==> r[i] == (store[i].emailId, store[i].amount)
  {
    seq(|store|, i requires 0 <= i < |store| => (store[i].emailId, store[i].amount))
  }

  /** The spend the reconciler counts for `key`: the amounts of the expenses owned by `key`. */
  function SpentBy(store: seq<ExpenseDoc>, key: string): int {
    SumFor(OwnerPairs(store), Some(key))
  }

  /** The record the reconciler writes back: spend capped at the total, the balance
      what is left, the total and creation time untouched. */
  function Reconciled(f: FundDoc, spentSum: int, now: int): (r: FundDoc)
    ensures r.emailId == f.emailId && r.totalFunds == f.totalFunds && r.createdAt == f.createdAt
    ensures r.updatedAt == now
    ensures r.spent <= r.totalFunds && r.spent <= spentSum && (r.spent == spentSum || r.spent == r.totalFunds)
    ensures r.balance == r.totalFunds - r.spent && r.balance >= 0
  {
    f.(spent := Min(spentSum, f.totalFunds), balance := f.totalFunds - Min(spentSum, f.totalFunds), updatedAt := now)
  }

  /** A record whose spent and balance agree with the expenses in `store`. */
  predicate InStep(f: FundDoc, store: seq<ExpenseDoc>) {
    f.spent == Min(SpentBy(store, f.emailId), f.totalFunds) && f.balance == f.totalFunds - f.spent
  }

  function TotalsOf(f: FundDoc): FundsTotals {
    FundsTotals(f.totalFunds, f.spent, f.balance)
  }

  /** The record the reconciler creates when a user has none. */
  function EmptyRecord(key: string, now: int): FundDoc {
    FundDoc(key, 0, 0, 0, now, now)
  }

  /** The record as it is before the reconciler's recomputation. */
  function RecordOrEmpty(funds: map<string, FundDoc>, key: string, now: int): FundDoc {
    if key in funds then funds[key] else EmptyRecord(key, now)
  }

  /** `update_user_funds` for a key already in normal form (`strip().lower()` leaves
      such a key unchanged, see `Text.NormalizeEmailIdempotent`): makes sure the user
      has a record, then recomputes its spent and balance from the user's expenses.
      The one record a route has just written may be out of step when it runs. */
  method ReconcileKey(db: Db, key: string, now: int) returns (res: FundsTotals)
    requires db.IdsValid() && Pending(db.funds, key)
    modifies db`funds
    ensures db.Valid()
    ensures db.funds == old(db.funds)[key := Reconciled(RecordOrEmpty(old(db.funds), key, now), SpentBy(db.expenses, key), now)]
    ensures res == TotalsOf(db.funds[key])
    ensures InStep(db.funds[key], db.expenses)
  {
    if key !in db.funds {
      db.funds := db.funds[key := EmptyRecord(key, now)];
    }
    var doc := db.funds[key];
    var total := doc.totalFunds;
    var spent := SpentBy(db.expenses, key);
    spent := Min(spent, total);
    var balance := total - spent;
    var updated := doc.(spent := spent, balance := balance, updatedAt := now);
    Settle(db.funds, updated);
    db.funds := db.funds[key := updated];
    res := FundsTotals(total, spent, balance);
  }

  /** `update_user_funds` as called with any email. */
  method Reconcile(db: Db, email: string, now: int) returns (res: FundsTotals)
    requires db.Valid()
    modifies db`funds
    ensures db.Valid()
    ensures var key := NormalizeEmail(email);
      && db.funds == old(db.funds)[key := Reconciled(RecordOrEmpty(old(db.funds), key, now), SpentBy(db.expenses, key), now)]
      && res == TotalsOf(db.funds[key])
      && InStep(db.funds[key], db.expenses)
  {
    var key := NormalizeEmail(email);
    res := ReconcileKey(db, key, now);
  }

  /** Running the reconciler again with no expense change in between changes no figure. */
  lemma ReconcileIdempotent(f: FundDoc, spentSum: int, now1: int, now2: int)
    requires f.totalFunds >= 0
    ensures TotalsOf(Reconciled(Reconciled(f, spentSum, now1), spentSum, now2)) == TotalsOf(Reconciled(f, spentSum, now1))
  {
  }

  /** The record `allocate_funds` writes before reconciling: a new record holding
      `amount`, or the old one with `amount` added to its total. */
  function Allocated(funds: map<string, FundDoc>, key: string, amount: int, now: int): (r: FundDoc)
    ensures r.emailId == (if key in funds then funds[key].emailId else key)
    ensures r.totalFunds == (if key in funds then funds[key].totalFunds else 0) + amount
  {
    if key in funds then funds[key].(totalFunds := funds[key].totalFunds + amount, updatedAt := now)
    else FundDoc(key, amount, 0, amount, now, now)
  }

  /** `POST /funds/allocate`. An amount that is not positive is refused by the body
      validation before the handler runs. The handler and the reconciler it calls read
      the clock separately: `now` is the handler's reading, `reconciledAt` the
      reconciler's. */
  method AllocateFunds(db: Db, email: string, amount: int, now: int, reconciledAt: int) returns (res: Result<FundsTotals, ApiError>)
    requires db.Valid()
    modifies db`funds
    ensures db.Valid()
    ensures amount <= 0 ==> res == Err(Unprocessable) && db.funds == old(db.funds)
    ensures amount > 0 ==> var key := NormalizeEmail(email);
      && db.funds == old(db.funds)[key := Reconciled(Allocated(old(db.funds), key, amount, now), SpentBy(db.expenses, key), reconciledAt)]
      && res == Ok(TotalsOf(db.funds[key]))
  {
    if amount <= 0 {
      return Err(Unprocessable);
    }
    var key := NormalizeEmail(email);
    var doc := Allocated(db.funds, key, amount, now);
    WritePending(db.funds, doc);
    db.funds := db.funds[key := doc];
    var totals := ReconcileKey(db, key, reconciledAt);
    return Ok(totals);
  }

  /** `PUT /funds/update`. A negative total is refused by the body validation; a
      missing record raises a 404 inside the handler's `try`, which turns it into a 500.
      As in `AllocateFunds`, `reconciledAt` is the reconciler's own clock reading. */
  method UpdateFunds(db: Db, email: string, total: int, now: int, reconciledAt: int) returns (res: Result<FundsTotals, ApiError>)
    requires db.Valid()
    modifies db`funds
    ensures db.Valid()
    ensures total < 0 ==> res == Err(Unprocessable) && db.funds == old(db.funds)
    ensures total >= 0 && NormalizeEmail(email) !in old(db.funds) ==>
      res == Err(Internal("404: Funds record not found")) && db.funds == old(db.funds)
    ensures total >= 0 && NormalizeEmail(email) in old(db.funds) ==> var key := NormalizeEmail(email);
      && db.funds == old(db.funds)[key := Reconciled(old(db.funds)[key].(totalFunds := total, updatedAt := now), SpentBy(db.expenses, key), reconciledAt)]
      && res == Ok(TotalsOf(db.funds[key]))
  {
    if total < 0 {
      return Err(Unprocessable);
    }
    var key := NormalizeEmail(email);
    if key !in db.funds {
      return Err(Internal("404: Funds record not found"));
    }
    var doc := db.funds[key].(totalFunds := total, updatedAt := now);
    WritePending(db.funds, doc);
    db.funds := db.funds[key := doc];
    var totals := ReconcileKey(db, key, reconciledAt);
    return Ok(totals);
  }

  /** `GET /funds/`: the stored figures, or zeros without timestamps for a user with no
      record. Either way the balance is never negative and is the total less the spend. */
  method GetFunds(db: Db, email: string) returns (view: FundsView)
    requires db.Valid()
    ensures var key := NormalizeEmail(email);
      && (key !in db.funds ==> view == FundsView(0, 0, 0, None, None))
      && (key in db.funds ==> var f := db.funds[key];
            view == FundsView(f.totalFunds, f.spent, f.balance, Some(f.createdAt), Some(f.updatedAt)))
    ensures view.balance >= 0 && view.spent <= view.totalFunds && view.balance == view.totalFunds - view.spent
  {
    var key := NormalizeEmail(email);
    if key !in db.funds {
      return FundsView(0, 0, 0, None, None);
    }
    var f := db.funds[key];
    return FundsView(f.totalFunds, f.spent, f.balance, Some(f.createdAt), Some(f.updatedAt));
  }

  /** `DELETE /funds/{email_id}`: zeroes the three figures of an existing record without
      reconciling, and answers with the email its message names; a missing record
      raises a 404 that the handler turns into a 500. */
  method DeleteFunds(db: Db, email: string, now: int) returns (res: Result<string, ApiError>)
    requires db.Valid()
    modifies db`funds
    ensures db.Valid()
    ensures NormalizeEmail(email) !in old(db.funds) ==>
      res == Err(Internal("404: Funds record not found")) && db.funds == old(db.funds)
    ensures NormalizeEmail(email) in old(db.funds) ==> var key := NormalizeEmail(email);
      && db.funds == old(db.funds)[key := old(db.funds)[key].(totalFunds := 0, spent := 0, balance := 0, updatedAt := now)]
      && res == Ok(key)
  {
    var key := NormalizeEmail(email);
    if key !in db.funds {
      return Err(Internal("404: Funds record not found"));
    }
    var doc := db.funds[key].(totalFunds := 0, spent := 0, balance := 0, updatedAt := now);
    StoreFund(db.funds, doc);
    db.funds := db.funds[key := doc];
    return Ok(key);
  }

  /** Two allocations to a user with no expenses add up: 50 then 30 leaves a total and
      balance of 80. */
  method AllocateTwice(db: Db, email: string, now: int) returns (res: Result<FundsTotals, ApiError>)
    requires db.Valid() && NormalizeEmail(email) !in db.funds && SpentBy(db.expenses, NormalizeEmail(email)) == 0
    modifies db`funds
    ensures res == Ok(FundsTotals(80, 0, 80))
  {
    var first := AllocateFunds(db, email, 50, now, now);
    res := AllocateFunds(db, email, 30, now, now);
  }

  /** Lowering the total below the spend caps the spend at the new total: with 60 spent
      against 100, setting the total to 40 reports 40 spent and nothing left. */
  method LowerTotalBelowSpend(db: Db, email: string, now: int) returns (res: Result<FundsTotals, ApiError>)
    requires db.Valid() && NormalizeEmail(email) !in db.funds && SpentBy(db.expenses, NormalizeEmail(email)) == 60
    modifies db`funds
    ensures res == Ok(FundsTotals(40, 40, 0))
  {
    var first := AllocateFunds(db, email, 100, now, now);
    res := UpdateFunds(db, email, 40, now, now);
  }
}
