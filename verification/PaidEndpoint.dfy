/** The paid endpoint as one call, from the reservation on, with every way out of it. */
module PaidEndpoint {
  import opened Wrappers
  import opened Billing
  import opened RowLocks
  import opened Settlement

  /** Getting a runner raises, its prediction raises, or it replies. */
  datatype Runner = Unavailable | Raises | Replies(status: nat, body: string)

  datatype Response =
    | PaymentRequired(balance: int, cost: nat)
    | Served(status: nat, body: string)
    | RunnerError(status: nat, body: string)
    | InferenceFailed
    | Unhandled

  predicate Charges(consumer: Account, owner: Account, price: nat, billing: bool) {
    consumer != owner && billing && price != 0
  }

  /** What the caller is told, once past the reservation. */
  function Reply(cached: Option<string>, runner: Runner, logs: bool): Response {
    match cached
    case Some(body) => if logs then Served(200, body) else Unhandled
    case None =>
      match runner
      case Unavailable => Unhandled
      case Raises => InferenceFailed
      case Replies(status, body) =>
        if !logs then Unhandled else if status >= 400 then RunnerError(status, body) else Served(status, body)
  }

  /** A caller is served exactly what was found or replied, if it is good and could be logged; a bad reply is passed
      on, if it could be; a raise is a failure of its own; the rest is unhandled. */
  lemma ReplyIff(cached: Option<string>, runner: Runner, logs: bool, status: nat, body: string)
    ensures Reply(cached, runner, logs) == Served(status, body) <==>
            && logs
            && (if cached.Some? then status == 200 && body == cached.value
                else runner == Replies(status, body) && status < 400)
    ensures Reply(cached, runner, logs) == RunnerError(status, body) <==>
            logs && cached.None? && runner == Replies(status, body) && status >= 400
    ensures Reply(cached, runner, logs) == InferenceFailed <==> cached.None? && runner == Raises
    ensures Reply(cached, runner, logs) == Unhandled <==>
            if cached.None? && !runner.Replies? then runner == Unavailable else !logs
    ensures !Reply(cached, runner, logs).PaymentRequired?
  {
  }

  datatype Settling = Whole | HalfBack | AllBack

  /** What the caller is left to pay. */
  function Settled(cached: Option<string>, runner: Runner): Settling {
    if cached.Some? then HalfBack
    else if runner.Raises? || (runner.Replies? && runner.status >= 400) then AllBack
    else Whole
  }

  /** What a request past its reservation leaves of the wallets and the ledger it found. */
  function After(mode: Rounding, before: Store, c: User, m: User, price: nat, settling: Settling): Store
    requires c < |before.wallets| && m < |before.wallets|
  {
    var reserved := Charged(before.wallets, c, m, price);
    var charged, tx := before.ledger + [Inference(c, m, price)], |before.ledger|;
    match settling
    case Whole => Store(reserved, charged)
    case HalfBack =>
      Store(Returned(mode, reserved, c, m, price), charged + [Refund(c, m, Stored(mode, price), tx, CacheHitDiscount)])
    case AllBack => Store(before.wallets, charged + [Refund(c, m, price, tx, FailedInference)])
  }

  /** `cached` is what the cache lookup found (None also when the lookup raised), `runner` what the runner does
      if it is asked, `logs` whether the prediction log can be written. */
  method Infer(db: Accounts, consumer: Account, owner: Account, price: nat, billing: bool, cached: Option<string>,
               runner: Runner, logs: bool)
    returns (response: Response)
    requires db.Valid()
    modifies db`wallets, db`pks, db`ledger
    ensures db.Valid()
    ensures response.PaymentRequired? <==>
              && consumer != owner && billing && price > 0
              && BalanceOf(old(db.View()), consumer, db.starting) < price
    ensures response.PaymentRequired? ==>
              response.cost == price && response.balance == BalanceOf(old(db.View()), consumer, db.starting)
    ensures !response.PaymentRequired? ==> response == Reply(cached, runner, logs)
    ensures !Charges(consumer, owner, price, billing) ==> db.View() == old(db.View()) && db.ledger == old(db.ledger)
    ensures Charges(consumer, owner, price, billing) ==>
              var rows := BothJoined(old(db.View()), consumer, owner, db.starting);
              && Keyed(rows) && consumer in rows.pks && owner in rows.pks && db.pks == rows.pks
              && if response.PaymentRequired? then db.wallets == rows.wallets && db.ledger == old(db.ledger)
                 else Store(db.wallets, db.ledger)
                      == After(db.mode, Store(rows.wallets, old(db.ledger)), rows.pks[consumer], rows.pks[owner], price,
                               Settled(cached, runner))
  {
    var isFree := consumer == owner || !billing || price == 0;
    var debitTx: Option<nat> := None;
    if !isFree {
      BothKeep(db.View(), consumer, owner, db.starting);
      var balance;
      debitTx, balance := db.DebitCredits(consumer, owner, price);
      if debitTx.None? {
        return PaymentRequired(balance, price);
      }
    }
    if cached.Some? {
      if debitTx.Some? {
        db.RefundCredits(db.pks[consumer], db.pks[owner], price, debitTx.value, CacheHitDiscount);
      }
      return if logs then Served(200, cached.value) else Unhandled;
    }
    if runner.Unavailable? {
      return Unhandled;
    }
    if runner.Raises? || runner.status >= 400 {
      if debitTx.Some? {
        ghost var rows := BothJoined(old(db.View()), consumer, owner, db.starting);
        FullRefundRestores(db.mode, rows.wallets, db.pks[consumer], db.pks[owner], price);
        db.RefundCredits(db.pks[consumer], db.pks[owner], 2 * price, debitTx.value, FailedInference);
      }
      return if runner.Raises? then InferenceFailed else if logs then RunnerError(runner.status, runner.body)
             else Unhandled;
    }
    return if logs then Served(runner.status, runner.body) else Unhandled;
  }

  /** Nothing in the ledger refers to a row it does not have yet; `Settlement.RefundsAreBacked` says so of every run. */
  predicate Closed(ledger: seq<Entry>) {
    forall i :: 0 <= i < |ledger| && ledger[i].Refund? ==> ledger[i].reference < |ledger|
  }

  lemma {:induction false} NothingRefersTo(ledger: seq<Entry>, tx: nat)
    requires forall i :: 0 <= i < |ledger| && ledger[i].Refund? ==> ledger[i].reference < tx
    ensures RefundSum(ledger, tx) == 0
  {
    if ledger != [] {
      NothingRefersTo(ledger[..|ledger| - 1], tx);
    }
  }

  lemma SumAppend(ledger: seq<Entry>, e: Entry, tx: nat)
    ensures RefundSum(ledger + [e], tx) == RefundSum(ledger, tx) + if Refunds(e, tx) then e.amount else 0
  {
    assert (ledger + [e])[..|ledger|] == ledger;
  }

  /** What a request past its reservation is charged, net of its refund. */
  lemma NetCharges(mode: Rounding, before: Store, c: User, m: User, price: nat, settling: Settling)
    requires c < |before.wallets| && m < |before.wallets| && Closed(before.ledger)
    ensures var (after, tx) := (After(mode, before, c, m, price, settling).ledger, |before.ledger|);
            && tx < |after|
            && NetCharge(after, tx)
               == match settling case Whole => price case HalfBack => price - Stored(mode, price) case AllBack => 0
  {
    var after, tx := After(mode, before, c, m, price, settling).ledger, |before.ledger|;
    var charged := before.ledger + [Inference(c, m, price)];
    NothingRefersTo(before.ledger, tx);
    SumAppend(before.ledger, Inference(c, m, price), tx);
    if settling != Whole {
      assert after == charged + [after[tx + 1]];
      SumAppend(charged, after[tx + 1], tx);
    }
  }

  /** The request cost nothing: both wallets are as they were, and its net charge is zero. */
  predicate MadeWhole(before: Store, after: Store)
    requires |before.ledger| < |after.ledger|
  {
    after.wallets == before.wallets && NetCharge(after.ledger, |before.ledger|) == 0
  }

  /** A half-refund leaves a trace: in the ledger, or in the consumer's lifetime_spent. */
  lemma HalfIsNotAll(mode: Rounding, spent: int, price: nat)
    requires price > 0 && spent >= 0
    ensures Stored(mode, price) != price || Stored(mode, 2 * (spent + price) - price) != spent
  {
    if price == 1 {
      StoredHalf(mode, 0);
      StoredHalf(mode, spent);
      assert 2 * (spent + price) - price == 2 * spent + 1;
    }
  }

  lemma MadeWholeIffAllBack(mode: Rounding, before: Store, c: User, m: User, price: nat, settling: Settling)
    requires c < |before.wallets| && m < |before.wallets| && c != m && price > 0
    requires before.wallets[c].spent >= 0 && Closed(before.ledger)
    ensures |before.ledger| < |After(mode, before, c, m, price, settling).ledger|
    ensures MadeWhole(before, After(mode, before, c, m, price, settling)) <==> settling.AllBack?
  {
    var after := After(mode, before, c, m, price, settling);
    NetCharges(mode, before, c, m, price, settling);
    if settling.HalfBack? {
      var spent := before.wallets[c].spent;
      HalfIsNotAll(mode, spent, price);
      assert after.wallets[c].spent == Stored(mode, 2 * (spent + price) - price);
    }
  }

  /** Where a failure is not refunded: a cached body that cannot be logged, no runner, or a success that cannot be
      logged. */
  predicate KeepsTheMoney(cached: Option<string>, runner: Runner, logs: bool) {
    || (cached.Some? && !logs)
    || (cached.None? && (runner.Unavailable? || (runner.Replies? && runner.status < 400 && !logs)))
  }

  /** The refund on error, for every caller who is charged, and whose lifetime_spent is not negative, as in every
      run: one who is told of a failure is made whole, wallets and ledger, if and only if it is none of these
      three. */
  lemma RefundedOnFailureIff(mode: Rounding, before: Store, c: User, m: User, price: nat,
                             cached: Option<string>, runner: Runner, logs: bool)
    requires c < |before.wallets| && m < |before.wallets| && c != m && price > 0
    requires before.wallets[c].spent >= 0 && Closed(before.ledger)
    requires !Reply(cached, runner, logs).Served?
    ensures var after := After(mode, before, c, m, price, Settled(cached, runner));
            && |before.ledger| < |after.ledger|
            && (MadeWhole(before, after) <==> !KeepsTheMoney(cached, runner, logs))
            && NetCharge(after.ledger, |before.ledger|)
               == if !KeepsTheMoney(cached, runner, logs) then 0
                  else if cached.Some? then price - Stored(mode, price) else price
  {
    MadeWholeIffAllBack(mode, before, c, m, price, Settled(cached, runner));
    NetCharges(mode, before, c, m, price, Settled(cached, runner));
  }
}
