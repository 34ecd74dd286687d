/** The wallets of every run against the replayed ledger, exactly.

    A half-refund of an odd price stores columns that each round on their own, so a wallet can drift from its
    ledger. The drift of a run is the sum of what its settlements add; replay, the floor under a balance and
    conservation hold exactly where their drift is nothing, and this module says where that is. */
module Replay {
  import opened Wrappers
  import opened Billing
  import opened RowLocks
  import opened Settlement

  datatype Drift = Drift(balance: int, spent: int, earned: int)

  const NONE := Drift(0, 0, 0)

  function Plus(a: Drift, b: Drift): Drift {
    Drift(a.balance + b.balance, a.spent + b.spent, a.earned + b.earned)
  }

  /** The half-units an event gives back; None when it gives nothing back. */
  function GivenBack(w: World, h: Happening): Option<nat>
    requires Possible(w, h)
  {
    if h.Settles? && w.requests[h.r].phase.tx.Some? then
      Some(w.requests[h.r].RefundHalves(if w.requests[h.r].phase.HitPending? then ServedFromCache else FailureReported))
    else None
  }

  function WalletDrift(mode: Rounding, w: Wallet, asConsumer: bool, asCreator: bool, halves: nat): Drift {
    Drift(if asConsumer then UpDrift(mode, w.balance, halves)
      else if asCreator then DownDrift(mode, w.balance, halves) else 0,
          if asConsumer then DownDrift(mode, w.spent, halves) else 0,
          if asCreator then DownDrift(mode, w.earned, halves) else 0)
  }

  function StepDrift(mode: Rounding, w: World, h: Happening, u: User): Drift
    requires Possible(w, h) && u < |w.store.wallets|
  {
    match GivenBack(w, h)
    case None => NONE
    case Some(halves) =>
      WalletDrift(mode, w.store.wallets[u], u == w.requests[h.r].consumer, u == w.requests[h.r].creator, halves)
  }

  function RunDrift(mode: Rounding, opening: seq<Wallet>, run: seq<Happening>, u: User): Drift
    requires Opening(opening) && u < |opening|
    requires Play(mode, opening, run).Some?
  {
    if run == [] then NONE
    else
      Plus(RunDrift(mode, opening, run[..|run| - 1], u),
           StepDrift(mode, Play(mode, opening, run[..|run| - 1]).value, run[|run| - 1], u))
  }

  /** A wallet is `base`, plus its ledger rows, plus a drift. */
  predicate Replays(base: Wallet, st: Store, u: User, drift: Drift)
    requires u < |st.wallets|
  {
    && st.wallets[u].balance == base.balance + ReplayBalance(st.ledger, u) + drift.balance
    && st.wallets[u].spent == base.spent + ReplaySpent(st.ledger, u) + drift.spent
    && st.wallets[u].earned == base.earned + ReplayEarned(st.ledger, u) + drift.earned
  }

  lemma CarryReplay(base: Wallet, before: Store, after: Store, e: Entry, u: User, drift: Drift, step: Drift)
    requires u < |before.wallets| == |after.wallets| && Replays(base, before, u, drift)
    requires after.ledger == before.ledger + [e]
    requires after.wallets[u].balance == before.wallets[u].balance + BalanceEffect(e, u) + step.balance
    requires after.wallets[u].spent == before.wallets[u].spent + SpentEffect(e, u) + step.spent
    requires after.wallets[u].earned == before.wallets[u].earned + EarnedEffect(e, u) + step.earned
    ensures Replays(base, after, u, Plus(drift, step))
  {
    LedgerAppend(before.ledger, e, u);
  }

  /** The wallets a settlement leaves. */
  lemma SettledStore(mode: Rounding, w: World, r: nat)
    requires Disciplined(mode, w) && Possible(w, Settles(r)) && w.requests[r].phase.tx.Some?
    ensures var (q, n) := (w.requests[r], Following(mode, w, Settles(r)));
            var halves := GivenBack(w, Settles(r)).value;
            && q.consumer != q.creator
            && q.consumer < |w.store.wallets| && q.creator < |w.store.wallets|
            && n.store.wallets == Returned(mode, w.store.wallets, q.consumer, q.creator, halves)
            && n.store.ledger == w.store.ledger
                 + [Refund(q.consumer, q.creator, Stored(mode, halves), q.phase.tx.value,
                           if q.phase.HitPending? then CacheHitDiscount else FailedInference)]
  {
    assert Linked(w, w.requests[r]);
  }

  lemma ReturnedDrifts(mode: Rounding, ws: seq<Wallet>, consumer: User, creator: User, halves: nat, u: User, e: Entry)
    requires consumer < |ws| && creator < |ws| && u < |ws| && consumer != creator
    requires e.Refund? && e.consumer == consumer && e.creator == creator && e.amount == Stored(mode, halves)
    ensures var (after, d) := (Returned(mode, ws, consumer, creator, halves)[u],
                               WalletDrift(mode, ws[u], u == consumer, u == creator, halves));
            && after.balance == ws[u].balance + BalanceEffect(e, u) + d.balance
            && after.spent == ws[u].spent + SpentEffect(e, u) + d.spent
            && after.earned == ws[u].earned + EarnedEffect(e, u) + d.earned
  {
  }

  lemma SettleReplays(mode: Rounding, base: Wallet, w: World, r: nat, u: User, drift: Drift)
    requires Disciplined(mode, w) && Possible(w, Settles(r)) && u < |w.store.wallets|
    requires Replays(base, w.store, u, drift)
    ensures u < |Following(mode, w, Settles(r)).store.wallets|
    ensures Replays(base, Following(mode, w, Settles(r)).store, u, Plus(drift, StepDrift(mode, w, Settles(r), u)))
  {
    var q, n := w.requests[r], Following(mode, w, Settles(r));
    if q.phase.tx.Some? {
      SettledStore(mode, w, r);
      var halves, e := GivenBack(w, Settles(r)).value, n.store.ledger[|w.store.ledger|];
      ReturnedDrifts(mode, w.store.wallets, q.consumer, q.creator, halves, u, e);
      CarryReplay(base, w.store, n.store, e, u, drift, StepDrift(mode, w, Settles(r), u));
    }
  }

  lemma ReserveReplays(mode: Rounding, base: Wallet, w: World, r: nat, u: User, drift: Drift)
    requires Disciplined(mode, w) && Possible(w, Reserves(r)) && u < |w.store.wallets|
    requires Replays(base, w.store, u, drift)
    ensures u < |Following(mode, w, Reserves(r)).store.wallets|
    ensures Replays(base, Following(mode, w, Reserves(r)).store, u, drift)
  {
    var q, n := w.requests[r], Following(mode, w, Reserves(r));
    if !q.Free() && w.store.wallets[q.consumer].balance >= q.price {
      ChargeAudited(w.store.wallets, q.consumer, q.creator, q.price, u);
      CarryReplay(base, w.store, n.store, Inference(q.consumer, q.creator, q.price), u, drift, NONE);
    }
  }

  lemma StepReplays(mode: Rounding, base: Wallet, w: World, h: Happening, u: User, drift: Drift)
    requires Disciplined(mode, w) && Possible(w, h) && u < |w.store.wallets|
    requires Replays(base, w.store, u, drift)
    ensures u < |Following(mode, w, h).store.wallets|
    ensures Replays(base, Following(mode, w, h).store, u, Plus(drift, StepDrift(mode, w, h, u)))
  {
    match h
    case Settles(r) => SettleReplays(mode, base, w, r, u, drift);
    case Reserves(r) => ReserveReplays(mode, base, w, r, u, drift);
    case Deposits(user, a) =>
      CarryReplay(base, w.store, Following(mode, w, h).store, Deposit(user, a), u, drift, NONE);
    case _ =>
  }

  /** In every run a wallet is its opening value, plus the ledger replayed over its user, plus the run's drift. */
  lemma {:induction false} ReplayIsExact(mode: Rounding, opening: seq<Wallet>, run: seq<Happening>, u: User)
    requires Opening(opening) && Play(mode, opening, run).Some? && u < |opening|
    ensures Replays(opening[u], Play(mode, opening, run).value.store, u, RunDrift(mode, opening, run, u))
  {
    if run != [] {
      var before, h := run[..|run| - 1], run[|run| - 1];
      ReplayIsExact(mode, opening, before, u);
      RunsAreInOrder(mode, opening, before);
      StepReplays(mode, opening[u], Play(mode, opening, before).value, h, u, RunDrift(mode, opening, before, u));
    }
  }

  /** The wallet is its opening value plus its ledger rows, in every state of the run. */
  predicate AlwaysReplays(mode: Rounding, opening: seq<Wallet>, run: seq<Happening>, u: User)
    requires Opening(opening) && u < |opening|
    requires Play(mode, opening, run).Some?
  {
    && u < |Play(mode, opening, run).value.store.wallets|
    && Replays(opening[u], Play(mode, opening, run).value.store, u, NONE)
    && (run != [] ==> AlwaysReplays(mode, opening, run[..|run| - 1], u))
  }

  /** Every column of the wallet that is given back to, or taken from, moves as the ledger row says: no half unit is
      involved, or the tie rule takes the column the way it takes the amount. */
  predicate AsRecorded(mode: Rounding, w: Wallet, asConsumer: bool, asCreator: bool, halves: nat) {
    && (asConsumer ==> RisesAsRecorded(mode, w.balance, halves) && FallsAsRecorded(mode, w.spent, halves))
    && (asCreator ==> FallsAsRecorded(mode, w.balance, halves) && FallsAsRecorded(mode, w.earned, halves))
  }

  predicate SettlesAsRecorded(mode: Rounding, w: World, h: Happening, u: User)
    requires Possible(w, h) && u < |w.store.wallets|
  {
    var back := GivenBack(w, h);
    back.Some? ==> AsRecorded(mode, w.store.wallets[u], u == w.requests[h.r].consumer, u == w.requests[h.r].creator,
                              back.value)
  }

  /** Every settlement of the run does so for this user. */
  predicate AllAsRecorded(mode: Rounding, opening: seq<Wallet>, run: seq<Happening>, u: User)
    requires Opening(opening) && u < |opening|
    requires Play(mode, opening, run).Some?
  {
    run != [] ==>
      && AllAsRecorded(mode, opening, run[..|run| - 1], u)
      && SettlesAsRecorded(mode, Play(mode, opening, run[..|run| - 1]).value, run[|run| - 1], u)
  }

  lemma WalletDriftIsNone(mode: Rounding, w: Wallet, asConsumer: bool, asCreator: bool, halves: nat)
    requires !(asConsumer && asCreator)
    ensures WalletDrift(mode, w, asConsumer, asCreator, halves) == NONE
       <==> AsRecorded(mode, w, asConsumer, asCreator, halves)
  {
    DriftIsZeroIff(mode, w.balance, halves);
    DriftIsZeroIff(mode, w.spent, halves);
    DriftIsZeroIff(mode, w.earned, halves);
  }

  lemma StepDriftIsNone(mode: Rounding, w: World, h: Happening, u: User)
    requires Disciplined(mode, w) && Possible(w, h) && u < |w.store.wallets|
    ensures StepDrift(mode, w, h, u) == NONE <==> SettlesAsRecorded(mode, w, h, u)
  {
    var back := GivenBack(w, h);
    if back.Some? {
      var q := w.requests[h.r];
      SettledStore(mode, w, h.r);
      WalletDriftIsNone(mode, w.store.wallets[u], u == q.consumer, u == q.creator, back.value);
    }
  }

  /** A wallet that replays still does after an event if and only if the event settles as it is recorded. */
  lemma EventKeepsReplayIff(mode: Rounding, base: Wallet, w: World, h: Happening, u: User)
    requires Disciplined(mode, w) && Possible(w, h) && u < |w.store.wallets| && Replays(base, w.store, u, NONE)
    ensures u < |Following(mode, w, h).store.wallets|
    ensures Replays(base, Following(mode, w, h).store, u, NONE) <==> SettlesAsRecorded(mode, w, h, u)
  {
    StepReplays(mode, base, w, h, u, NONE);
    StepDriftIsNone(mode, w, h, u);
    OneDrift(base, Following(mode, w, h).store, u, StepDrift(mode, w, h, u));
  }

  lemma OneDrift(base: Wallet, st: Store, u: User, drift: Drift)
    requires u < |st.wallets| && Replays(base, st, u, Plus(NONE, drift))
    ensures Replays(base, st, u, NONE) <==> drift == NONE
  {
    var balance, spent, earned := ReplayBalance(st.ledger, u), ReplaySpent(st.ledger, u), ReplayEarned(st.ledger, u);
    SameColumn(st.wallets[u].balance, base.balance + balance, drift.balance);
    SameColumn(st.wallets[u].spent, base.spent + spent, drift.spent);
    SameColumn(st.wallets[u].earned, base.earned + earned, drift.earned);
  }

  lemma SameColumn(column: int, recorded: int, drift: int)
    requires column == recorded + drift
    ensures column == recorded + 0 <==> drift == 0
  {
  }

  /** Throughout a run a wallet replays from the ledger if and only if every settlement that touches it moves its
      columns as it is recorded; under both rounding rules, and for every user. */
  lemma {:induction false} ReplayHoldsIff(mode: Rounding, opening: seq<Wallet>, run: seq<Happening>, u: User)
    requires Opening(opening) && Play(mode, opening, run).Some? && u < |opening|
    ensures AlwaysReplays(mode, opening, run, u) <==> AllAsRecorded(mode, opening, run, u)
  {
    if run != [] {
      var before, h := run[..|run| - 1], run[|run| - 1];
      ReplayHoldsIff(mode, opening, before, u);
      ReplayIsExact(mode, opening, before, u);
      RunsAreInOrder(mode, opening, before);
      if Replays(opening[u], Play(mode, opening, before).value.store, u, NONE) {
        EventKeepsReplayIff(mode, opening[u], Play(mode, opening, before).value, h, u);
      }
    }
  }

  /*** Ties away from zero: the lifetime totals. ***/

  /** The odd discounts a user got as consumer, or gave as creator. */
  function OddBought(ledger: seq<Entry>, u: User): nat {
    if ledger == [] then 0
    else
      var before, e := ledger[..|ledger| - 1], ledger[|ledger| - 1];
      OddBought(before, u) + if OddDiscount(before, e) && e.consumer == u then 1 else 0
  }

  function OddSold(ledger: seq<Entry>, u: User): nat {
    if ledger == [] then 0
    else
      var before, e := ledger[..|ledger| - 1], ledger[|ledger| - 1];
      OddSold(before, u) + if OddDiscount(before, e) && e.creator == u then 1 else 0
  }

  lemma CountsAppend(ledger: seq<Entry>, e: Entry, u: User)
    ensures OddBought(ledger + [e], u)
            == OddBought(ledger, u) + if OddDiscount(ledger, e) && e.consumer == u then 1 else 0
    ensures OddSold(ledger + [e], u) == OddSold(ledger, u) + if OddDiscount(ledger, e) && e.creator == u then 1 else 0
  {
    assert (ledger + [e])[..|ledger|] == ledger;
  }

  /** A settlement gives back half a unit exactly when its ledger row is an odd discount. */
  lemma SettledIsOdd(mode: Rounding, w: World, r: nat)
    requires Disciplined(mode, w) && Possible(w, Settles(r)) && w.requests[r].phase.tx.Some?
    ensures var q := w.requests[r];
            var e := Refund(q.consumer, q.creator, Stored(mode, GivenBack(w, Settles(r)).value), q.phase.tx.value,
                            if q.phase.HitPending? then CacheHitDiscount else FailedInference);
            && (OddDiscount(w.store.ledger, e) <==> GivenBack(w, Settles(r)).value % 2 == 1)
            && (GivenBack(w, Settles(r)).value % 2 == 1 ==> GivenBack(w, Settles(r)).value == q.price)
  {
    assert Linked(w, w.requests[r]);
  }

  /** No more is given back than the lifetime totals still hold. */
  lemma TotalsCover(mode: Rounding, opening: seq<Wallet>, w: World, r: nat, u: User)
    requires Disciplined(mode, w) && Books(opening, w) && Possible(w, Settles(r)) && w.requests[r].phase.tx.Some?
    requires u < |w.store.wallets|
    ensures u == w.requests[r].consumer ==> w.store.wallets[u].spent >= w.requests[r].price > 0
    ensures u == w.requests[r].creator ==> w.store.wallets[u].earned >= w.requests[r].price > 0
  {
    var q := w.requests[r];
    assert Linked(w, q) && InOrder(opening, w, u);
    StakesUpdate(w.requests, r, q.(phase := Arrived), u, true);
    StakesUpdate(w.requests, r, q.(phase := Arrived), u, false);
  }

  lemma AwaySettle(opening: seq<Wallet>, w: World, r: nat, u: User)
    requires Disciplined(HalfAwayFromZero, w) && Books(opening, w) && Possible(w, Settles(r)) && u < |w.store.wallets|
    requires w.requests[r].phase.tx.Some?
    ensures var (d, odd) := (StepDrift(HalfAwayFromZero, w, Settles(r), u), GivenBack(w, Settles(r)).value % 2);
            && d.spent == (if u == w.requests[r].consumer then odd else 0)
            && d.earned == (if u == w.requests[r].creator then odd else 0)
  {
    var halves, x := GivenBack(w, Settles(r)).value, w.store.wallets[u];
    SettledIsOdd(HalfAwayFromZero, w, r);
    TotalsCover(HalfAwayFromZero, opening, w, r, u);
    DriftIsZeroIff(HalfAwayFromZero, x.spent, halves);
    DriftIsZeroIff(HalfAwayFromZero, x.earned, halves);
  }

  lemma AwayPaidSettle(opening: seq<Wallet>, w: World, r: nat, u: User)
    requires Disciplined(HalfAwayFromZero, w) && Books(opening, w) && Possible(w, Settles(r)) && u < |w.store.wallets|
    requires w.requests[r].phase.tx.Some?
    ensures var d := StepDrift(HalfAwayFromZero, w, Settles(r), u);
            var after := Following(HalfAwayFromZero, w, Settles(r)).store.ledger;
            && d.spent == OddBought(after, u) - OddBought(w.store.ledger, u)
            && d.earned == OddSold(after, u) - OddSold(w.store.ledger, u)
  {
    SettledStore(HalfAwayFromZero, w, r);
    SettledIsOdd(HalfAwayFromZero, w, r);
    AwaySettle(opening, w, r, u);
    var q := w.requests[r];
    var e := Refund(q.consumer, q.creator, Stored(HalfAwayFromZero, GivenBack(w, Settles(r)).value), q.phase.tx.value,
                    if q.phase.HitPending? then CacheHitDiscount else FailedInference);
    CountsAppend(w.store.ledger, e, u);
  }

  lemma QuietCounts(mode: Rounding, w: World, h: Happening, u: User)
    requires PartiesExist(w) && Possible(w, h) && GivenBack(w, h).None?
    ensures OddBought(Following(mode, w, h).store.ledger, u) == OddBought(w.store.ledger, u)
    ensures OddSold(Following(mode, w, h).store.ledger, u) == OddSold(w.store.ledger, u)
  {
    if h.Reserves? {
      var q := w.requests[h.r];
      CountsAppend(w.store.ledger, Inference(q.consumer, q.creator, q.price), u);
    } else if h.Deposits? {
      CountsAppend(w.store.ledger, Deposit(h.user, h.amount), u);
    }
  }

  lemma AwayStep(opening: seq<Wallet>, w: World, h: Happening, u: User)
    requires Disciplined(HalfAwayFromZero, w) && Books(opening, w) && Possible(w, h) && u < |w.store.wallets|
    ensures var d := StepDrift(HalfAwayFromZero, w, h, u);
            var after := Following(HalfAwayFromZero, w, h).store.ledger;
            && d.spent == OddBought(after, u) - OddBought(w.store.ledger, u)
            && d.earned == OddSold(after, u) - OddSold(w.store.ledger, u)
  {
    if GivenBack(w, h).Some? {
      AwayPaidSettle(opening, w, h.r, u);
    } else {
      QuietCounts(HalfAwayFromZero, w, h, u);
    }
  }

  /** With ties away from zero, in every run, each odd discount puts the consumer's lifetime_spent and the
      creator's lifetime_earned one unit above their ledger rows; so they replay if and only if there is none. */
  lemma {:induction false} LifetimeTotalsDrift(opening: seq<Wallet>, run: seq<Happening>, u: User)
    requires Opening(opening) && Play(HalfAwayFromZero, opening, run).Some? && u < |opening|
    ensures var d := RunDrift(HalfAwayFromZero, opening, run, u);
            var st := Play(HalfAwayFromZero, opening, run).value.store;
            && d.spent == OddBought(st.ledger, u) && d.earned == OddSold(st.ledger, u)
  {
    if run != [] {
      var before, h := run[..|run| - 1], run[|run| - 1];
      LifetimeTotalsDrift(opening, before, u);
      RunsAreInOrder(HalfAwayFromZero, opening, before);
      AwayStep(opening, Play(HalfAwayFromZero, opening, before).value, h, u);
    }
  }

  lemma LifetimeTotalsReplayIff(opening: seq<Wallet>, run: seq<Happening>, u: User)
    requires Opening(opening) && Play(HalfAwayFromZero, opening, run).Some? && u < |opening|
    ensures var st := Play(HalfAwayFromZero, opening, run).value.store;
            && u < |st.wallets|
            && st.wallets[u].spent == opening[u].spent + ReplaySpent(st.ledger, u) + OddBought(st.ledger, u)
            && st.wallets[u].earned == opening[u].earned + ReplayEarned(st.ledger, u) + OddSold(st.ledger, u)
            && (st.wallets[u].spent == opening[u].spent + ReplaySpent(st.ledger, u) <==> OddBought(st.ledger, u) == 0)
            && (st.wallets[u].earned == opening[u].earned + ReplayEarned(st.ledger, u) <==> OddSold(st.ledger, u) == 0)
  {
    ReplayIsExact(HalfAwayFromZero, opening, run, u);
    LifetimeTotalsDrift(opening, run, u);
  }

  /** An odd half-refund that leaves the balance below zero. */
  predicate BelowZero(w: Wallet, asConsumer: bool, asCreator: bool, halves: nat) {
    && halves % 2 == 1
    && ((asConsumer && 2 * w.balance + halves < 0) || (asCreator && 2 * w.balance - halves < 0))
  }

  function StepBelowZero(w: World, h: Happening, u: User): nat
    requires Possible(w, h) && u < |w.store.wallets|
  {
    var back := GivenBack(w, h);
    if back.Some?
       && BelowZero(w.store.wallets[u], u == w.requests[h.r].consumer, u == w.requests[h.r].creator, back.value)
    then 1 else 0
  }

  /** How many settlements of the run do that to this user. */
  function RunBelowZero(mode: Rounding, opening: seq<Wallet>, run: seq<Happening>, u: User): nat
    requires Opening(opening) && u < |opening|
    requires Play(mode, opening, run).Some?
  {
    if run == [] then 0
    else
      RunBelowZero(mode, opening, run[..|run| - 1], u)
      + StepBelowZero(Play(mode, opening, run[..|run| - 1]).value, run[|run| - 1], u)
  }

  lemma AwayBalances(balance: int, halves: nat)
    ensures DownDrift(HalfAwayFromZero, balance, halves) == if 2 * balance - halves < 0 then 0 else halves % 2
    ensures UpDrift(HalfAwayFromZero, balance, halves) == if 2 * balance + halves < 0 then -(halves % 2) else 0
  {
    var k := halves / 2;
    if halves % 2 == 0 {
      assert halves == 2 * k;
      EvenDrift(HalfAwayFromZero, balance, k);
    } else {
      assert halves == 2 * k + 1;
      OddDownDrift(HalfAwayFromZero, balance, k);
      OddUpDrift(HalfAwayFromZero, balance, k);
    }
  }

  lemma AwayBalanceStep(w: World, h: Happening, u: User)
    requires Disciplined(HalfAwayFromZero, w) && Possible(w, h) && u < |w.store.wallets|
    ensures StepDrift(HalfAwayFromZero, w, h, u).balance
         == OddSold(Following(HalfAwayFromZero, w, h).store.ledger, u) - OddSold(w.store.ledger, u)
            - StepBelowZero(w, h, u)
  {
    if GivenBack(w, h).Some? {
      AwayBalances(w.store.wallets[u].balance, GivenBack(w, h).value);
      SettledStore(HalfAwayFromZero, w, h.r);
      SettledIsOdd(HalfAwayFromZero, w, h.r);
      CountsAppend(w.store.ledger, Following(HalfAwayFromZero, w, h).store.ledger[|w.store.ledger|], u);
    } else {
      QuietCounts(HalfAwayFromZero, w, h, u);
    }
  }

  lemma {:induction false} BalanceDrift(opening: seq<Wallet>, run: seq<Happening>, u: User)
    requires Opening(opening) && Play(HalfAwayFromZero, opening, run).Some? && u < |opening|
    ensures RunDrift(HalfAwayFromZero, opening, run, u).balance
         == OddSold(Play(HalfAwayFromZero, opening, run).value.store.ledger, u)
            - RunBelowZero(HalfAwayFromZero, opening, run, u)
  {
    if run != [] {
      var before, h := run[..|run| - 1], run[|run| - 1];
      BalanceDrift(opening, before, u);
      RunsAreInOrder(HalfAwayFromZero, opening, before);
      AwayBalanceStep(Play(HalfAwayFromZero, opening, before).value, h, u);
    }
  }

  /** And the balance is above its ledger rows by the odd discounts the user gave as creator, less those discounts
      that left it below zero; it replays if and only if these are as many. */
  lemma BalanceReplayIff(opening: seq<Wallet>, run: seq<Happening>, u: User)
    requires Opening(opening) && Play(HalfAwayFromZero, opening, run).Some? && u < |opening|
    ensures var st := Play(HalfAwayFromZero, opening, run).value.store;
            var (sold, below) := (OddSold(st.ledger, u), RunBelowZero(HalfAwayFromZero, opening, run, u));
            && u < |st.wallets|
            && st.wallets[u].balance == opening[u].balance + ReplayBalance(st.ledger, u) + sold - below
            && (st.wallets[u].balance == opening[u].balance + ReplayBalance(st.ledger, u) <==> sold == below)
  {
    ReplayIsExact(HalfAwayFromZero, opening, run, u);
    BalanceDrift(opening, run, u);
  }

  /*** The floor under a balance. ***/

  predicate OnFloor(st: Store, u: User)
    requires u < |st.wallets|
  {
    st.wallets[u].balance >= -RefundsPaid(st.ledger, u)
  }

  /** The event settles an odd discount of this creator in the one case in which that breaks its floor. */
  predicate Breaks(mode: Rounding, w: World, h: Happening, u: User)
    requires Possible(w, h) && u < |w.store.wallets|
  {
    && GivenBack(w, h).Some? && u == w.requests[h.r].creator
    && BreaksFloor(mode, w.store.wallets[u].balance, RefundsPaid(w.store.ledger, u), GivenBack(w, h).value)
  }

  lemma RisesNoLower(mode: Rounding, column: int, halves: nat)
    ensures Stored(mode, 2 * column + halves) >= column
  {
  }

  /** One refund, for one user: the creator's floor is at stake, and nobody else's. */
  lemma RefundFloor(mode: Rounding, before: Store, after: Store, e: Entry, halves: nat, u: User)
    requires e.Refund? && e.consumer != e.creator && e.consumer < |before.wallets| && e.creator < |before.wallets|
    requires e.amount == Stored(mode, halves) && after.ledger == before.ledger + [e]
    requires after.wallets == Returned(mode, before.wallets, e.consumer, e.creator, halves)
    requires u < |before.wallets| && OnFloor(before, u)
    ensures OnFloor(after, u)
       <==> !(u == e.creator && BreaksFloor(mode, before.wallets[u].balance, RefundsPaid(before.ledger, u), halves))
  {
    LedgerAppend(before.ledger, e, u);
    var balance, paid := before.wallets[u].balance, RefundsPaid(before.ledger, u);
    if u == e.creator {
      assert after.wallets[u].balance == Stored(mode, 2 * balance - halves);
      RefundKeepsFloor(mode, balance, paid, halves);
    } else if u == e.consumer {
      assert after.wallets[u].balance == Stored(mode, 2 * balance + halves);
      RisesNoLower(mode, balance, halves);
    }
  }

  lemma SettleFloor(mode: Rounding, w: World, r: nat, u: User)
    requires Disciplined(mode, w) && Possible(w, Settles(r)) && u < |w.store.wallets| && OnFloor(w.store, u)
    ensures u < |Following(mode, w, Settles(r)).store.wallets|
    ensures OnFloor(Following(mode, w, Settles(r)).store, u) <==> !Breaks(mode, w, Settles(r), u)
  {
    if w.requests[r].phase.tx.Some? {
      var n := Following(mode, w, Settles(r));
      SettledStore(mode, w, r);
      RefundFloor(mode, w.store, n.store, n.store.ledger[|w.store.ledger|], GivenBack(w, Settles(r)).value, u);
    }
  }

  lemma ReserveFloor(mode: Rounding, w: World, r: nat, u: User)
    requires Disciplined(mode, w) && Possible(w, Reserves(r)) && u < |w.store.wallets| && OnFloor(w.store, u)
    ensures u < |Following(mode, w, Reserves(r)).store.wallets|
    ensures OnFloor(Following(mode, w, Reserves(r)).store, u)
  {
    var q := w.requests[r];
    LedgerAppend(w.store.ledger, Inference(q.consumer, q.creator, q.price), u);
    RefundsPaidNonNegative(w.store.ledger, u);
  }

  /** From every world of every run, an event keeps a floor that holds, unless it is that one case. */
  lemma EventKeepsFloorIff(mode: Rounding, w: World, h: Happening, u: User)
    requires Disciplined(mode, w) && Possible(w, h) && u < |w.store.wallets| && OnFloor(w.store, u)
    ensures u < |Following(mode, w, h).store.wallets|
    ensures OnFloor(Following(mode, w, h).store, u) <==> !Breaks(mode, w, h, u)
  {
    if h.Settles? {
      SettleFloor(mode, w, h.r, u);
    } else if h.Reserves? {
      ReserveFloor(mode, w, h.r, u);
    } else {
      QuietFloor(mode, w, h, u);
    }
  }

  lemma QuietFloor(mode: Rounding, w: World, h: Happening, u: User)
    requires Disciplined(mode, w) && Possible(w, h) && !h.Settles? && !h.Reserves?
    requires u < |w.store.wallets| && OnFloor(w.store, u)
    ensures u < |Following(mode, w, h).store.wallets|
    ensures OnFloor(Following(mode, w, h).store, u)
  {
    if h.Deposits? {
      LedgerAppend(w.store.ledger, Deposit(h.user, h.amount), u);
    }
  }

  /** The floor holds in every state of the run. */
  predicate AlwaysOnFloor(mode: Rounding, opening: seq<Wallet>, run: seq<Happening>, u: User)
    requires Opening(opening) && u < |opening|
    requires Play(mode, opening, run).Some?
  {
    OnFloor(Play(mode, opening, run).value.store, u)
    && (run != [] ==> AlwaysOnFloor(mode, opening, run[..|run| - 1], u))
  }

  predicate NeverBreaks(mode: Rounding, opening: seq<Wallet>, run: seq<Happening>, u: User)
    requires Opening(opening) && u < |opening|
    requires Play(mode, opening, run).Some?
  {
    run != [] ==>
      && NeverBreaks(mode, opening, run[..|run| - 1], u)
      && !Breaks(mode, Play(mode, opening, run[..|run| - 1]).value, run[|run| - 1], u)
  }

  /** A balance stays at or above minus what its user has refunded throughout a run if and only if no event of
      the run breaks it; with ties away from zero, none can. */
  lemma {:induction false} FloorHoldsIff(mode: Rounding, opening: seq<Wallet>, run: seq<Happening>, u: User)
    requires Opening(opening) && Play(mode, opening, run).Some? && u < |opening|
    ensures AlwaysOnFloor(mode, opening, run, u) <==> NeverBreaks(mode, opening, run, u)
    ensures mode.HalfAwayFromZero? ==> AlwaysOnFloor(mode, opening, run, u)
  {
    if run != [] {
      var before, h := run[..|run| - 1], run[|run| - 1];
      FloorHoldsIff(mode, opening, before, u);
      RunsAreInOrder(mode, opening, before);
      if OnFloor(Play(mode, opening, before).value.store, u) {
        EventKeepsFloorIff(mode, Play(mode, opening, before).value, h, u);
      }
    }
  }

  /*** The sum of all balances. ***/

  function StepLeak(mode: Rounding, w: World, h: Happening): int
    requires Possible(w, h) && PartiesExist(w)
  {
    match GivenBack(w, h)
    case None => 0
    case Some(halves) =>
      var q := w.requests[h.r];
      Leak(mode, w.store.wallets[q.consumer].balance, w.store.wallets[q.creator].balance, halves)
  }

  function RunLeak(mode: Rounding, opening: seq<Wallet>, run: seq<Happening>): int
    requires Opening(opening)
    requires Play(mode, opening, run).Some?
  {
    if run == [] then 0
    else
      RunLeak(mode, opening, run[..|run| - 1])
      + StepLeak(mode, Play(mode, opening, run[..|run| - 1]).value, run[|run| - 1])
  }

  lemma StepSums(mode: Rounding, w: World, h: Happening)
    requires Disciplined(mode, w) && Possible(w, h)
    ensures var n := Following(mode, w, h);
            Total(n.store.wallets) - Billing.Deposits(n.store.ledger)
            == Total(w.store.wallets) - Billing.Deposits(w.store.ledger) + StepLeak(mode, w, h)
  {
    var n := Following(mode, w, h);
    match h
    case Settles(r) =>
      var q := w.requests[r];
      if q.phase.tx.Some? {
        SettledStore(mode, w, r);
        ReturnedTotal(mode, w.store.wallets, q.consumer, q.creator, GivenBack(w, h).value);
        LedgerAppend(w.store.ledger, n.store.ledger[|w.store.ledger|], 0);
      }
    case Reserves(r) =>
      var q := w.requests[r];
      ChargeConserves(w.store.wallets, q.consumer, q.creator, q.price);
      LedgerAppend(w.store.ledger, Inference(q.consumer, q.creator, q.price), 0);
    case Deposits(user, a) =>
      TotalUpdate(w.store.wallets, user, n.store.wallets[user]);
      LedgerAppend(w.store.ledger, Deposit(user, a), 0);
    case _ =>
  }

  /** In every run the balances sum to openings plus deposits plus the run's leak; so the sum is conserved if
      and only if the leaks of its settlements cancel. */
  lemma {:induction false} ConservationIsExact(mode: Rounding, opening: seq<Wallet>, run: seq<Happening>)
    requires Opening(opening) && Play(mode, opening, run).Some?
    ensures var st := Play(mode, opening, run).value.store;
            Total(st.wallets) == Total(opening) + Billing.Deposits(st.ledger) + RunLeak(mode, opening, run)
  {
    if run != [] {
      var before, h := run[..|run| - 1], run[|run| - 1];
      ConservationIsExact(mode, opening, before);
      RunsAreInOrder(mode, opening, before);
      StepSums(mode, Play(mode, opening, before).value, h);
    }
  }

  predicate NeverOverdrawn(mode: Rounding, opening: seq<Wallet>, run: seq<Happening>)
    requires Opening(opening)
    requires Play(mode, opening, run).Some?
  {
    && (forall u :: 0 <= u < |opening| ==> Play(mode, opening, run).value.store.wallets[u].balance >= 0)
    && (run != [] ==> NeverOverdrawn(mode, opening, run[..|run| - 1]))
  }

  lemma AwayLeaks(b: int, c: int, halves: nat)
    requires b >= 0 && Stored(HalfAwayFromZero, 2 * c - halves) >= 0
    ensures Leak(HalfAwayFromZero, b, c, halves) == halves % 2
  {
    LeakIsBounded(HalfAwayFromZero, b, c, halves);
    var k := halves / 2;
    if halves % 2 == 1 {
      assert 2 * c - halves == 2 * (c - k - 1) + 1 && 2 * b + halves == 2 * (b + k) + 1;
      StoredHalf(HalfAwayFromZero, c - k - 1);
      StoredHalf(HalfAwayFromZero, b + k);
    }
  }

  lemma AwaySettleLeaks(w: World, r: nat)
    requires Disciplined(HalfAwayFromZero, w) && Possible(w, Settles(r)) && w.requests[r].phase.tx.Some?
    requires forall u :: 0 <= u < |w.store.wallets| ==> w.store.wallets[u].balance >= 0
    requires var n := Following(HalfAwayFromZero, w, Settles(r));
             forall u :: 0 <= u < |n.store.wallets| ==> n.store.wallets[u].balance >= 0
    ensures StepLeak(HalfAwayFromZero, w, Settles(r)) == GivenBack(w, Settles(r)).value % 2
  {
    var q, n := w.requests[r], Following(HalfAwayFromZero, w, Settles(r));
    SettledStore(HalfAwayFromZero, w, r);
    assert n.store.wallets[q.creator].balance >= 0;
    AwayLeaks(w.store.wallets[q.consumer].balance, w.store.wallets[q.creator].balance, GivenBack(w, Settles(r)).value);
  }

  lemma AwayStepLeaks(w: World, h: Happening)
    requires Disciplined(HalfAwayFromZero, w) && Possible(w, h)
    requires forall u :: 0 <= u < |w.store.wallets| ==> w.store.wallets[u].balance >= 0
    requires var n := Following(HalfAwayFromZero, w, h);
             forall u :: 0 <= u < |n.store.wallets| ==> n.store.wallets[u].balance >= 0
    ensures StepLeak(HalfAwayFromZero, w, h)
         == OddDiscounts(Following(HalfAwayFromZero, w, h).store.ledger) - OddDiscounts(w.store.ledger)
  {
    if h.Settles? && w.requests[h.r].phase.tx.Some? {
      AwaySettleLeaks(w, h.r);
      SettledStore(HalfAwayFromZero, w, h.r);
      SettledIsOdd(HalfAwayFromZero, w, h.r);
      LedgerAppend(w.store.ledger, Following(HalfAwayFromZero, w, h).store.ledger[|w.store.ledger|], 0);
    } else if h.Reserves? {
      var q := w.requests[h.r];
      LedgerAppend(w.store.ledger, Inference(q.consumer, q.creator, q.price), 0);
    } else if h.Deposits? {
      LedgerAppend(w.store.ledger, Deposit(h.user, h.amount), 0);
    }
  }

  /** The bound on the drift is met: with ties away from zero, as long as no balance goes below zero, every odd
      discount makes one unit out of nothing. */
  lemma {:induction false} EveryOddDiscountMints(opening: seq<Wallet>, run: seq<Happening>)
    requires Opening(opening) && Play(HalfAwayFromZero, opening, run).Some?
    requires NeverOverdrawn(HalfAwayFromZero, opening, run)
    ensures var st := Play(HalfAwayFromZero, opening, run).value.store;
            && RunLeak(HalfAwayFromZero, opening, run) == OddDiscounts(st.ledger)
            && Total(st.wallets) == Total(opening) + Billing.Deposits(st.ledger) + OddDiscounts(st.ledger)
  {
    ConservationIsExact(HalfAwayFromZero, opening, run);
    if run != [] {
      var before, h := run[..|run| - 1], run[|run| - 1];
      EveryOddDiscountMints(opening, before);
      RunsAreInOrder(HalfAwayFromZero, opening, before);
      AwayStepLeaks(Play(HalfAwayFromZero, opening, before).value, h);
    }
  }

  /*** Two runs. ***/

  const BUYER: seq<Wallet> := [Wallet(1, 0, 0), Wallet(0, 0, 0)]

  lemma Arriving(mode: Rounding, opening: seq<Wallet>, run: seq<Happening>, w: World, c: User, m: User, price: nat)
    returns (longer: seq<Happening>, n: World)
    requires Opening(opening) && Play(mode, opening, run) == Some(w) && c < |w.store.wallets| && m < |w.store.wallets|
    ensures longer == run + [Arrives(c, m, price, true)] && Play(mode, opening, longer) == Some(n)
    ensures n.store == w.store && n.requests == w.requests + [Request(c, m, price, true, Arrived)]
  {
    longer := PlayOn(mode, opening, run, Arrives(c, m, price, true));
    n := Play(mode, opening, longer).value;
  }

  lemma Reserving(mode: Rounding, opening: seq<Wallet>, run: seq<Happening>, w: World, r: nat)
    returns (longer: seq<Happening>, n: World)
    requires Opening(opening) && Play(mode, opening, run) == Some(w) && Possible(w, Reserves(r))
    requires var q := w.requests[r];
             !q.Free() && q.consumer < |w.store.wallets| && w.store.wallets[q.consumer].balance >= q.price
    ensures longer == run + [Reserves(r)] && Play(mode, opening, longer) == Some(n)
    ensures var q := w.requests[r];
            && q.consumer < |w.store.wallets| && q.creator < |w.store.wallets|
            && n.store.wallets == Charged(w.store.wallets, q.consumer, q.creator, q.price)
            && n.store.ledger == w.store.ledger + [Inference(q.consumer, q.creator, q.price)]
            && n.requests == w.requests[r := q.(phase := Reserved(Some(|w.store.ledger|)))]
  {
    longer := PlayOn(mode, opening, run, Reserves(r));
    n := Play(mode, opening, longer).value;
  }

  lemma OddPriceReserved(mode: Rounding) returns (run: seq<Happening>, w: World)
    ensures run == [Arrives(0, 1, 1, true), Reserves(0), FindsCached(0)] && Play(mode, BUYER, run) == Some(w)
    ensures w.store.wallets == [Wallet(0, 1, 0), Wallet(1, 0, 1)] && w.store.ledger == [Inference(0, 1, 1)]
    ensures w.requests == [Request(0, 1, 1, true, HitPending(Some(0)))]
  {
    run, w := Arriving(mode, BUYER, [], World(Store(BUYER, []), []), 0, 1, 1);
    run, w := Reserving(mode, BUYER, run, w, 0);
    run := PlayOn(mode, BUYER, run, FindsCached(0));
    w := Play(mode, BUYER, run).value;
  }

  /** Replay and conservation fail in the code as it is, on either database: after one cache hit on a price of
      0.0001 credit, lifetime_spent is not what the ledger says, and 0.0001 is lost or made. */
  lemma ReplayFails(mode: Rounding)
    ensures var run := [Arrives(0, 1, 1, true), Reserves(0), FindsCached(0), Settles(0)];
            && Play(mode, BUYER, run).Some?
            && var st := Play(mode, BUYER, run).value.store;
               && st.wallets[0].spent != BUYER[0].spent + ReplaySpent(st.ledger, 0)
               && Total(st.wallets) == Total(BUYER) + Billing.Deposits(st.ledger) + if mode.HalfEven? then -1 else 1
  {
    var run, w := OddPriceReserved(mode);
    RunsAreInOrder(mode, BUYER, run);
    HitFailsAtFirst(mode, w);
    var longer := PlayOn(mode, BUYER, run, Settles(0));
    assert longer == [Arrives(0, 1, 1, true), Reserves(0), FindsCached(0), Settles(0)];
  }

  lemma HitFailsAtFirst(mode: Rounding, w: World)
    requires Disciplined(mode, w)
    requires w.store.wallets == [Wallet(0, 1, 0), Wallet(1, 0, 1)] && w.store.ledger == [Inference(0, 1, 1)]
    requires w.requests == [Request(0, 1, 1, true, HitPending(Some(0)))]
    ensures var st := Following(mode, w, Settles(0)).store;
            && |st.wallets| == 2 && st.wallets[0].spent != BUYER[0].spent + ReplaySpent(st.ledger, 0)
            && Total(st.wallets) == Total(BUYER) + Billing.Deposits(st.ledger) + if mode.HalfEven? then -1 else 1
  {
    LedgerOfOne(Inference(0, 1, 1), 0);
    HitFails(mode, BUYER[0], w, 0);
    TotalOfTwo(w.store.wallets);
    TotalOfTwo(BUYER);
  }

  lemma LedgerOfOne(e: Entry, u: User)
    ensures ReplayBalance([e], u) == BalanceEffect(e, u) && ReplaySpent([e], u) == SpentEffect(e, u)
    ensures ReplayEarned([e], u) == EarnedEffect(e, u) && (e.Inference? ==> Billing.Deposits([e]) == 0)
  {
    assert [e][..0] == [];
  }

  /** A cache hit on a price of 1, of a consumer with nothing left and a creator with that 1. */
  predicate HitOnOne(w: World, r: nat) {
    && r < |w.requests| && w.requests[r].phase.HitPending? && w.requests[r].phase.tx.Some? && w.requests[r].price == 1
    && w.requests[r].consumer < |w.store.wallets| && w.requests[r].creator < |w.store.wallets|
    && w.store.wallets[w.requests[r].consumer].balance == 0 && w.store.wallets[w.requests[r].consumer].spent == 1
    && w.store.wallets[w.requests[r].creator].balance == 1
  }

  lemma DriftOfHit(mode: Rounding, w: World, r: nat)
    requires HitOnOne(w, r) && PartiesExist(w)
    ensures var (c, m) := (w.store.wallets[w.requests[r].consumer], w.store.wallets[w.requests[r].creator]);
            && StepDrift(mode, w, Settles(r), w.requests[r].consumer).spent == DownDrift(mode, c.spent, 1)
            && StepLeak(mode, w, Settles(r)) == Leak(mode, c.balance, m.balance, 1)
  {
    assert GivenBack(w, Settles(r)) == Some(1);
  }

  lemma HitDrifts(mode: Rounding, w: World, r: nat)
    requires HitOnOne(w, r) && PartiesExist(w)
    ensures StepDrift(mode, w, Settles(r), w.requests[r].consumer).spent == (if mode.HalfEven? then -1 else 1)
    ensures StepLeak(mode, w, Settles(r)) == (if mode.HalfEven? then -1 else 1)
  {
    var c, m := w.store.wallets[w.requests[r].consumer], w.store.wallets[w.requests[r].creator];
    DriftOfHit(mode, w, r);
    HalfOfOne(mode, c.balance, c.spent, m.balance, 1);
  }

  lemma HitFails(mode: Rounding, base: Wallet, w: World, r: nat)
    requires Disciplined(mode, w) && HitOnOne(w, r) && Replays(base, w.store, w.requests[r].consumer, NONE)
    ensures var (st, c) := (Following(mode, w, Settles(r)).store, w.requests[r].consumer);
            && c < |st.wallets| && st.wallets[c].spent != base.spent + ReplaySpent(st.ledger, c)
            && Total(st.wallets) - Billing.Deposits(st.ledger)
               == Total(w.store.wallets) - Billing.Deposits(w.store.ledger) + if mode.HalfEven? then -1 else 1
  {
    HitDrifts(mode, w, r);
    SettleReplays(mode, base, w, r, w.requests[r].consumer, NONE);
    StepSums(mode, w, Settles(r));
  }

  lemma HalfOfOne(mode: Rounding, consumerBalance: int, spent: int, creatorBalance: int, halves: nat)
    requires consumerBalance == 0 && spent == creatorBalance == halves == 1
    ensures Leak(mode, consumerBalance, creatorBalance, halves) == if mode.HalfEven? then -1 else 1
    ensures DownDrift(mode, spent, halves) == if mode.HalfEven? then -1 else 1
  {
  }

  lemma TotalOfTwo(ws: seq<Wallet>)
    requires |ws| == 2
    ensures Total(ws) == ws[0].balance + ws[1].balance
  {
    assert Total(ws) == Total(ws[..1]) + ws[1].balance;
    assert Total(ws[..1]) == Total(ws[..1][..0]) + ws[0].balance;
    assert ws[..1][..0] == [];
  }

  const TRADERS: seq<Wallet> := [Wallet(0, 0, 0), Wallet(1, 0, 0), Wallet(1, 0, 0), Wallet(0, 0, 0)]

  /** A creator earns 1 from each of two users. */
  lemma TwoSales() returns (run: seq<Happening>, w: World)
    ensures Play(HalfEven, TRADERS, run) == Some(w)
    ensures w.store.wallets == [Wallet(2, 0, 2), Wallet(0, 1, 0), Wallet(0, 1, 0), Wallet(0, 0, 0)]
    ensures w.store.ledger == [Inference(1, 0, 1), Inference(2, 0, 1)]
    ensures w.requests == [Request(1, 0, 1, true, Reserved(Some(0))), Request(2, 0, 1, true, Reserved(Some(1)))]
  {
    run, w := Arriving(HalfEven, TRADERS, [], World(Store(TRADERS, []), []), 1, 0, 1);
    run, w := Reserving(HalfEven, TRADERS, run, w, 0);
    run, w := Arriving(HalfEven, TRADERS, run, w, 2, 0, 1);
    run, w := Reserving(HalfEven, TRADERS, run, w, 1);
  }

  /** It spends both; then the first user's request fails and is given back in full. */
  lemma OnTheFloor() returns (run: seq<Happening>, w: World)
    ensures Play(HalfEven, TRADERS, run) == Some(w)
    ensures |w.store.wallets| == 4 && w.store.wallets[0].balance == -1
    ensures |w.store.ledger| == 4 && (forall i :: 0 <= i < 3 ==> w.store.ledger[i].Inference?)
    ensures w.store.ledger[3] == Refund(1, 0, 1, 0, FailedInference)
    ensures |w.requests| == 3 && w.requests[1] == Request(2, 0, 1, true, Reserved(Some(1)))
  {
    run, w := TwoSales();
    run, w := Arriving(HalfEven, TRADERS, run, w, 0, 3, 2);
    run, w := Reserving(HalfEven, TRADERS, run, w, 2);
    run, w := GivenBackInFull(run, w);
  }

  lemma OneTakenBack(w: World)
    requires Disciplined(HalfEven, w) && Possible(w, Settles(0)) && |w.store.wallets| == 4
    requires w.store.wallets[0].balance == 0 && w.requests[0].phase == FailurePending(Some(0))
    requires w.requests[0].price == 1 && w.requests[0].consumer == 1 && w.requests[0].creator == 0
    ensures var n := Following(HalfEven, w, Settles(0));
            && |n.store.wallets| == 4 && n.store.wallets[0].balance == -1
            && n.store.ledger == w.store.ledger + [Refund(1, 0, 1, 0, FailedInference)]
  {
    SettledStore(HalfEven, w, 0);
    StoredWhole(HalfEven, 1);
    StoredWhole(HalfEven, -1);
  }

  lemma GivenBackInFull(run: seq<Happening>, w: World) returns (longer: seq<Happening>, n: World)
    requires Play(HalfEven, TRADERS, run) == Some(w) && |w.store.wallets| == 4 && w.store.wallets[0].balance == 0
    requires |w.requests| == 3 && w.requests[0] == Request(1, 0, 1, true, Reserved(Some(0)))
    ensures Play(HalfEven, TRADERS, longer) == Some(n)
    ensures |n.store.wallets| == 4 && n.store.wallets[0].balance == -1
    ensures n.store.ledger == w.store.ledger + [Refund(1, 0, 1, 0, FailedInference)]
    ensures |n.requests| == 3 && n.requests[1] == w.requests[1]
  {
    longer := PlayOn(HalfEven, TRADERS, run, RunnerFails(0));
    var failed := Play(HalfEven, TRADERS, longer).value;
    RunsAreInOrder(HalfEven, TRADERS, longer);
    longer := PlayOn(HalfEven, TRADERS, longer, Settles(0));
    n := Play(HalfEven, TRADERS, longer).value;
    OneTakenBack(failed);
  }

  /** With ties to even the floor can break: the first user's request fails and is given back in full, which
      takes the creator to its floor of -1; the second user's cache hit then takes it to -2 and records a
      refund of nothing. */
  lemma FloorFails() returns (run: seq<Happening>)
    ensures Play(HalfEven, TRADERS, run).Some?
    ensures !OnFloor(Play(HalfEven, TRADERS, run).value.store, 0)
    ensures !NeverBreaks(HalfEven, TRADERS, run, 0)
  {
    var w;
    run, w := OnTheFloor();
    FirstRefund(w.store.ledger);
    run := PlayOn(HalfEven, TRADERS, run, FindsCached(1));
    w := Play(HalfEven, TRADERS, run).value;
    RunsAreInOrder(HalfEven, TRADERS, run);
    EventKeepsFloorIff(HalfEven, w, Settles(1), 0);
    run := PlayOn(HalfEven, TRADERS, run, Settles(1));
    FloorHoldsIff(HalfEven, TRADERS, run, 0);
  }

  lemma FirstRefund(ledger: seq<Entry>)
    requires |ledger| == 4 && (forall i :: 0 <= i < 3 ==> ledger[i].Inference?) && ledger[3].Refund?
    requires ledger[3].creator == 0 && ledger[3].amount == 1
    ensures RefundsPaid(ledger, 0) == 1
  {
    assert RefundsPaid(ledger[..3], 0) == RefundsPaid(ledger[..3][..2], 0);
    assert RefundsPaid(ledger[..3][..2], 0) == RefundsPaid(ledger[..3][..2][..1], 0);
    assert ledger[..3][..2][..1][..0] == [];
  }
}
