/** Paid inference: every request reserves its price first and settles later, in two separate
    transactions, while any number of other requests and deposits run in between.

    Transactions are the atomic jobs of module RowLocks, which shows that locked rows make them so. */
module Settlement {
  import opened Wrappers
  import opened Billing
  import opened RowLocks

  datatype Outcome = ServedFromCache | ServedCold | FailureReported

  /** How far a request has come; `tx` is the ledger row of its reservation, None when it is free. */
  datatype Phase =
    | Arrived
    | Refused
    | Reserved(tx: Option<nat>)
    | HitPending(tx: Option<nat>)
    | FailurePending(tx: Option<nat>)
    | Finished(outcome: Outcome, tx: Option<nat>)
    | Lost(tx: Option<nat>)

  datatype Request = Request(consumer: User, creator: User, price: nat, billing: bool, phase: Phase) {
    predicate Free() {
      consumer == creator || !billing || price == 0
    }

    function Tx(): Option<nat> {
      match phase
      case Arrived => None
      case Refused => None
      case _ => phase.tx
    }

    predicate Refunded() {
      phase.Finished? && !phase.outcome.ServedCold?
    }

    /** The half-units the settlement of this request gives back. */
    function RefundHalves(outcome: Outcome): nat {
      match outcome
      case ServedCold => 0
      case ServedFromCache => price
      case FailureReported => 2 * price
    }

    function RefundUnits(mode: Rounding): int {
      if Refunded() then Stored(mode, RefundHalves(phase.outcome)) else 0
    }
  }

  datatype World = World(store: Store, requests: seq<Request>)

  datatype Happening =
    | Arrives(consumer: User, creator: User, price: nat, billing: bool)
    | Reserves(r: nat)
    | FindsCached(r: nat)
    | RunnerSucceeds(r: nat)
    | RunnerFails(r: nat)
    | Settles(r: nat)
    | Crashes(r: nat)
    | Deposits(user: User, amount: nat)

  predicate Possible(w: World, h: Happening) {
    match h
    case Arrives(c, m, _, _) => c < |w.store.wallets| && m < |w.store.wallets|
    case Deposits(u, _) => u < |w.store.wallets|
    case _ =>
      && h.r < |w.requests|
      && var phase := w.requests[h.r].phase;
         match h
         case Reserves(_) => phase.Arrived?
         case Settles(_) => phase.HitPending? || phase.FailurePending?
         case Crashes(_) => phase.Reserved? || phase.HitPending? || phase.FailurePending?
         case _ => phase.Reserved?
  }

  /** The request `r` moves to a phase. */
  function Moves(w: World, r: nat, phase: Phase): World
    requires r < |w.requests|
  {
    w.(requests := w.requests[r := w.requests[r].(phase := phase)])
  }

  function Following(mode: Rounding, w: World, h: Happening): World
    requires Possible(w, h) && PartiesExist(w)
  {
    match h
    case Arrives(c, m, price, billing) =>
      w.(requests := w.requests + [Request(c, m, price, billing, Arrived)])
    case Deposits(u, a) => w.(store := Atomically(mode, Mint(u, a), w.store))
    case FindsCached(r) => Moves(w, r, HitPending(w.requests[r].phase.tx))
    case RunnerSucceeds(r) => Moves(w, r, Finished(ServedCold, w.requests[r].phase.tx))
    case RunnerFails(r) => Moves(w, r, FailurePending(w.requests[r].phase.tx))
    case Crashes(r) => Moves(w, r, Lost(w.requests[r].phase.tx))
    case Reserves(r) =>
      var q := w.requests[r];
      if q.Free() then Moves(w, r, Reserved(None))
      else
        var st := Atomically(mode, Debit(q.consumer, q.creator, q.price), w.store);
        if w.store.wallets[q.consumer].balance < q.price then Moves(w, r, Refused)
        else Moves(w.(store := st), r, Reserved(Some(|w.store.ledger|)))
    case Settles(r) =>
      var q := w.requests[r];
      var outcome := if q.phase.HitPending? then ServedFromCache else FailureReported;
      var why := if q.phase.HitPending? then CacheHitDiscount else FailedInference;
      match q.phase.tx
      case None => Moves(w, r, Finished(outcome, None))
      case Some(tx) =>
        var st := Atomically(mode, Return(q.consumer, q.creator, q.RefundHalves(outcome), tx, why), w.store);
        Moves(w.(store := st), r, Finished(outcome, Some(tx)))
  }

  predicate PartiesExist(w: World) {
    forall r :: 0 <= r < |w.requests| ==>
      w.requests[r].consumer < |w.store.wallets| && w.requests[r].creator < |w.store.wallets|
  }

  /*** Reading the ledger. ***/

  predicate Refunds(e: Entry, tx: nat) {
    e.Refund? && e.reference == tx
  }

  function RefundCount(ledger: seq<Entry>, tx: nat): nat {
    if ledger == [] then 0
    else RefundCount(ledger[..|ledger| - 1], tx) + if Refunds(ledger[|ledger| - 1], tx) then 1 else 0
  }

  function RefundSum(ledger: seq<Entry>, tx: nat): int {
    if ledger == [] then 0
    else RefundSum(ledger[..|ledger| - 1], tx)
         + if Refunds(ledger[|ledger| - 1], tx) then ledger[|ledger| - 1].amount else 0
  }

  /** What a request ended up paying. */
  function NetCharge(ledger: seq<Entry>, tx: nat): int
    requires tx < |ledger|
  {
    ledger[tx].amount - RefundSum(ledger, tx)
  }

  /*** The discipline every run keeps. ***/

  /** The reservation of a request is the ledger row it remembers; a request past its reservation has one unless
      it is free. */
  predicate Linked(w: World, q: Request) {
    && (q.Tx().Some? ==>
          && !q.Free()
          && q.Tx().value < |w.store.ledger|
          && w.store.ledger[q.Tx().value] == Inference(q.consumer, q.creator, q.price))
    && (!q.phase.Arrived? && !q.phase.Refused? && q.Tx().None? ==> q.Free())
  }

  /** The ledger holds exactly the refund a request's outcome calls for. */
  predicate RefundedRight(mode: Rounding, w: World, q: Request) {
    q.Tx().Some? ==>
      && RefundCount(w.store.ledger, q.Tx().value) == (if q.Refunded() then 1 else 0)
      && RefundSum(w.store.ledger, q.Tx().value) == q.RefundUnits(mode)
  }

  /** A refund names an earlier reservation of the same parties and gives back no more than it took. */
  predicate Backed(ledger: seq<Entry>, i: nat)
    requires i < |ledger|
  {
    ledger[i].Refund? ==>
      && ledger[i].reference < i
      && ledger[ledger[i].reference].Inference?
      && ledger[ledger[i].reference].consumer == ledger[i].consumer
      && ledger[ledger[i].reference].creator == ledger[i].creator
      && 0 <= ledger[i].amount <= ledger[ledger[i].reference].amount
  }

  ghost predicate Disciplined(mode: Rounding, w: World) {
    && PartiesExist(w)
    && (forall r :: 0 <= r < |w.requests| ==> Linked(w, w.requests[r]) && RefundedRight(mode, w, w.requests[r]))
    && (forall r, r' :: 0 <= r < r' < |w.requests| && w.requests[r].Tx().Some? ==>
       w.requests[r].Tx() != w.requests[r'].Tx())
    && (forall i :: 0 <= i < |w.store.ledger| ==> Backed(w.store.ledger, i))
    && (forall tx: nat :: RefundCount(w.store.ledger, tx) <= (if tx < |w.store.ledger| then 1 else 0))
  }

  lemma RefundsAppend(ledger: seq<Entry>, e: Entry)
    ensures forall tx: nat :: RefundCount(ledger + [e], tx) == RefundCount(ledger, tx) + if Refunds(e, tx) then 1 else 0
    ensures forall tx: nat ::
              RefundSum(ledger + [e], tx) == RefundSum(ledger, tx) + if Refunds(e, tx) then e.amount else 0
  {
    assert (ledger + [e])[..|ledger|] == ledger;
  }

  lemma BackedStays(ledger: seq<Entry>, e: Entry)
    requires forall i :: 0 <= i < |ledger| ==> Backed(ledger, i)
    ensures forall i :: 0 <= i < |ledger| ==> Backed(ledger + [e], i)
  {
    forall i | 0 <= i < |ledger|
      ensures Backed(ledger + [e], i)
    {
      assert Backed(ledger, i);
    }
  }

  /** A move that leaves the ledger alone and keeps what the request has reserved and given back. */
  lemma QuietMove(mode: Rounding, w: World, r: nat, phase: Phase)
    requires Disciplined(mode, w) && r < |w.requests|
    requires var q := w.requests[r].(phase := phase);
             q.Tx() == w.requests[r].Tx() && !q.Refunded() && !w.requests[r].Refunded() && Linked(w, q)
    ensures Disciplined(mode, Moves(w, r, phase))
  {
    var n := Moves(w, r, phase);
    assert RefundedRight(mode, w, w.requests[r]);
    forall i | 0 <= i < |n.requests|
      ensures Linked(n, n.requests[i]) && RefundedRight(mode, n, n.requests[i])
    {
      assert Linked(w, w.requests[i]) && RefundedRight(mode, w, w.requests[i]);
    }
  }

  lemma ReserveKeepsDiscipline(mode: Rounding, w: World, r: nat)
    requires Disciplined(mode, w) && Possible(w, Reserves(r))
    ensures Disciplined(mode, Following(mode, w, Reserves(r)))
  {
    var q := w.requests[r];
    assert Linked(w, q);
    if q.Free() {
      QuietMove(mode, w, r, Reserved(None));
    } else if w.store.wallets[q.consumer].balance < q.price {
      QuietMove(mode, w, r, Refused);
    } else {
      var n := Following(mode, w, Reserves(r));
      var e := Inference(q.consumer, q.creator, q.price);
      assert n.store.ledger == w.store.ledger + [e];
      RefundsAppend(w.store.ledger, e);
      BackedStays(w.store.ledger, e);
      NoRefundNoSum(w.store.ledger, |w.store.ledger|);
      forall i | 0 <= i < |n.requests|
        ensures Linked(n, n.requests[i]) && RefundedRight(mode, n, n.requests[i])
        ensures i != r ==> n.requests[i].Tx() != n.requests[r].Tx()
      {
        assert Linked(w, w.requests[i]) && RefundedRight(mode, w, w.requests[i]);
      }
    }
  }

  lemma {:induction false} NoRefundNoSum(ledger: seq<Entry>, tx: nat)
    ensures RefundCount(ledger, tx) == 0 ==> RefundSum(ledger, tx) == 0
  {
    if ledger != [] {
      NoRefundNoSum(ledger[..|ledger| - 1], tx);
    }
  }

  lemma RefundIsNoMore(mode: Rounding, q: Request, outcome: Outcome)
    requires !outcome.ServedCold?
    ensures 0 <= Stored(mode, q.RefundHalves(outcome)) <= q.price
  {
  }

  /** The refund row `e` is appended and the request it settles is finished. */
  lemma RefundCarriesDiscipline(mode: Rounding, w: World, n: World, r: nat, tx: nat, e: Entry, outcome: Outcome)
    requires Disciplined(mode, w) && r < |w.requests| && !outcome.ServedCold?
    requires w.requests[r].Tx() == Some(tx) && !w.requests[r].Refunded()
    requires n.store.ledger == w.store.ledger + [e] && |n.store.wallets| == |w.store.wallets|
    requires n.requests == w.requests[r := w.requests[r].(phase := Finished(outcome, Some(tx)))]
    requires e.Refund? && e.consumer == w.requests[r].consumer && e.creator == w.requests[r].creator
             && e.reference == tx
    requires e.amount == Stored(mode, w.requests[r].RefundHalves(outcome)) && 0 <= e.amount <= w.requests[r].price
    ensures Disciplined(mode, n)
  {
    assert Linked(w, w.requests[r]) && RefundedRight(mode, w, w.requests[r]);
    RefundsAppend(w.store.ledger, e);
    BackedStays(w.store.ledger, e);
    forall i | 0 <= i < |n.requests|
      ensures Linked(n, n.requests[i]) && RefundedRight(mode, n, n.requests[i])
    {
      assert Linked(w, w.requests[i]) && RefundedRight(mode, w, w.requests[i]);
      assert i != r ==> w.requests[i].Tx() != Some(tx);
    }
  }

  lemma FreeSettleKeepsDiscipline(mode: Rounding, w: World, r: nat, outcome: Outcome)
    requires Disciplined(mode, w) && Possible(w, Settles(r)) && w.requests[r].phase.tx.None?
    ensures Disciplined(mode, Moves(w, r, Finished(outcome, None)))
  {
    var n := Moves(w, r, Finished(outcome, None));
    forall i | 0 <= i < |n.requests|
      ensures Linked(n, n.requests[i]) && RefundedRight(mode, n, n.requests[i])
    {
      assert Linked(w, w.requests[i]) && RefundedRight(mode, w, w.requests[i]);
    }
  }

  lemma SettleKeepsDiscipline(mode: Rounding, w: World, r: nat)
    requires Disciplined(mode, w) && Possible(w, Settles(r))
    ensures Disciplined(mode, Following(mode, w, Settles(r)))
  {
    var q := w.requests[r];
    var n := Following(mode, w, Settles(r));
    var outcome := if q.phase.HitPending? then ServedFromCache else FailureReported;
    if q.phase.tx.None? {
      FreeSettleKeepsDiscipline(mode, w, r, outcome);
    } else {
      RefundIsNoMore(mode, q, outcome);
      RefundCarriesDiscipline(mode, w, n, r, q.phase.tx.value, n.store.ledger[|w.store.ledger|], outcome);
    }
  }

  lemma ArrivalKeepsDiscipline(mode: Rounding, w: World, h: Happening)
    requires Disciplined(mode, w) && Possible(w, h) && h.Arrives?
    ensures Disciplined(mode, Following(mode, w, h))
  {
    var n := Following(mode, w, h);
    forall i | 0 <= i < |n.requests|
      ensures Linked(n, n.requests[i]) && RefundedRight(mode, n, n.requests[i])
    {
      if i < |w.requests| {
        assert Linked(w, w.requests[i]) && RefundedRight(mode, w, w.requests[i]);
      }
    }
  }

  lemma DepositKeepsDiscipline(mode: Rounding, w: World, user: User, amount: nat)
    requires Disciplined(mode, w) && Possible(w, Happening.Deposits(user, amount))
    ensures Disciplined(mode, Following(mode, w, Happening.Deposits(user, amount)))
  {
    var n := Following(mode, w, Happening.Deposits(user, amount));
    RefundsAppend(w.store.ledger, Deposit(user, amount));
    BackedStays(w.store.ledger, Deposit(user, amount));
    forall i | 0 <= i < |n.requests|
      ensures Linked(n, n.requests[i]) && RefundedRight(mode, n, n.requests[i])
    {
      assert Linked(w, w.requests[i]) && RefundedRight(mode, w, w.requests[i]);
    }
  }

  lemma StepKeepsDiscipline(mode: Rounding, w: World, h: Happening)
    requires Disciplined(mode, w) && Possible(w, h)
    ensures Disciplined(mode, Following(mode, w, h))
  {
    match h
    case Reserves(r) => ReserveKeepsDiscipline(mode, w, r);
    case Settles(r) => SettleKeepsDiscipline(mode, w, r);
    case Arrives(_, _, _, _) => ArrivalKeepsDiscipline(mode, w, h);
    case Deposits(u, a) => DepositKeepsDiscipline(mode, w, u, a);
    case _ =>
      assert Linked(w, w.requests[h.r]);
      QuietMove(mode, w, h.r, Following(mode, w, h).requests[h.r].phase);
  }

  /*** The wallets against the ledger. ***/

  /** A cache-hit refund of an odd price, the only movement that involves half a unit. */
  predicate OddDiscount(before: seq<Entry>, e: Entry) {
    e.Refund? && e.reason.CacheHitDiscount? && e.reference < |before| && before[e.reference].amount % 2 == 1
  }

  predicate Involves(e: Entry, u: User) {
    e.consumer == u || (!e.Deposit? && e.creator == u)
  }

  function OddDiscounts(ledger: seq<Entry>): nat {
    if ledger == [] then 0
    else
      var before, e := ledger[..|ledger| - 1], ledger[|ledger| - 1];
      OddDiscounts(before) + if OddDiscount(before, e) then 1 else 0
  }

  function OddDiscountsOf(ledger: seq<Entry>, u: User): nat {
    if ledger == [] then 0
    else
      var before, e := ledger[..|ledger| - 1], ledger[|ledger| - 1];
      OddDiscountsOf(before, u) + if OddDiscount(before, e) && Involves(e, u) then 1 else 0
  }

  /** What a user has given back as creator. */
  function RefundsPaid(ledger: seq<Entry>, u: User): int {
    if ledger == [] then 0
    else
      var before, e := ledger[..|ledger| - 1], ledger[|ledger| - 1];
      RefundsPaid(before, u) + if e.Refund? && e.creator == u then e.amount else 0
  }

  predicate Near(x: int, y: int, slack: nat) {
    y - slack <= x <= y + slack
  }

  /** A wallet is its opening value plus the ledger replayed over that user, up to the odd discounts. */
  predicate Audited(opening: seq<Wallet>, st: Store, u: User)
    requires u < |opening| == |st.wallets|
  {
    && Near(st.wallets[u].balance, opening[u].balance + ReplayBalance(st.ledger, u), OddDiscountsOf(st.ledger, u))
    && Near(st.wallets[u].spent, opening[u].spent + ReplaySpent(st.ledger, u), OddDiscountsOf(st.ledger, u))
    && Near(st.wallets[u].earned, opening[u].earned + ReplayEarned(st.ledger, u), OddDiscountsOf(st.ledger, u))
  }

  /** A balance goes below zero only as far as the user has refunded. */
  predicate Solvent(st: Store, u: User)
    requires u < |st.wallets|
  {
    st.wallets[u].balance >= -RefundsPaid(st.ledger, u) - OddDiscountsOf(st.ledger, u)
  }

  predicate Conserved(opening: seq<Wallet>, st: Store) {
    Near(Total(st.wallets), Total(opening) + Billing.Deposits(st.ledger), OddDiscounts(st.ledger))
  }

  /** What the requests of a user hold on to: reservations not given back. */
  function Stake(q: Request, u: User, asConsumer: bool): nat {
    if q.Tx().Some? && !q.Refunded() && u == (if asConsumer then q.consumer else q.creator) then q.price else 0
  }

  function Stakes(requests: seq<Request>, u: User, asConsumer: bool): nat {
    if requests == [] then 0
    else Stakes(requests[..|requests| - 1], u, asConsumer) + Stake(requests[|requests| - 1], u, asConsumer)
  }

  /** The lifetime totals still contain every reservation that was not given back. */
  predicate Covered(w: World, u: User)
    requires u < |w.store.wallets|
  {
    && w.store.wallets[u].spent >= Stakes(w.requests, u, true)
    && w.store.wallets[u].earned >= Stakes(w.requests, u, false)
  }

  predicate InOrder(opening: seq<Wallet>, w: World, u: User)
    requires u < |opening| == |w.store.wallets|
  {
    Audited(opening, w.store, u) && Solvent(w.store, u) && Covered(w, u)
  }

  ghost predicate Books(opening: seq<Wallet>, w: World) {
    && |opening| == |w.store.wallets|
    && (forall u :: 0 <= u < |opening| ==> InOrder(opening, w, u))
    && Conserved(opening, w.store)
  }

  lemma {:induction false} StakesUpdate(requests: seq<Request>, r: nat, q: Request, u: User, asConsumer: bool)
    requires r < |requests|
    ensures Stakes(requests[r := q], u, asConsumer)
            == Stakes(requests, u, asConsumer) - Stake(requests[r], u, asConsumer) + Stake(q, u, asConsumer)
    ensures Stakes(requests, u, asConsumer) >= Stake(requests[r], u, asConsumer)
  {
    var n := |requests| - 1;
    if r == n {
      assert requests[r := q][..n] == requests[..n];
    } else {
      assert requests[r := q][..n] == requests[..n][r := q];
      StakesUpdate(requests[..n], r, q, u, asConsumer);
    }
  }

  /** A charge changes each wallet by exactly what its ledger row says. */
  lemma ChargeAudited(ws: seq<Wallet>, consumer: User, creator: User, amount: nat, u: User)
    requires consumer < |ws| && creator < |ws| && consumer != creator && u < |ws|
    ensures var w, e := Charged(ws, consumer, creator, amount)[u], Inference(consumer, creator, amount);
            && w.balance == ws[u].balance + BalanceEffect(e, u)
            && w.spent == ws[u].spent + SpentEffect(e, u)
            && w.earned == ws[u].earned + EarnedEffect(e, u)
  {
  }

  /** A refund does so up to one unit, and exactly when no half unit is involved. */
  lemma RefundAudited(mode: Rounding, ws: seq<Wallet>, halves: int, e: Entry, u: User)
    requires e.Refund? && e.consumer < |ws| && e.creator < |ws| && e.consumer != e.creator && u < |ws|
    requires e.amount == Stored(mode, halves)
    ensures var w := Returned(mode, ws, e.consumer, e.creator, halves)[u];
            var slack := if halves % 2 == 1 && Involves(e, u) then 1 else 0;
            && Near(w.balance, ws[u].balance + BalanceEffect(e, u), slack)
            && Near(w.spent, ws[u].spent + SpentEffect(e, u), slack)
            && Near(w.earned, ws[u].earned + EarnedEffect(e, u), slack)
  {
    var w := Returned(mode, ws, e.consumer, e.creator, halves)[u];
    if u == e.consumer {
      assert w == Received(mode, ws[u], halves);
    } else if u == e.creator {
      assert w == Gave(mode, ws[u], halves);
    } else {
      assert w == ws[u];
    }
  }

  lemma LedgerAppend(ledger: seq<Entry>, e: Entry, u: User)
    ensures ReplayBalance(ledger + [e], u) == ReplayBalance(ledger, u) + BalanceEffect(e, u)
    ensures ReplaySpent(ledger + [e], u) == ReplaySpent(ledger, u) + SpentEffect(e, u)
    ensures ReplayEarned(ledger + [e], u) == ReplayEarned(ledger, u) + EarnedEffect(e, u)
    ensures RefundsPaid(ledger + [e], u) == RefundsPaid(ledger, u) + if e.Refund? && e.creator == u then e.amount else 0
    ensures OddDiscountsOf(ledger + [e], u)
            == OddDiscountsOf(ledger, u) + if OddDiscount(ledger, e) && Involves(e, u) then 1 else 0
    ensures OddDiscounts(ledger + [e]) == OddDiscounts(ledger) + if OddDiscount(ledger, e) then 1 else 0
    ensures Billing.Deposits(ledger + [e]) == Billing.Deposits(ledger) + if e.Deposit? then e.amount else 0
  {
    assert (ledger + [e])[..|ledger|] == ledger;
  }

  /** An audited wallet stays audited when it changes by what the new ledger row says, or by one unit
      more or less for an odd discount. */
  lemma CarryAudit(opening: seq<Wallet>, before: Store, after: Store, e: Entry, u: User)
    requires u < |opening| == |before.wallets| == |after.wallets|
    requires Audited(opening, before, u) && after.ledger == before.ledger + [e]
    requires var slack := if OddDiscount(before.ledger, e) && Involves(e, u) then 1 else 0;
             && Near(after.wallets[u].balance, before.wallets[u].balance + BalanceEffect(e, u), slack)
             && Near(after.wallets[u].spent, before.wallets[u].spent + SpentEffect(e, u), slack)
             && Near(after.wallets[u].earned, before.wallets[u].earned + EarnedEffect(e, u), slack)
    ensures Audited(opening, after, u)
  {
    LedgerAppend(before.ledger, e, u);
  }

  /** The lifetime totals move with the stake of the one request that changed. */
  lemma CarryCover(w: World, n: World, r: nat, u: User)
    requires r < |w.requests| && u < |w.store.wallets| == |n.store.wallets| && Covered(w, u)
    requires |n.requests| == |w.requests| && n.requests == w.requests[r := n.requests[r]]
    requires n.store.wallets[u].spent - w.store.wallets[u].spent
             >= Stake(n.requests[r], u, true) - Stake(w.requests[r], u, true)
    requires n.store.wallets[u].earned - w.store.wallets[u].earned
             >= Stake(n.requests[r], u, false) - Stake(w.requests[r], u, false)
    ensures Covered(n, u)
  {
    StakesUpdate(w.requests, r, n.requests[r], u, true);
    StakesUpdate(w.requests, r, n.requests[r], u, false);
  }

  /** What a charge keeps for one wallet: it leaves its consumer with a non-negative balance and lowers
      no other. */
  lemma ChargeCarries(opening: seq<Wallet>, w: World, n: World, r: nat, e: Entry, u: User)
    requires u < |opening| == |w.store.wallets| == |n.store.wallets| && InOrder(opening, w, u)
    requires e.Inference? && e.amount >= 0 && n.store.ledger == w.store.ledger + [e]
    requires forall i :: 0 <= i < |w.store.ledger| ==> Backed(w.store.ledger, i)
    requires var x, y := n.store.wallets[u], w.store.wallets[u];
             && x.balance == y.balance + BalanceEffect(e, u)
             && x.spent == y.spent + SpentEffect(e, u)
             && x.earned == y.earned + EarnedEffect(e, u)
             && (u == e.consumer ==> x.balance >= 0)
    requires r < |w.requests| == |n.requests| && n.requests == w.requests[r := n.requests[r]]
    requires Stake(n.requests[r], u, true) - Stake(w.requests[r], u, true) == SpentEffect(e, u)
    requires Stake(n.requests[r], u, false) - Stake(w.requests[r], u, false) == EarnedEffect(e, u)
    ensures InOrder(opening, n, u)
  {
    CarryAudit(opening, w.store, n.store, e, u);
    CarryCover(w, n, r, u);
    assert Solvent(n.store, u) by {
      LedgerAppend(w.store.ledger, e, u);
      RefundsPaidNonNegative(w.store.ledger, u);
    }
  }

  /** What a refund keeps for one wallet. */
  lemma RefundCarries(opening: seq<Wallet>, w: World, n: World, r: nat, e: Entry, u: User)
    requires u < |opening| == |w.store.wallets| == |n.store.wallets| && InOrder(opening, w, u)
    requires e.Refund? && e.amount >= 0 && e.consumer != e.creator && n.store.ledger == w.store.ledger + [e]
    requires var slack := if OddDiscount(w.store.ledger, e) && Involves(e, u) then 1 else 0;
             var x, y := n.store.wallets[u], w.store.wallets[u];
             && Near(x.balance, y.balance + BalanceEffect(e, u), slack)
             && Near(x.spent, y.spent + SpentEffect(e, u), slack)
             && Near(x.earned, y.earned + EarnedEffect(e, u), slack)
    requires r < |w.requests| == |n.requests| && n.requests == w.requests[r := n.requests[r]]
    requires var x, y := n.store.wallets[u], w.store.wallets[u];
             && Stake(n.requests[r], u, true) - Stake(w.requests[r], u, true) <= x.spent - y.spent
             && Stake(n.requests[r], u, false) - Stake(w.requests[r], u, false) <= x.earned - y.earned
    ensures InOrder(opening, n, u)
  {
    CarryAudit(opening, w.store, n.store, e, u);
    CarryCover(w, n, r, u);
    assert Solvent(n.store, u) by {
      LedgerAppend(w.store.ledger, e, u);
    }
  }

  /** Replacing request `r` by one with the same stake. */
  lemma QuietBooks(opening: seq<Wallet>, w: World, r: nat, phase: Phase)
    requires Books(opening, w) && r < |w.requests|
    requires var q := w.requests[r].(phase := phase);
             forall u :: 0 <= u < |opening| ==>
               && Stake(q, u, true) <= Stake(w.requests[r], u, true)
               && Stake(q, u, false) <= Stake(w.requests[r], u, false)
    ensures Books(opening, Moves(w, r, phase))
  {
    forall u | 0 <= u < |opening|
      ensures InOrder(opening, Moves(w, r, phase), u)
    {
      assert InOrder(opening, w, u);
      CarryCover(w, Moves(w, r, phase), r, u);
    }
  }

  /** The reservation transaction and the phase change that goes with it. */
  lemma ReserveKeepsBooks(mode: Rounding, opening: seq<Wallet>, w: World, r: nat)
    requires Disciplined(mode, w) && Books(opening, w) && Possible(w, Reserves(r))
    ensures Books(opening, Following(mode, w, Reserves(r)))
  {
    var q := w.requests[r];
    assert Linked(w, q);
    if q.Free() {
      QuietBooks(opening, w, r, Reserved(None));
    } else if w.store.wallets[q.consumer].balance < q.price {
      QuietBooks(opening, w, r, Refused);
    } else {
      var n := Following(mode, w, Reserves(r));
      var e := Inference(q.consumer, q.creator, q.price);
      ChargeConserves(w.store.wallets, q.consumer, q.creator, q.price);
      forall u | 0 <= u < |opening|
        ensures InOrder(opening, n, u)
      {
        assert InOrder(opening, w, u);
        ChargeAudited(w.store.wallets, q.consumer, q.creator, q.price, u);
        ChargeCarries(opening, w, n, r, e, u);
      }
      LedgerAppend(w.store.ledger, e, 0);
    }
  }

  lemma {:induction false} RefundsPaidNonNegative(ledger: seq<Entry>, u: User)
    requires forall i :: 0 <= i < |ledger| ==> Backed(ledger, i)
    ensures RefundsPaid(ledger, u) >= 0
  {
    if ledger != [] {
      var n := |ledger| - 1;
      assert Backed(ledger, n);
      forall i | 0 <= i < n
        ensures Backed(ledger[..n], i)
      {
        assert Backed(ledger, i);
      }
      RefundsPaidNonNegative(ledger[..n], u);
    }
  }

  lemma SettleKeepsBooks(mode: Rounding, opening: seq<Wallet>, w: World, r: nat)
    requires Disciplined(mode, w) && Books(opening, w) && Possible(w, Settles(r))
    ensures Books(opening, Following(mode, w, Settles(r)))
  {
    var q := w.requests[r];
    var n := Following(mode, w, Settles(r));
    assert Linked(w, q);
    match q.phase.tx
    case None =>
      QuietBooks(opening, w, r, n.requests[r].phase);
    case Some(tx) =>
      var outcome := n.requests[r].phase.outcome;
      var e := n.store.ledger[|w.store.ledger|];
      assert n.store.wallets == Returned(mode, w.store.wallets, q.consumer, q.creator, q.RefundHalves(outcome));
      RefundKeepsBooks(mode, opening, w, n, r, e, q.RefundHalves(outcome));
  }

  lemma RefundKeepsBooks(mode: Rounding, opening: seq<Wallet>, w: World, n: World, r: nat, e: Entry, halves: nat)
    requires Books(opening, w) && r < |w.requests| == |n.requests|
    requires e.Refund? && e.consumer < |w.store.wallets| && e.creator < |w.store.wallets| && e.consumer != e.creator
    requires 0 <= e.amount == Stored(mode, halves)
    requires OddDiscount(w.store.ledger, e) <==> halves % 2 == 1
    requires n.store == Store(Returned(mode, w.store.wallets, e.consumer, e.creator, halves), w.store.ledger + [e])
    requires n.requests == w.requests[r := n.requests[r]]
    requires forall u :: 0 <= u < |opening| ==>
      && Stake(n.requests[r], u, true) == 0 && (u == e.consumer ==> 2 * Stake(w.requests[r], u, true) >= halves)
      && Stake(n.requests[r], u, false) == 0 && (u == e.creator ==> 2 * Stake(w.requests[r], u, false) >= halves)
    ensures Books(opening, n)
  {
    RefundConserves(mode, w.store.wallets, e.consumer, e.creator, halves);
    forall u | 0 <= u < |opening|
      ensures InOrder(opening, n, u)
    {
      assert InOrder(opening, w, u);
      RefundAudited(mode, w.store.wallets, halves, e, u);
      RefundCarries(opening, w, n, r, e, u);
    }
    LedgerAppend(w.store.ledger, e, 0);
  }

  lemma DepositCarries(opening: seq<Wallet>, w: World, n: World, e: Entry, u: User)
    requires u < |opening| == |w.store.wallets| == |n.store.wallets| && InOrder(opening, w, u)
    requires e.Deposit? && e.amount >= 0 && n.store.ledger == w.store.ledger + [e] && n.requests == w.requests
    requires n.store.wallets[u] == w.store.wallets[u].(balance := w.store.wallets[u].balance + BalanceEffect(e, u))
    ensures InOrder(opening, n, u)
  {
    LedgerAppend(w.store.ledger, e, u);
  }

  lemma DepositKeepsBooks(mode: Rounding, opening: seq<Wallet>, w: World, user: User, amount: nat)
    requires PartiesExist(w) && Books(opening, w) && Possible(w, Happening.Deposits(user, amount))
    ensures Books(opening, Following(mode, w, Happening.Deposits(user, amount)))
  {
    var n := Following(mode, w, Happening.Deposits(user, amount));
    TotalUpdate(w.store.wallets, user, n.store.wallets[user]);
    forall u | 0 <= u < |opening|
      ensures InOrder(opening, n, u)
    {
      assert InOrder(opening, w, u);
      DepositCarries(opening, w, n, Deposit(user, amount), u);
    }
    LedgerAppend(w.store.ledger, Deposit(user, amount), 0);
  }

  lemma StepKeepsBooks(mode: Rounding, opening: seq<Wallet>, w: World, h: Happening)
    requires Disciplined(mode, w) && Books(opening, w) && Possible(w, h)
    ensures Books(opening, Following(mode, w, h))
  {
    var n := Following(mode, w, h);
    match h
    case Reserves(r) => ReserveKeepsBooks(mode, opening, w, r);
    case Settles(r) => SettleKeepsBooks(mode, opening, w, r);
    case Arrives(_, _, _, _) =>
      assert n.requests[..|w.requests|] == w.requests;
      forall u | 0 <= u < |opening|
        ensures InOrder(opening, n, u)
      {
        assert InOrder(opening, w, u);
      }
    case Deposits(user, a) =>
      DepositKeepsBooks(mode, opening, w, user, a);
    case _ =>
      QuietBooks(opening, w, h.r, n.requests[h.r].phase);
  }

  /*** Every run. ***/

  /** Wallets as they are created: nothing negative. */
  predicate Opening(ws: seq<Wallet>) {
    forall u :: 0 <= u < |ws| ==> ws[u].balance >= 0 && ws[u].spent >= 0 && ws[u].earned >= 0
  }

  lemma StepKeepsParties(mode: Rounding, w: World, h: Happening)
    requires PartiesExist(w) && Possible(w, h)
    ensures PartiesExist(Following(mode, w, h))
    ensures |Following(mode, w, h).store.wallets| == |w.store.wallets|
  {
  }

  function Play(mode: Rounding, opening: seq<Wallet>, run: seq<Happening>): (r: Option<World>)
    requires Opening(opening)
    ensures r.Some? ==> PartiesExist(r.value) && |r.value.store.wallets| == |opening|
  {
    if run == [] then Some(World(Store(opening, []), []))
    else
      match Play(mode, opening, run[..|run| - 1])
      case None => None
      case Some(w) =>
        var h := run[|run| - 1];
        if Possible(w, h) then
          StepKeepsParties(mode, w, h);
          Some(Following(mode, w, h))
        else None
  }

  lemma {:induction false} RunsAreInOrder(mode: Rounding, opening: seq<Wallet>, run: seq<Happening>)
    requires Opening(opening) && Play(mode, opening, run).Some?
    ensures Disciplined(mode, Play(mode, opening, run).value) && Books(opening, Play(mode, opening, run).value)
  {
    if run != [] {
      RunsAreInOrder(mode, opening, run[..|run| - 1]);
      var w := Play(mode, opening, run[..|run| - 1]).value;
      StepKeepsDiscipline(mode, w, run[|run| - 1]);
      StepKeepsBooks(mode, opening, w, run[|run| - 1]);
    }
  }

  /*** What happened to a request, and where it stands. ***/

  /** The arrivals of a run, in order. */
  function ArrivalsOf(run: seq<Happening>): seq<Happening> {
    if run == [] then []
    else ArrivalsOf(run[..|run| - 1]) + if run[|run| - 1].Arrives? then [run[|run| - 1]] else []
  }

  predicate ArrivedAs(h: Happening, q: Request) {
    h == Arrives(q.consumer, q.creator, q.price, q.billing)
  }

  predicate Spotless(run: seq<Happening>, r: nat) {
    && Reserves(r) !in run && FindsCached(r) !in run && RunnerSucceeds(r) !in run && RunnerFails(r) !in run
    && Settles(r) !in run && Crashes(r) !in run
  }

  /** Where a request stands is what the events of the run say of it. */
  predicate Told(run: seq<Happening>, r: nat, phase: Phase) {
    match phase
    case Arrived => Spotless(run, r)
    case Refused =>
      && Reserves(r) in run && FindsCached(r) !in run && RunnerSucceeds(r) !in run && RunnerFails(r) !in run
      && Settles(r) !in run && Crashes(r) !in run
    case Reserved(_) =>
      && Reserves(r) in run && FindsCached(r) !in run && RunnerSucceeds(r) !in run && RunnerFails(r) !in run
      && Settles(r) !in run && Crashes(r) !in run
    case HitPending(_) =>
      && FindsCached(r) in run && RunnerSucceeds(r) !in run && RunnerFails(r) !in run
      && Settles(r) !in run && Crashes(r) !in run
    case FailurePending(_) =>
      && RunnerFails(r) in run && FindsCached(r) !in run && RunnerSucceeds(r) !in run
      && Settles(r) !in run && Crashes(r) !in run
    case Finished(outcome, _) =>
      && (FindsCached(r) in run <==> outcome.ServedFromCache?)
      && (RunnerSucceeds(r) in run <==> outcome.ServedCold?)
      && (RunnerFails(r) in run <==> outcome.FailureReported?)
      && (Settles(r) in run <==> !outcome.ServedCold?) && Crashes(r) !in run
    case Lost(_) => Crashes(r) in run && RunnerSucceeds(r) !in run && Settles(r) !in run
  }

  function PhaseOf(w: World, r: nat): Phase {
    if r < |w.requests| then w.requests[r].phase else Arrived
  }

  lemma OthersAreTold(run: seq<Happening>, h: Happening, r: nat, phase: Phase)
    requires Told(run, r, phase) && (h.Arrives? || h.Deposits? || h.r != r)
    ensures Told(run + [h], r, phase)
  {
  }

  lemma MovedIsTold(mode: Rounding, w: World, run: seq<Happening>, h: Happening)
    requires PartiesExist(w) && Possible(w, h) && !h.Arrives? && !h.Deposits?
    requires Told(run, h.r, w.requests[h.r].phase)
    ensures Told(run + [h], h.r, Following(mode, w, h).requests[h.r].phase)
  {
    var longer := run + [h];
    assert forall x :: x in longer <==> x in run || x == h;
  }

  lemma StepIsTold(mode: Rounding, w: World, run: seq<Happening>, h: Happening, r: nat)
    requires PartiesExist(w) && Possible(w, h) && Told(run, r, PhaseOf(w, r))
    ensures Told(run + [h], r, PhaseOf(Following(mode, w, h), r))
  {
    if h.Arrives? || h.Deposits? || h.r != r {
      OthersAreTold(run, h, r, PhaseOf(w, r));
    } else {
      MovedIsTold(mode, w, run, h);
    }
  }

  lemma StepKeepsArrivals(mode: Rounding, w: World, run: seq<Happening>, h: Happening)
    requires PartiesExist(w) && Possible(w, h) && |ArrivalsOf(run)| == |w.requests|
    requires forall i :: 0 <= i < |w.requests| ==> ArrivedAs(ArrivalsOf(run)[i], w.requests[i])
    ensures var n := Following(mode, w, h);
            && |ArrivalsOf(run + [h])| == |n.requests|
            && forall i :: 0 <= i < |n.requests| ==> ArrivedAs(ArrivalsOf(run + [h])[i], n.requests[i])
  {
    assert (run + [h])[..|run|] == run;
  }

  /** In every run, the requests are those that arrived, and each stands where the events of the run put it. */
  lemma {:induction false} RunsAreTold(mode: Rounding, opening: seq<Wallet>, run: seq<Happening>, r: nat)
    requires Opening(opening) && Play(mode, opening, run).Some?
    ensures var w := Play(mode, opening, run).value;
            && Told(run, r, PhaseOf(w, r))
            && |ArrivalsOf(run)| == |w.requests|
            && forall i :: 0 <= i < |w.requests| ==> ArrivedAs(ArrivalsOf(run)[i], w.requests[i])
  {
    if run != [] {
      var before, h := run[..|run| - 1], run[|run| - 1];
      assert run == before + [h];
      RunsAreTold(mode, opening, before, r);
      StepIsTold(mode, Play(mode, opening, before).value, before, h, r);
      StepKeepsArrivals(mode, Play(mode, opening, before).value, before, h);
    }
  }

  /** What a request is charged for. */
  predicate Chargeable(q: Request) {
    q.billing && q.price > 0 && q.consumer != q.creator
  }

  /** Settlement: in every run a request is finished exactly when its runner call succeeded or it was settled. Its
      runner call failed, it succeeded, or the answer was cached, and only one of these; if it is charged at all, it
      has then paid nothing, its full price, or half of it (to the nearest unit), whatever ran in between. */
  lemma SettlementHolds(mode: Rounding, opening: seq<Wallet>, run: seq<Happening>, r: nat)
    requires Opening(opening) && Play(mode, opening, run).Some?
    requires r < |Play(mode, opening, run).value.requests|
    ensures var w := Play(mode, opening, run).value;
            var q := w.requests[r];
            && (q.phase.Finished? <==> RunnerSucceeds(r) in run || Settles(r) in run)
            && (q.phase.Finished? ==>
                  && (q.phase.outcome.FailureReported? <==> RunnerFails(r) in run)
                  && (q.phase.outcome.ServedCold? <==> RunnerSucceeds(r) in run)
                  && (q.phase.outcome.ServedFromCache? <==> FindsCached(r) in run)
                  && (q.phase.tx.Some? <==> Chargeable(q)))
            && (q.phase.Finished? && q.phase.tx.Some? ==>
                  && q.phase.tx.value < |w.store.ledger|
                  && w.store.ledger[q.phase.tx.value] == Inference(q.consumer, q.creator, q.price)
                  && var net := NetCharge(w.store.ledger, q.phase.tx.value);
                     && (RunnerFails(r) in run ==> net == 0)
                     && (RunnerSucceeds(r) in run ==> net == q.price)
                     && (FindsCached(r) in run ==>
                           && net == q.price - Stored(mode, q.price) && Near(2 * net, q.price, 1)
                           && (q.price % 2 == 0 ==> 2 * net == q.price)))
  {
    RunsAreInOrder(mode, opening, run);
    RunsAreTold(mode, opening, run, r);
    var w := Play(mode, opening, run).value;
    assert Linked(w, w.requests[r]) && RefundedRight(mode, w, w.requests[r]);
  }

  /** A reservation, in every run: what is not charged is let through as it is; what is charged is refused, with
      nothing changed, exactly when the balance is below the price, and else moves the price. */
  lemma ReservesIff(mode: Rounding, opening: seq<Wallet>, run: seq<Happening>, r: nat)
    requires Opening(opening) && Play(mode, opening, run).Some? && Possible(Play(mode, opening, run).value, Reserves(r))
    ensures Play(mode, opening, run + [Reserves(r)]).Some?
    ensures var w, n := Play(mode, opening, run).value, Play(mode, opening, run + [Reserves(r)]).value;
            var q := w.requests[r];
            && r < |n.requests| && q.consumer < |w.store.wallets| && q.creator < |w.store.wallets|
            && (n.requests[r].phase.Refused? <==> Chargeable(q) && w.store.wallets[q.consumer].balance < q.price)
            && (n.requests[r].phase == Reserved(None) <==> !Chargeable(q))
            && (n.store == w.store <==> !Chargeable(q) || w.store.wallets[q.consumer].balance < q.price)
            && (Chargeable(q) && w.store.wallets[q.consumer].balance >= q.price ==>
                  && n.requests[r].phase == Reserved(Some(|w.store.ledger|))
                  && n.store.ledger == w.store.ledger + [Inference(q.consumer, q.creator, q.price)]
                  && n.store.wallets[q.consumer].balance == w.store.wallets[q.consumer].balance - q.price
                  && n.store.wallets[q.creator].balance == w.store.wallets[q.creator].balance + q.price)
  {
    assert (run + [Reserves(r)])[..|run|] == run;
    var q := Play(mode, opening, run).value.requests[r];
    LongerLedger(Play(mode, opening, run).value.store.ledger, Inference(q.consumer, q.creator, q.price));
  }

  /** Between its reservation and its settlement a request can be lost at any time, with its price kept. */
  lemma CrashAnytime(mode: Rounding, opening: seq<Wallet>, run: seq<Happening>, r: nat)
    requires Opening(opening) && Play(mode, opening, run).Some? && r < |Play(mode, opening, run).value.requests|
    ensures var w := Play(mode, opening, run).value;
            Play(mode, opening, run + [Crashes(r)]).Some? <==>
            w.requests[r].phase.Reserved? || w.requests[r].phase.HitPending? || w.requests[r].phase.FailurePending?
    ensures Play(mode, opening, run + [Crashes(r)]).Some? ==>
              Play(mode, opening, run + [Crashes(r)]).value.store == Play(mode, opening, run).value.store
  {
    assert (run + [Crashes(r)])[..|run|] == run;
  }

  lemma LongerLedger(ledger: seq<Entry>, e: Entry)
    ensures ledger + [e] != ledger
  {
    assert |ledger + [e]| == |ledger| + 1;
  }

  /** Each way a request can go is open to every request that can pay, or need not. */
  lemma EveryOutcomeComes(mode: Rounding, opening: seq<Wallet>, arrival: Happening, e: Happening)
    requires Opening(opening) && arrival.Arrives? && arrival.consumer < |opening| && arrival.creator < |opening|
    requires e == RunnerSucceeds(0) || e == RunnerFails(0) || e == FindsCached(0)
    requires opening[arrival.consumer].balance >= arrival.price
    ensures var run := [arrival, Reserves(0), e] + if e.RunnerSucceeds? then [] else [Settles(0)];
            Play(mode, opening, run).Some? && |Play(mode, opening, run).value.requests| == 1
            && Play(mode, opening, run).value.requests[0].phase.Finished?
  {
    var run, w := ReservedFirst(mode, opening, arrival);
    run := PlayOn(mode, opening, run, e);
    assert run == [arrival, Reserves(0), e] && run + [] == run;
    if !e.RunnerSucceeds? {
      run := PlayOn(mode, opening, run, Settles(0));
    }
  }

  lemma ReservedFirst(mode: Rounding, opening: seq<Wallet>, arrival: Happening) returns (run: seq<Happening>, w: World)
    requires Opening(opening) && arrival.Arrives? && arrival.consumer < |opening| && arrival.creator < |opening|
    requires opening[arrival.consumer].balance >= arrival.price
    ensures run == [arrival, Reserves(0)] && Play(mode, opening, run) == Some(w)
    ensures |w.requests| == 1 && w.requests[0].phase.Reserved?
  {
    run := PlayOn(mode, opening, [], arrival);
    w := Play(mode, opening, run).value;
    assert w.requests == [Request(arrival.consumer, arrival.creator, arrival.price, arrival.billing, Arrived)];
    ReservesIff(mode, opening, run, 0);
    run := PlayOn(mode, opening, run, Reserves(0));
    w := Play(mode, opening, run).value;
  }

  lemma PlayOn(mode: Rounding, opening: seq<Wallet>, run: seq<Happening>, h: Happening)
    returns (longer: seq<Happening>)
    requires Opening(opening) && Play(mode, opening, run).Some? && Possible(Play(mode, opening, run).value, h)
    ensures longer == run + [h]
    ensures Play(mode, opening, longer) == Some(Following(mode, Play(mode, opening, run).value, h))
  {
    longer := run + [h];
    assert longer[..|run|] == run;
  }

  /** Every refund in the ledger names an earlier charge of the same parties, gives back no more than it
      took, and is the only one to name it. */
  lemma RefundsAreBacked(mode: Rounding, opening: seq<Wallet>, run: seq<Happening>, i: nat, j: nat)
    requires Opening(opening) && Play(mode, opening, run).Some?
    requires i < |Play(mode, opening, run).value.store.ledger| && j < |Play(mode, opening, run).value.store.ledger|
    ensures var ledger := Play(mode, opening, run).value.store.ledger;
            && Backed(ledger, i)
            && (ledger[i].Refund? && ledger[j].Refund? && ledger[i].reference == ledger[j].reference ==> i == j)
  {
    RunsAreInOrder(mode, opening, run);
    var ledger := Play(mode, opening, run).value.store.ledger;
    assert ledger[i].Refund? ==> RefundCount(ledger, ledger[i].reference) <= 1;
    if ledger[i].Refund? && ledger[j].Refund? && ledger[i].reference == ledger[j].reference && i != j {
      CountTwo(ledger, ledger[i].reference, if i < j then i else j, if i < j then j else i);
    }
  }

  lemma {:induction false} CountTwo(ledger: seq<Entry>, tx: nat, i: nat, j: nat)
    requires i < j < |ledger| && Refunds(ledger[i], tx) && Refunds(ledger[j], tx)
    ensures RefundCount(ledger, tx) >= 2
  {
    if j < |ledger| - 1 {
      CountTwo(ledger[..|ledger| - 1], tx, i, j);
    } else {
      CountOne(ledger[..j], tx, i);
    }
  }

  lemma {:induction false} CountOne(ledger: seq<Entry>, tx: nat, i: nat)
    requires i < |ledger| && Refunds(ledger[i], tx)
    ensures RefundCount(ledger, tx) >= 1
  {
    if i < |ledger| - 1 {
      CountOne(ledger[..|ledger| - 1], tx, i);
    }
  }

  lemma {:induction false} OddDiscountsOfAtMost(ledger: seq<Entry>, u: User)
    ensures OddDiscountsOf(ledger, u) <= OddDiscounts(ledger)
  {
    if ledger != [] {
      OddDiscountsOfAtMost(ledger[..|ledger| - 1], u);
    }
  }

  /** Ledger replay: in every run each wallet equals its opening value plus its ledger rows, off by at
      most one unit per odd discount; the lifetime totals never go negative, and the balance only as far
      as the user has paid refunds. */
  lemma ReplayHolds(mode: Rounding, opening: seq<Wallet>, run: seq<Happening>, u: User)
    requires Opening(opening) && Play(mode, opening, run).Some? && u < |opening|
    ensures var st := Play(mode, opening, run).value.store;
            && |st.wallets| == |opening|
            && Audited(opening, st, u)
            && st.wallets[u].spent >= 0 && st.wallets[u].earned >= 0
            && st.wallets[u].balance >= -RefundsPaid(st.ledger, u) - OddDiscountsOf(st.ledger, u)
    ensures var st := Play(mode, opening, run).value.store;
            OddDiscounts(st.ledger) == 0 ==>
              && st.wallets[u].balance == opening[u].balance + ReplayBalance(st.ledger, u)
              && st.wallets[u].spent == opening[u].spent + ReplaySpent(st.ledger, u)
              && st.wallets[u].earned == opening[u].earned + ReplayEarned(st.ledger, u)
              && st.wallets[u].balance >= -RefundsPaid(st.ledger, u)
  {
    RunsAreInOrder(mode, opening, run);
    var w := Play(mode, opening, run).value;
    assert InOrder(opening, w, u);
    OddDiscountsOfAtMost(w.store.ledger, u);
  }

  /** Conservation: in every run the balances sum to the openings plus the deposits, off by at most one
      unit per odd discount. */
  lemma ConservationHolds(mode: Rounding, opening: seq<Wallet>, run: seq<Happening>)
    requires Opening(opening) && Play(mode, opening, run).Some?
    ensures var st := Play(mode, opening, run).value.store;
            && Near(Total(st.wallets), Total(opening) + Billing.Deposits(st.ledger), OddDiscounts(st.ledger))
            && (OddDiscounts(st.ledger) == 0 ==> Total(st.wallets) == Total(opening) + Billing.Deposits(st.ledger))
  {
    RunsAreInOrder(mode, opening, run);
    assert Conserved(opening, Play(mode, opening, run).value.store);
  }

  /** A finished request is settled for good: no later event changes its outcome or what it paid. */
  lemma {:induction false} SettledForGood(mode: Rounding, opening: seq<Wallet>, run: seq<Happening>,
          more: seq<Happening>, r: nat)
    requires Opening(opening) && Play(mode, opening, run).Some? && Play(mode, opening, run + more).Some?
    requires r < |Play(mode, opening, run).value.requests|
    requires Play(mode, opening, run).value.requests[r].phase.Finished?
    ensures var w, later := Play(mode, opening, run).value, Play(mode, opening, run + more).value;
            && r < |later.requests|
            && later.requests[r] == w.requests[r]
            && w.store.ledger <= later.store.ledger
            && (w.requests[r].phase.tx.Some? ==>
                  && w.requests[r].phase.tx.value < |w.store.ledger|
                  && NetCharge(later.store.ledger, w.requests[r].phase.tx.value)
                     == NetCharge(w.store.ledger, w.requests[r].phase.tx.value))
  {
    RunsAreInOrder(mode, opening, run);
    var w := Play(mode, opening, run).value;
    assert Linked(w, w.requests[r]);
    if more == [] {
      assert run + more == run;
    } else {
      var almost := more[..|more| - 1];
      assert (run + more)[..|run + more| - 1] == run + almost;
      SettledForGood(mode, opening, run, almost, r);
      RunsAreInOrder(mode, opening, run + almost);
      FinishedStays(mode, Play(mode, opening, run + almost).value, more[|more| - 1], r);
    }
  }

  lemma FinishedStays(mode: Rounding, w: World, h: Happening, r: nat)
    requires Disciplined(mode, w) && Possible(w, h) && r < |w.requests| && w.requests[r].phase.Finished?
    ensures var n := Following(mode, w, h);
            && r < |n.requests| && n.requests[r] == w.requests[r]
            && w.store.ledger <= n.store.ledger
            && (w.requests[r].phase.tx.Some? ==>
                  && w.requests[r].phase.tx.value < |w.store.ledger|
                  && NetCharge(n.store.ledger, w.requests[r].phase.tx.value)
                     == NetCharge(w.store.ledger, w.requests[r].phase.tx.value))
  {
    var n := Following(mode, w, h);
    StepKeepsDiscipline(mode, w, h);
    assert n.requests[r] == w.requests[r];
    assert Linked(w, w.requests[r]) && Linked(n, n.requests[r]);
    assert RefundedRight(mode, w, w.requests[r]) && RefundedRight(mode, n, n.requests[r]);
  }

  /** A full refund undoes the reservation exactly. */
  lemma FullRefundRestores(mode: Rounding, ws: seq<Wallet>, consumer: User, creator: User, price: nat)
    requires consumer < |ws| && creator < |ws|
    ensures Returned(mode, Charged(ws, consumer, creator, price), consumer, creator, 2 * price) == ws
    ensures Stored(mode, 2 * price) == price
  {
    StoredWhole(mode, price);
    StoredWhole(mode, ws[consumer].balance);
    StoredWhole(mode, ws[consumer].spent);
    StoredWhole(mode, ws[creator].balance);
    StoredWhole(mode, ws[creator].earned);
    assert Returned(mode, Charged(ws, consumer, creator, price), consumer, creator, 2 * price) == ws;
  }
}
