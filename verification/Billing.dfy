/** Wallets, the append-only ledger, and the three transactions that change them.

    Stored amounts are integers in units of 0.0001 credit, the scale of the columns. A refund is
    computed before it is stored and may end in half a unit (half of an odd price), so computed
    amounts are integers in half-units. */
module Billing {
  import opened Wrappers

  /** How a database stores an amount with more decimals than the column has: Django rounds for SQLite
      (ties to even), PostgreSQL rounds a numeric itself (ties away from zero). */
  datatype Rounding = HalfEven | HalfAwayFromZero

  /** The stored value, in units, of an amount computed in half-units. */
  function Stored(mode: Rounding, halves: int): (units: int)
    ensures -1 <= 2 * units - halves <= 1
    ensures halves % 2 != 0 && mode.HalfEven? ==> units % 2 == 0
    ensures halves % 2 != 0 && mode.HalfAwayFromZero? ==> (2 * units > halves <==> halves > 0)
  {
    var below := halves / 2;
    if halves % 2 == 0 then below
    else
      match mode
      case HalfEven => if below % 2 == 0 then below else below + 1
      case HalfAwayFromZero => if halves < 0 then below else below + 1
  }

  type User = nat

  datatype Wallet = Wallet(balance: int, spent: int, earned: int)

  datatype Reason = FailedInference | CacheHitDiscount

  /** A ledger row. Its id is its position in the ledger. */
  datatype Entry =
    | Inference(consumer: User, creator: User, amount: int)
    | Refund(consumer: User, creator: User, amount: int, reference: nat, reason: Reason)
    | Deposit(consumer: User, amount: int)

  /*** What a transaction does to the wallets. ***/

  /** A consumer's wallet after `halves` half-units came back to it. */
  function Received(mode: Rounding, w: Wallet, halves: int): Wallet {
    w.(balance := Stored(mode, 2 * w.balance + halves), spent := Stored(mode, 2 * w.spent - halves))
  }

  /** A creator's wallet after `halves` half-units left it. */
  function Gave(mode: Rounding, w: Wallet, halves: int): Wallet {
    w.(balance := Stored(mode, 2 * w.balance - halves), earned := Stored(mode, 2 * w.earned - halves))
  }

  /** The wallet of a user who is both: the balance stands still. */
  function Circled(mode: Rounding, w: Wallet, halves: int): Wallet {
    w.(spent := Stored(mode, 2 * w.spent - halves), earned := Stored(mode, 2 * w.earned - halves))
  }

  /** All wallets after a refund of `halves` half-units. */
  function Returned(mode: Rounding, ws: seq<Wallet>, consumer: User, creator: User, halves: int): (r: seq<Wallet>)
    requires consumer < |ws| && creator < |ws|
    ensures |r| == |ws|
  {
    if consumer == creator then ws[consumer := Circled(mode, ws[consumer], halves)]
    else ws[consumer := Received(mode, ws[consumer], halves)][creator := Gave(mode, ws[creator], halves)]
  }

  /** All wallets after a charge, which is always a whole number of units. */
  function Charged(ws: seq<Wallet>, consumer: User, creator: User, amount: int): (r: seq<Wallet>)
    requires consumer < |ws| && creator < |ws|
    ensures |r| == |ws|
  {
    var c, m := ws[consumer], ws[creator];
    if consumer == creator then ws[consumer := c.(spent := c.spent + amount, earned := c.earned + amount)]
    else ws[consumer := c.(balance := c.balance - amount, spent := c.spent + amount)]
           [creator := m.(balance := m.balance + amount, earned := m.earned + amount)]
  }

  /** All wallets after a deposit. */
  function Minted(ws: seq<Wallet>, user: User, amount: int): (r: seq<Wallet>)
    requires user < |ws|
    ensures |r| == |ws|
  {
    ws[user := ws[user].(balance := ws[user].balance + amount)]
  }

  function Total(ws: seq<Wallet>): int {
    if ws == [] then 0 else Total(ws[..|ws| - 1]) + ws[|ws| - 1].balance
  }

  lemma {:induction false} TotalUpdate(ws: seq<Wallet>, u: User, w: Wallet)
    requires u < |ws|
    ensures Total(ws[u := w]) == Total(ws) - ws[u].balance + w.balance
  {
    var n := |ws| - 1;
    if u == n {
      assert ws[u := w][..n] == ws[..n];
    } else {
      assert ws[u := w][..n] == ws[..n][u := w];
      TotalUpdate(ws[..n], u, w);
    }
  }

  /** By how much storing the two new balances moves the sum of all balances. */
  function Leak(mode: Rounding, consumerBalance: int, creatorBalance: int, halves: int): int {
    Stored(mode, 2 * consumerBalance + halves) + Stored(mode, 2 * creatorBalance - halves)
    - consumerBalance - creatorBalance
  }

  lemma TotalUpdateTwo(ws: seq<Wallet>, u: User, w: Wallet, v: User, x: Wallet)
    requires u < |ws| && v < |ws| && u != v
    ensures Total(ws[u := w][v := x]) == Total(ws) - ws[u].balance - ws[v].balance + w.balance + x.balance
  {
    TotalUpdate(ws, u, w);
    TotalUpdate(ws[u := w], v, x);
  }

  lemma ReturnedTotal(mode: Rounding, ws: seq<Wallet>, consumer: User, creator: User, halves: int)
    requires consumer < |ws| && creator < |ws| && consumer != creator
    ensures Total(Returned(mode, ws, consumer, creator, halves))
            == Total(ws) + Leak(mode, ws[consumer].balance, ws[creator].balance, halves)
  {
    TotalUpdateTwo(ws, consumer, Received(mode, ws[consumer], halves), creator, Gave(mode, ws[creator], halves));
  }

  lemma LeakIsBounded(mode: Rounding, b: int, c: int, halves: int)
    ensures -1 <= Leak(mode, b, c, halves) <= 1
    ensures Leak(mode, b, c, halves) == 0 <==> RoundingsCancel(mode, b, c, halves)
  {
    if halves % 2 == 0 {
      assert (2 * b + halves) % 2 == 0 && (2 * c - halves) % 2 == 0;
    } else {
      var k := halves / 2;
      assert 2 * b + halves == 2 * (b + k) + 1 && 2 * c - halves == 2 * (c - k - 1) + 1;
      assert (2 * b + halves) / 2 == b + k && (2 * c - halves) / 2 == c - k - 1;
    }
  }

  /** A test a caller could make before the refund: no half unit is involved, or the tie rule sends the
      two new balances opposite ways. */
  predicate RoundingsCancel(mode: Rounding, b: int, c: int, halves: int) {
    || halves % 2 == 0
    || match mode
       case HalfEven => (b - c) % 2 == 0
       case HalfAwayFromZero => (2 * b + halves < 0) != (2 * c - halves < 0)
  }

  lemma ChargeConserves(ws: seq<Wallet>, consumer: User, creator: User, amount: int)
    requires consumer < |ws| && creator < |ws|
    ensures Total(Charged(ws, consumer, creator, amount)) == Total(ws)
  {
    var r := Charged(ws, consumer, creator, amount);
    if consumer == creator {
      TotalUpdate(ws, consumer, r[consumer]);
    } else {
      TotalUpdateTwo(ws, consumer, r[consumer], creator, r[creator]);
    }
  }

  /** A refund moves the sum of all balances by one unit at most, and conserves it exactly when the
      roundings cancel; in particular when a whole number of units is given back. */
  lemma RefundConserves(mode: Rounding, ws: seq<Wallet>, consumer: User, creator: User, halves: int)
    requires consumer < |ws| && creator < |ws| && consumer != creator
    ensures -1 <= Total(Returned(mode, ws, consumer, creator, halves)) - Total(ws) <= 1
    ensures Total(Returned(mode, ws, consumer, creator, halves)) == Total(ws)
            <==> RoundingsCancel(mode, ws[consumer].balance, ws[creator].balance, halves)
  {
    var b, c := ws[consumer].balance, ws[creator].balance;
    ReturnedTotal(mode, ws, consumer, creator, halves);
    LeakIsBounded(mode, b, c, halves);
    var before, after := Total(ws), Total(Returned(mode, ws, consumer, creator, halves));
    var leak := Leak(mode, b, c, halves);
    assert after == before + leak;
  }

  /** Conservation fails in the code as it is: a cache hit on a price of 0.0001, once its consumer holds
      nothing and its creator 0.0001, destroys 0.0001 credit on SQLite and creates 0.0001 on PostgreSQL. */
  lemma HalfRefundLeaks()
    ensures var ws := [Wallet(0, 1, 0), Wallet(1, 0, 1)];
            && Total(Returned(HalfEven, ws, 0, 1, 1)) == Total(ws) - 1
            && Total(Returned(HalfAwayFromZero, ws, 0, 1, 1)) == Total(ws) + 1
  {
    var ws := [Wallet(0, 1, 0), Wallet(1, 0, 1)];
    ReturnedTotal(HalfEven, ws, 0, 1, 1);
    ReturnedTotal(HalfAwayFromZero, ws, 0, 1, 1);
  }

  lemma StoredWhole(mode: Rounding, units: int)
    ensures Stored(mode, 2 * units) == units
  {
  }

  /*** A refund against its ledger row. ***/

  /** By how much a column that should fall by the recorded amount ends above it. */
  function DownDrift(mode: Rounding, column: int, halves: int): int {
    Stored(mode, 2 * column - halves) - (column - Stored(mode, halves))
  }

  function UpDrift(mode: Rounding, column: int, halves: int): int {
    Stored(mode, 2 * column + halves) - (column + Stored(mode, halves))
  }

  /** Tests a caller could make before the refund. */
  predicate FallsAsRecorded(mode: Rounding, column: int, halves: nat) {
    halves % 2 == 0 || match mode case HalfEven => column % 2 == 0 case HalfAwayFromZero => 2 * column < halves
  }

  predicate RisesAsRecorded(mode: Rounding, column: int, halves: nat) {
    halves % 2 == 0 || match mode case HalfEven => column % 2 == 0 case HalfAwayFromZero => 2 * column + halves > 0
  }

  lemma EvenDrift(mode: Rounding, column: int, k: nat)
    ensures DownDrift(mode, column, 2 * k) == 0 && UpDrift(mode, column, 2 * k) == 0
  {
    StoredWhole(mode, k);
    StoredWhole(mode, column - k);
    StoredWhole(mode, column + k);
  }

  lemma OddDownDrift(mode: Rounding, column: int, k: nat)
    ensures DownDrift(mode, column, 2 * k + 1)
         == match mode
            case HalfEven => if column % 2 == 0 then 0 else if k % 2 == 0 then -1 else 1
            case HalfAwayFromZero => if column <= k then 0 else 1
  {
    StoredHalf(mode, k);
    StoredHalf(mode, column - k - 1);
    assert 2 * column - (2 * k + 1) == 2 * (column - k - 1) + 1;
  }

  lemma OddUpDrift(mode: Rounding, column: int, k: nat)
    ensures UpDrift(mode, column, 2 * k + 1)
         == match mode
            case HalfEven => if column % 2 == 0 then 0 else if k % 2 == 0 then 1 else -1
            case HalfAwayFromZero => if column + k >= 0 then 0 else -1
  {
    StoredHalf(mode, k);
    StoredHalf(mode, column + k);
    assert 2 * column + (2 * k + 1) == 2 * (column + k) + 1;
  }

  lemma DriftIsZeroIff(mode: Rounding, column: int, halves: nat)
    ensures DownDrift(mode, column, halves) == 0 <==> FallsAsRecorded(mode, column, halves)
    ensures UpDrift(mode, column, halves) == 0 <==> RisesAsRecorded(mode, column, halves)
    ensures -1 <= DownDrift(mode, column, halves) <= 1 && -1 <= UpDrift(mode, column, halves) <= 1
    ensures mode.HalfAwayFromZero? && !FallsAsRecorded(mode, column, halves) ==> DownDrift(mode, column, halves) == 1
    ensures mode.HalfAwayFromZero? && !RisesAsRecorded(mode, column, halves) ==> UpDrift(mode, column, halves) == -1
  {
    var k := halves / 2;
    if halves % 2 == 0 {
      assert halves == 2 * k;
      EvenDrift(mode, column, k);
    } else {
      assert halves == 2 * k + 1;
      OddDownDrift(mode, column, k);
      OddUpDrift(mode, column, k);
    }
  }

  lemma StoredHalf(mode: Rounding, below: int)
    ensures Stored(mode, 2 * below + 1)
         == match mode
            case HalfEven => if below % 2 == 0 then below else below + 1
            case HalfAwayFromZero => if below < 0 then below else below + 1
  {
  }

  /** Every column of both wallets moves by the amount the REFUND row records. */
  predicate MovesAsRecorded(mode: Rounding, consumer: Wallet, creator: Wallet, halves: nat) {
    var amount := Stored(mode, halves);
    && Received(mode, consumer, halves)
       == consumer.(balance := consumer.balance + amount, spent := consumer.spent - amount)
    && Gave(mode, creator, halves) == creator.(balance := creator.balance - amount, earned := creator.earned - amount)
  }

  lemma MovesWithoutDrift(mode: Rounding, consumer: Wallet, creator: Wallet, halves: nat)
    ensures MovesAsRecorded(mode, consumer, creator, halves) <==>
            && UpDrift(mode, consumer.balance, halves) == 0 && DownDrift(mode, consumer.spent, halves) == 0
            && DownDrift(mode, creator.balance, halves) == 0 && DownDrift(mode, creator.earned, halves) == 0
  {
    var amount := Stored(mode, halves);
    var c, m := Received(mode, consumer, halves), Gave(mode, creator, halves);
    assert UpDrift(mode, consumer.balance, halves) == c.balance - (consumer.balance + amount);
    assert DownDrift(mode, consumer.spent, halves) == c.spent - (consumer.spent - amount);
    assert DownDrift(mode, creator.balance, halves) == m.balance - (creator.balance - amount);
    assert DownDrift(mode, creator.earned, halves) == m.earned - (creator.earned - amount);
  }

  /** Replaying the ledger over a refund gives the stored wallets if and only if, for each of the four columns,
      no half unit is involved or the tie rule takes the column the way it takes the amount. */
  lemma RefundReplays(mode: Rounding, consumer: Wallet, creator: Wallet, halves: nat)
    ensures MovesAsRecorded(mode, consumer, creator, halves) <==>
            && RisesAsRecorded(mode, consumer.balance, halves) && FallsAsRecorded(mode, consumer.spent, halves)
            && FallsAsRecorded(mode, creator.balance, halves) && FallsAsRecorded(mode, creator.earned, halves)
  {
    MovesWithoutDrift(mode, consumer, creator, halves);
    DriftIsZeroIff(mode, consumer.balance, halves);
    DriftIsZeroIff(mode, consumer.spent, halves);
    DriftIsZeroIff(mode, creator.balance, halves);
    DriftIsZeroIff(mode, creator.earned, halves);
  }

  /** A refund takes a creator whose balance is no lower than minus what it has refunded below that bound in
      one case only: ties go to even, the price is one more than a multiple of four, and the balance is odd
      and at the bound. */
  predicate BreaksFloor(mode: Rounding, balance: int, paid: int, halves: nat) {
    mode.HalfEven? && halves % 4 == 1 && balance % 2 == 1 && balance == -paid
  }

  lemma RefundKeepsFloor(mode: Rounding, balance: int, paid: int, halves: nat)
    requires balance >= -paid
    ensures Stored(mode, 2 * balance - halves) >= -(paid + Stored(mode, halves))
       <==> !BreaksFloor(mode, balance, paid, halves)
  {
    var k := halves / 2;
    if halves % 2 == 0 {
      assert halves == 2 * k;
      EvenDrift(mode, balance, k);
    } else {
      assert halves == 2 * k + 1;
      OddDownDrift(mode, balance, k);
      assert halves % 4 == 1 <==> k % 2 == 0;
    }
    assert Stored(mode, 2 * balance - halves) == DownDrift(mode, balance, halves) + balance - Stored(mode, halves);
  }

  /*** What the ledger says happened to one user, row by row. ***/

  function BalanceEffect(e: Entry, u: User): int {
    match e
    case Inference(c, m, a) => (if u == m then a else 0) - (if u == c then a else 0)
    case Refund(c, m, a, _, _) => (if u == c then a else 0) - (if u == m then a else 0)
    case Deposit(c, a) => if u == c then a else 0
  }

  function SpentEffect(e: Entry, u: User): int {
    if e.consumer != u then 0
    else match e
      case Inference(_, _, a) => a
      case Refund(_, _, a, _, _) => -a
      case Deposit(_, _) => 0
  }

  function EarnedEffect(e: Entry, u: User): int {
    match e
    case Inference(_, m, a) => if u == m then a else 0
    case Refund(_, m, a, _, _) => if u == m then -a else 0
    case Deposit(_, _) => 0
  }

  function ReplayBalance(ledger: seq<Entry>, u: User): int {
    if ledger == [] then 0
    else ReplayBalance(ledger[..|ledger| - 1], u) + BalanceEffect(ledger[|ledger| - 1], u)
  }

  function ReplaySpent(ledger: seq<Entry>, u: User): int {
    if ledger == [] then 0
    else ReplaySpent(ledger[..|ledger| - 1], u) + SpentEffect(ledger[|ledger| - 1], u)
  }

  function ReplayEarned(ledger: seq<Entry>, u: User): int {
    if ledger == [] then 0
    else ReplayEarned(ledger[..|ledger| - 1], u) + EarnedEffect(ledger[|ledger| - 1], u)
  }

  function Deposits(ledger: seq<Entry>): int {
    if ledger == [] then 0
    else Deposits(ledger[..|ledger| - 1])
         + match ledger[|ledger| - 1] case Deposit(_, a) => a case _ => 0
  }

  /*** The code: rows are loaded into objects, the objects change, some of their fields are saved. ***/

  /** A wallet row loaded into memory, where amounts are not rounded (half-units). */
  class WalletObject {
    const pk: User
    var balance: int
    var spent: int
    var earned: int

    constructor (pk: User, row: Wallet)
      ensures this.pk == pk
      ensures balance == 2 * row.balance && spent == 2 * row.spent && earned == 2 * row.earned
    {
      this.pk := pk;
      balance, spent, earned := 2 * row.balance, 2 * row.spent, 2 * row.earned;
    }
  }

  datatype DepositResponse =
    | Disabled
    | NotAuthorized
    | InvalidAmount
    | TooLarge
    | Deposited(newBalance: int)

  type Account = nat

  /** The wallet rows, and which account each belongs to. */
  datatype Rows = Rows(wallets: seq<Wallet>, pks: map<Account, User>)

  /** `get_or_create`: an account without a wallet gets one, with the starting credits and the next key. */
  function Joined(rows: Rows, account: Account, starting: int): Rows {
    if account in rows.pks then rows
    else Rows(rows.wallets + [Wallet(starting, 0, 0)], rows.pks[account := |rows.wallets|])
  }

  function BothJoined(rows: Rows, consumer: Account, creator: Account, starting: int): Rows {
    Joined(Joined(rows, consumer, starting), creator, starting)
  }

  /** Every account has a row, and no two have the same. */
  predicate Keyed(rows: Rows) {
    && (forall a :: a in rows.pks ==> rows.pks[a] < |rows.wallets|)
    && (forall a, b :: a in rows.pks && b in rows.pks && rows.pks[a] == rows.pks[b] ==> a == b)
  }

  lemma JoiningKeeps(rows: Rows, account: Account, starting: int)
    requires Keyed(rows)
    ensures var n := Joined(rows, account, starting);
            && Keyed(n) && account in n.pks && rows.wallets <= n.wallets
            && (forall a :: a in rows.pks ==> a in n.pks && n.pks[a] == rows.pks[a])
            && (account !in rows.pks ==> n.wallets[n.pks[account]] == Wallet(starting, 0, 0))
  {
  }

  lemma BothKeep(rows: Rows, consumer: Account, creator: Account, starting: int)
    requires Keyed(rows)
    ensures var n := BothJoined(rows, consumer, creator, starting);
            && Keyed(n) && consumer in n.pks && creator in n.pks && rows.wallets <= n.wallets
            && (n.pks[consumer] == n.pks[creator] <==> consumer == creator)
            && n.wallets[n.pks[consumer]].balance == BalanceOf(rows, consumer, starting)
  {
    JoiningKeeps(rows, consumer, starting);
    JoiningKeeps(Joined(rows, consumer, starting), creator, starting);
  }

  /** What an account can spend: its balance, or the starting credits it is about to get. */
  function BalanceOf(rows: Rows, account: Account, starting: int): int
    requires Keyed(rows)
  {
    if account in rows.pks then rows.wallets[rows.pks[account]].balance else starting
  }

  class Accounts {
    const mode: Rounding
    const starting: int
    var wallets: seq<Wallet>
    var pks: map<Account, User>
    var ledger: seq<Entry>

    ghost predicate Valid()
      reads this
    {
      Keyed(View())
    }

    function View(): Rows
      reads this
    {
      Rows(wallets, pks)
    }

    constructor (mode: Rounding, starting: int)
      ensures Valid() && this.mode == mode && this.starting == starting
      ensures wallets == [] && pks == map[] && ledger == []
    {
      this.mode, this.starting, wallets, pks, ledger := mode, starting, [], map[], [];
    }

    method GetOrCreate(account: Account) returns (pk: User)
      requires Valid()
      modifies this`wallets, this`pks
      ensures Valid() && View() == Joined(old(View()), account, starting)
      ensures account in pks && pk == pks[account]
    {
      JoiningKeeps(View(), account, starting);
      if account !in pks {
        pks := pks[account := |wallets|];
        wallets := wallets + [Wallet(starting, 0, 0)];
      }
      pk := pks[account];
    }

    method SaveAsConsumer(w: WalletObject)
      requires w.pk < |wallets|
      modifies this`wallets
      ensures wallets == old(wallets)[w.pk := old(wallets)[w.pk].(balance := Stored(mode, w.balance),
                                                                  spent := Stored(mode, w.spent))]
    {
      wallets := wallets[w.pk := wallets[w.pk].(balance := Stored(mode, w.balance), spent := Stored(mode, w.spent))];
    }

    method SaveAsCreator(w: WalletObject)
      requires w.pk < |wallets|
      modifies this`wallets
      ensures wallets == old(wallets)[w.pk := old(wallets)[w.pk].(balance := Stored(mode, w.balance),
                                                                  earned := Stored(mode, w.earned))]
    {
      wallets := wallets[w.pk := wallets[w.pk].(balance := Stored(mode, w.balance), earned := Stored(mode, w.earned))];
    }

    /** Both rows, locked and loaded; one object when consumer and creator are the same user. */
    method Load(consumer: User, creator: User) returns (c: WalletObject, m: WalletObject)
      requires consumer < |wallets| && creator < |wallets|
      ensures fresh(c) && fresh(m) && c.pk == consumer && m.pk == creator && (c == m <==> consumer == creator)
      ensures c.balance == 2 * wallets[consumer].balance && c.spent == 2 * wallets[consumer].spent
      ensures c.earned == 2 * wallets[consumer].earned
      ensures m.balance == 2 * wallets[creator].balance && m.spent == 2 * wallets[creator].spent
      ensures m.earned == 2 * wallets[creator].earned
    {
      c := new WalletObject(consumer, wallets[consumer]);
      m := c;
      if creator != consumer {
        m := new WalletObject(creator, wallets[creator]);
      }
    }

    /** The debit once both rows exist. */
    method Debit(consumer: User, creator: User, amount: nat) returns (tx: Option<nat>, balance: int)
      requires consumer < |wallets| && creator < |wallets|
      modifies this`wallets, this`ledger
      ensures tx == (if old(wallets)[consumer].balance < amount then None else Some(|old(ledger)|))
      ensures tx.None? ==> wallets == old(wallets) && ledger == old(ledger) && balance == wallets[consumer].balance
      ensures tx.Some? ==> wallets == Charged(old(wallets), consumer, creator, amount)
                           && ledger == old(ledger) + [Inference(consumer, creator, amount)]
                           && balance == wallets[consumer].balance
    {
      var c, m := Load(consumer, creator);
      if c.balance < 2 * amount {
        return None, wallets[consumer].balance;
      }
      ghost var b, k := wallets[consumer], wallets[creator];
      StoredWhole(mode, b.balance);
      StoredWhole(mode, b.balance - amount);
      StoredWhole(mode, b.spent + amount);
      StoredWhole(mode, k.balance + amount);
      StoredWhole(mode, k.earned + amount);
      c.balance := c.balance - 2 * amount;
      c.spent := c.spent + 2 * amount;
      SaveAsConsumer(c);
      m.balance := m.balance + 2 * amount;
      m.earned := m.earned + 2 * amount;
      SaveAsCreator(m);
      tx := Some(|ledger|);
      ledger := ledger + [Inference(consumer, creator, amount)];
      balance := wallets[consumer].balance;
    }

    /** The debit transaction. Wallets that do not exist yet are created, and stay even when it is refused. */
    method DebitCredits(consumer: Account, creator: Account, amount: nat) returns (tx: Option<nat>, balance: int)
      requires Valid()
      modifies this`wallets, this`pks, this`ledger
      ensures Valid()
      ensures tx == if BalanceOf(old(View()), consumer, starting) < amount then None else Some(|old(ledger)|)
      ensures var rows := BothJoined(old(View()), consumer, creator, starting);
              && Keyed(rows) && consumer in rows.pks && creator in rows.pks && pks == rows.pks
              && balance == wallets[pks[consumer]].balance
              && if tx.None? then wallets == rows.wallets && ledger == old(ledger)
                 else && wallets == Charged(rows.wallets, pks[consumer], pks[creator], amount)
                      && ledger == old(ledger) + [Inference(pks[consumer], pks[creator], amount)]
    {
      BothKeep(View(), consumer, creator, starting);
      var c := GetOrCreate(consumer);
      var m := GetOrCreate(creator);
      tx, balance := Debit(c, m, amount);
    }

    method RefundCredits(consumer: User, creator: User, halves: nat, reference: nat, reason: Reason)
      requires consumer < |wallets| && creator < |wallets|
      modifies this`wallets, this`ledger
      ensures wallets == Returned(mode, old(wallets), consumer, creator, halves)
      ensures ledger == old(ledger) + [Refund(consumer, creator, Stored(mode, halves), reference, reason)]
    {
      var c, m := Load(consumer, creator);
      StoredWhole(mode, wallets[consumer].balance);
      c.balance := c.balance + halves;
      c.spent := c.spent - halves;
      SaveAsConsumer(c);
      m.balance := m.balance - halves;
      m.earned := m.earned - halves;
      SaveAsCreator(m);
      ledger := ledger + [Refund(consumer, creator, Stored(mode, halves), reference, reason)];
    }

    /** The demo deposit endpoint; `amount` is what the client sent, in units. */
    method PostDeposit(account: Account, amount: int, enabled: bool, staffOrDebug: bool, maxAmount: int)
      returns (response: DepositResponse)
      requires Valid()
      modifies this`wallets, this`pks, this`ledger
      ensures Valid()
      ensures response.Deposited? <==> enabled && staffOrDebug && 1 <= amount < 1_0000_0000_0000 && amount <= maxAmount
      ensures response.Deposited? ==>
                var rows := Joined(old(View()), account, starting);
                && Keyed(rows) && account in rows.pks && pks == rows.pks
                && wallets == Minted(rows.wallets, pks[account], amount)
                && ledger == old(ledger) + [Deposit(pks[account], amount)]
                && response.newBalance == wallets[pks[account]].balance
                                       == BalanceOf(old(View()), account, starting) + amount
      ensures !response.Deposited? ==> View() == old(View()) && ledger == old(ledger)
      ensures response == Disabled <==> !enabled
      ensures response == NotAuthorized <==> enabled && !staffOrDebug
      ensures response == InvalidAmount <==> enabled && staffOrDebug && !(1 <= amount < 1_0000_0000_0000)
      ensures response == TooLarge <==> enabled && staffOrDebug && maxAmount < amount && 1 <= amount < 1_0000_0000_0000
    {
      if !enabled {
        return Disabled;
      }
      if !staffOrDebug {
        return NotAuthorized;
      }
      if !(1 <= amount < 1_0000_0000_0000) {
        return InvalidAmount;
      }
      if amount > maxAmount {
        return TooLarge;
      }
      JoiningKeeps(View(), account, starting);
      var pk := GetOrCreate(account);
      wallets := Minted(wallets, pk, amount);
      ledger := ledger + [Deposit(pk, amount)];
      return Deposited(wallets[pk].balance);
    }
  }
}
