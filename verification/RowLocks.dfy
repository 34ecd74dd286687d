/** Concurrent billing transactions over row locks.

    A transaction locks the wallet rows it needs one at a time in ascending primary-key order, works on
    the copies it read under the locks, and makes its writes visible when it commits. The module proves
    that such transactions never block each other for ever, and that every interleaving leaves the same
    wallets and ledger as running the committed transactions one after the other. */
module RowLocks {
  import opened Wrappers
  import opened Billing

  datatype Job =
    | Debit(consumer: User, creator: User, amount: nat)
    | Return(consumer: User, creator: User, halves: nat, reference: nat, reason: Reason)
    | Mint(user: User, amount: nat)

  /** The rows a job locks, in the order it locks them. */
  function Rows(job: Job): (rows: seq<User>)
    ensures rows != []
    ensures forall i, j :: 0 <= i < j < |rows| ==> rows[i] < rows[j]
  {
    match job
    case Mint(u, _) => [u]
    case _ =>
      if job.consumer < job.creator then [job.consumer, job.creator]
      else if job.creator < job.consumer then [job.creator, job.consumer]
      else [job.consumer]
  }

  predicate JobFits(job: Job, users: nat) {
    forall u :: u in Rows(job) ==> u < users
  }

  /*** The specification: one job as one atomic step. ***/

  datatype Store = Store(wallets: seq<Wallet>, ledger: seq<Entry>)

  function Atomically(mode: Rounding, job: Job, st: Store): (r: Store)
    requires JobFits(job, |st.wallets|)
    ensures |r.wallets| == |st.wallets|
  {
    assert forall u :: u in Rows(job) ==> u < |st.wallets|;
    match job
    case Debit(c, m, a) =>
      assert c in Rows(job) && m in Rows(job);
      if st.wallets[c].balance < a then st
      else Store(Charged(st.wallets, c, m, a), st.ledger + [Inference(c, m, a)])
    case Return(c, m, h, ref, why) =>
      assert c in Rows(job) && m in Rows(job);
      Store(Returned(mode, st.wallets, c, m, h), st.ledger + [Refund(c, m, Stored(mode, h), ref, why)])
    case Mint(u, a) =>
      assert u in Rows(job);
      Store(Minted(st.wallets, u, a), st.ledger + [Deposit(u, a)])
  }

  predicate Moved(before: Wallet, after: Wallet, amount: nat, pays: bool, earns: bool) {
    && after.balance == before.balance - (if pays then amount else 0) + (if earns then amount else 0)
    && after.spent == before.spent + (if pays then amount else 0)
    && after.earned == before.earned + (if earns then amount else 0)
  }

  /** A debit changes nothing if and only if the stored balance of its consumer is below its amount; otherwise it
      moves the amount from one wallet to the other, with the lifetime totals, and records it. */
  lemma DebitIff(mode: Rounding, st: Store, c: User, m: User, a: nat)
    requires JobFits(Debit(c, m, a), |st.wallets|)
    ensures c < |st.wallets| && m < |st.wallets|
    ensures var r := Atomically(mode, Debit(c, m, a), st);
            && (r == st <==> st.wallets[c].balance < a)
            && (st.wallets[c].balance >= a ==>
                  && r.wallets == Charged(st.wallets, c, m, a)
                  && r.ledger == st.ledger + [Inference(c, m, a)]
                  && forall u :: 0 <= u < |r.wallets| ==> Moved(st.wallets[u], r.wallets[u], a, u == c, u == m))
  {
    assert c in Rows(Debit(c, m, a)) && m in Rows(Debit(c, m, a));
    var longer := st.ledger + [Inference(c, m, a)];
    assert |longer| == |st.ledger| + 1;
  }

  function Serially(mode: Rounding, jobs: seq<Job>, st: Store): (r: Store)
    requires forall j :: j in jobs ==> JobFits(j, |st.wallets|)
    ensures |r.wallets| == |st.wallets|
  {
    if jobs == [] then st
    else
      Atomically(mode, jobs[|jobs| - 1], Serially(mode, jobs[..|jobs| - 1], st))
  }

  /*** The machine. ***/

  /** What a transaction holds: the first `held` of its rows, each with the copy it read. */
  datatype Stage = Working(held: nat, copies: map<User, Wallet>) | Ended

  datatype Session = Session(job: Job, stage: Stage)

  datatype State = State(store: Store, sessions: seq<Session>)

  datatype Event = Arrive(job: Job) | Lock(t: nat) | Commit(t: nat) | Abort(t: nat)

  predicate Active(s: State, t: nat) {
    t < |s.sessions| && s.sessions[t].stage.Working?
    && s.sessions[t].stage.held <= |Rows(s.sessions[t].job)|
  }

  predicate Holds(s: State, t: nat, row: User) {
    Active(s, t) && row in Rows(s.sessions[t].job)[..s.sessions[t].stage.held]
  }

  predicate Free(s: State, row: User) {
    forall t :: 0 <= t < |s.sessions| ==> !Holds(s, t, row)
  }

  predicate Enabled(s: State, e: Event) {
    match e
    case Arrive(job) => JobFits(job, |s.store.wallets|)
    case Lock(t) =>
      && Active(s, t)
      && s.sessions[t].stage.held < |Rows(s.sessions[t].job)|
      && Free(s, Rows(s.sessions[t].job)[s.sessions[t].stage.held])
    case Commit(t) => Active(s, t) && s.sessions[t].stage.held == |Rows(s.sessions[t].job)|
    case Abort(t) => Active(s, t)
  }

  /** The rows a job writes, computed from the copies it read and from nothing else. */
  function Writes(mode: Rounding, job: Job, copies: map<User, Wallet>): map<User, Wallet>
    requires forall u :: u in Rows(job) ==> u in copies
  {
    assert forall u :: u in Rows(job) ==> u in copies;
    match job
    case Debit(c, m, a) =>
      assert c in Rows(job) && m in Rows(job);
      if copies[c].balance < a then map[]
      else if c == m then
        map[c := copies[c].(spent := copies[c].spent + a, earned := copies[c].earned + a)]
      else
        map[c := copies[c].(balance := copies[c].balance - a, spent := copies[c].spent + a),
            m := copies[m].(balance := copies[m].balance + a, earned := copies[m].earned + a)]
    case Return(c, m, h, _, _) =>
      assert c in Rows(job) && m in Rows(job);
      if c == m then map[c := Circled(mode, copies[c], h)]
      else map[c := Received(mode, copies[c], h), m := Gave(mode, copies[m], h)]
    case Mint(u, a) =>
      assert u in Rows(job);
      map[u := copies[u].(balance := copies[u].balance + a)]
  }

  function Inserts(mode: Rounding, job: Job, copies: map<User, Wallet>): seq<Entry>
    requires forall u :: u in Rows(job) ==> u in copies
  {
    match job
    case Debit(c, m, a) =>
      assert c in Rows(job);
      if copies[c].balance < a then [] else [Inference(c, m, a)]
    case Return(c, m, h, ref, why) => [Refund(c, m, Stored(mode, h), ref, why)]
    case Mint(u, a) => [Deposit(u, a)]
  }

  function Overwrite(ws: seq<Wallet>, writes: map<User, Wallet>): (r: seq<Wallet>)
    ensures |r| == |ws|
    ensures forall u :: 0 <= u < |ws| ==> r[u] == if u in writes then writes[u] else ws[u]
  {
    seq(|ws|, u requires 0 <= u < |ws| => if u in writes then writes[u] else ws[u])
  }

  function Next(mode: Rounding, s: State, e: Event): State
    requires Invariant(s) && Enabled(s, e)
  {
    match e
    case Arrive(job) => s.(sessions := s.sessions + [Session(job, Working(0, map[]))])
    case Lock(t) =>
      var Session(job, Working(held, copies)) := s.sessions[t];
      var row := Rows(job)[held];
      assert Locked(s, t) && row in Rows(job);
      s.(sessions := s.sessions[t := Session(job, Working(held + 1, copies[row := s.store.wallets[row]]))])
    case Commit(t) =>
      var Session(job, Working(held, copies)) := s.sessions[t];
      assert Locked(s, t) && Rows(job)[..held] == Rows(job);
      State(Store(Overwrite(s.store.wallets, Writes(mode, job, copies)),
                  s.store.ledger + Inserts(mode, job, copies)),
            s.sessions[t := Session(job, Ended)])
    case Abort(t) => s.(sessions := s.sessions[t := s.sessions[t].(stage := Ended)])
  }

  /*** What every step keeps. ***/

  /** The copies of the rows a session holds are still what is stored. */
  predicate Locked(s: State, t: nat)
    requires t < |s.sessions|
  {
    var Session(job, stage) := s.sessions[t];
    && JobFits(job, |s.store.wallets|)
    && (stage.Working? ==>
          && stage.held <= |Rows(job)|
          && forall u :: u in Rows(job)[..stage.held] ==>
               u < |s.store.wallets| && u in stage.copies && stage.copies[u] == s.store.wallets[u])
  }

  ghost predicate Exclusive(s: State) {
    forall t, t', row ::
      (0 <= t < |s.sessions| && 0 <= t' < |s.sessions| && Holds(s, t, row) && Holds(s, t', row)) ==> t == t'
  }

  ghost predicate Invariant(s: State) {
    && (forall t :: 0 <= t < |s.sessions| ==> Locked(s, t))
    && Exclusive(s)
  }

  /** Committing writes exactly what the atomic job would have written. */
  lemma CommitIsAtomic(mode: Rounding, s: State, t: nat)
    requires Invariant(s) && Enabled(s, Commit(t))
    ensures JobFits(s.sessions[t].job, |s.store.wallets|)
    ensures Next(mode, s, Commit(t)).store == Atomically(mode, s.sessions[t].job, s.store)
  {
    assert Locked(s, t);
    var Session(job, Working(held, copies)) := s.sessions[t];
    assert Rows(job)[..held] == Rows(job);
    assert forall u :: u in Rows(job) ==> u in copies && copies[u] == s.store.wallets[u];
    match job
    case Debit(_, _, _) => DebitCommits(mode, job, s.store, copies);
    case Return(_, _, _, _, _) => ReturnCommits(mode, job, s.store, copies);
    case Mint(u, _) =>
      assert u in Rows(job);
      OverwriteTwo(s.store.wallets, u, Writes(mode, job, copies)[u], u, s.store.wallets[u]);
  }

  lemma DebitCommits(mode: Rounding, job: Job, st: Store, copies: map<User, Wallet>)
    requires job.Debit? && JobFits(job, |st.wallets|)
    requires forall u :: u in Rows(job) ==> u in copies && copies[u] == st.wallets[u]
    ensures Store(Overwrite(st.wallets, Writes(mode, job, copies)), st.ledger + Inserts(mode, job, copies))
            == Atomically(mode, job, st)
  {
    var Debit(c, m, a) := job;
    assert c in Rows(job) && m in Rows(job);
    if st.wallets[c].balance < a {
      assert Overwrite(st.wallets, map[]) == st.wallets;
    } else {
      var r := Charged(st.wallets, c, m, a);
      OverwriteTwo(st.wallets, c, r[c], m, r[m]);
    }
  }

  lemma ReturnCommits(mode: Rounding, job: Job, st: Store, copies: map<User, Wallet>)
    requires job.Return? && JobFits(job, |st.wallets|)
    requires forall u :: u in Rows(job) ==> u in copies && copies[u] == st.wallets[u]
    ensures Store(Overwrite(st.wallets, Writes(mode, job, copies)), st.ledger + Inserts(mode, job, copies))
            == Atomically(mode, job, st)
  {
    var Return(c, m, h, _, _) := job;
    assert c in Rows(job) && m in Rows(job);
    var r := Returned(mode, st.wallets, c, m, h);
    OverwriteTwo(st.wallets, c, r[c], m, r[m]);
  }

  lemma OverwriteTwo(ws: seq<Wallet>, u: User, w: Wallet, v: User, x: Wallet)
    requires u < |ws| && v < |ws|
    ensures Overwrite(ws, map[u := w]) == ws[u := w]
    ensures u != v ==> Overwrite(ws, map[u := w, v := x]) == ws[u := w][v := x]
  {
  }

  lemma StepKeepsInvariant(mode: Rounding, s: State, e: Event)
    requires Invariant(s) && Enabled(s, e)
    ensures Invariant(Next(mode, s, e))
    ensures |Next(mode, s, e).store.wallets| == |s.store.wallets|
  {
    var n := Next(mode, s, e);
    match e
    case Arrive(job) =>
      forall i | 0 <= i < |n.sessions|
        ensures Locked(n, i)
      {
        if i < |s.sessions| {
          assert Locked(s, i);
        }
      }
      forall i, u | 0 <= i < |n.sessions| && Holds(n, i, u)
        ensures i < |s.sessions| && Holds(s, i, u)
      {
      }
    case Lock(t) =>
      LockKeepsInvariant(mode, s, t);
    case Commit(t) =>
      CommitKeepsInvariant(mode, s, t);
    case Abort(t) =>
      forall i | 0 <= i < |n.sessions|
        ensures Locked(n, i)
      {
        assert Locked(s, i);
      }
      forall i, u | 0 <= i < |n.sessions| && Holds(n, i, u)
        ensures Holds(s, i, u)
      {
      }
  }

  lemma LockKeepsInvariant(mode: Rounding, s: State, t: nat)
    requires Invariant(s) && Enabled(s, Lock(t))
    ensures Invariant(Next(mode, s, Lock(t)))
  {
    var n := Next(mode, s, Lock(t));
    var Session(job, Working(held, copies)) := s.sessions[t];
    var row := Rows(job)[held];
    assert Locked(s, t) && row in Rows(job);
    assert Rows(job)[..held + 1] == Rows(job)[..held] + [row];
    forall i, u | 0 <= i < |n.sessions| && Holds(n, i, u)
      ensures Holds(s, i, u) || (i == t && u == row)
    {
    }
    forall i | 0 <= i < |n.sessions|
      ensures Locked(n, i)
    {
      assert Locked(s, i);
    }
  }

  lemma CommitKeepsInvariant(mode: Rounding, s: State, t: nat)
    requires Invariant(s) && Enabled(s, Commit(t))
    ensures Invariant(Next(mode, s, Commit(t)))
  {
    var n := Next(mode, s, Commit(t));
    var Session(job, Working(held, copies)) := s.sessions[t];
    assert Locked(s, t) && Rows(job)[..held] == Rows(job);
    var writes := Writes(mode, job, copies);
    forall u | u in writes
      ensures Holds(s, t, u)
    {
    }
    forall i | 0 <= i < |n.sessions|
      ensures Locked(n, i)
    {
      assert Locked(s, i);
      if i != t && s.sessions[i].stage.Working? {
        forall u | u in Rows(s.sessions[i].job)[..s.sessions[i].stage.held]
          ensures u !in writes
        {
          assert Holds(s, i, u);
        }
      }
    }
    forall i, u | 0 <= i < |n.sessions| && Holds(n, i, u)
      ensures Holds(s, i, u)
    {
    }
  }

  /*** Deadlock freedom. ***/

  /** From any session that has not ended, following who waits for whom leads to a session that can
      take its next lock or commit. Each hop moves to a strictly larger row, so there is no cycle. */
  lemma {:induction false} SomeoneProceeds(s: State, t: nat) returns (e: Event)
    requires Invariant(s) && Active(s, t)
    ensures Enabled(s, e) && (e.Lock? || e.Commit?)
    decreases |s.store.wallets| - NextRow(s, t)
  {
    var Session(job, Working(held, _)) := s.sessions[t];
    assert Locked(s, t);
    if held == |Rows(job)| {
      e := Commit(t);
    } else {
      var row := Rows(job)[held];
      assert row in Rows(job);
      if Free(s, row) {
        e := Lock(t);
      } else {
        var holder :| 0 <= holder < |s.sessions| && Holds(s, holder, row);
        HolderWaitsHigher(s, holder, row);
        e := SomeoneProceeds(s, holder);
      }
    }
  }

  /** The row a session asks for next; past the last row when it asks for none. */
  function NextRow(s: State, t: nat): int
    requires Active(s, t)
  {
    var Session(job, Working(held, _)) := s.sessions[t];
    if held < |Rows(job)| then Rows(job)[held] else |s.store.wallets|
  }

  lemma HolderWaitsHigher(s: State, holder: nat, row: User)
    requires Invariant(s) && Holds(s, holder, row)
    ensures row < NextRow(s, holder) <= |s.store.wallets|
  {
    assert Locked(s, holder);
    var rows := Rows(s.sessions[holder].job);
    var i :| 0 <= i < s.sessions[holder].stage.held && rows[i] == row;
    assert rows[i] in rows;
    if s.sessions[holder].stage.held < |rows| {
      assert rows[s.sessions[holder].stage.held] in rows;
    }
  }

  /*** Every run. ***/

  /** The state after a run that starts with no session; None when some event was not enabled. */
  function Exec(mode: Rounding, start: Store, events: seq<Event>): (r: Option<State>)
    ensures r.Some? ==> Invariant(r.value) && |r.value.store.wallets| == |start.wallets|
  {
    if events == [] then Some(State(start, []))
    else
      var s, e := Exec(mode, start, events[..|events| - 1]), events[|events| - 1];
      if s.Some? && Enabled(s.value, e) then
        StepKeepsInvariant(mode, s.value, e);
        Some(Next(mode, s.value, e))
      else None
  }

  /** The jobs that committed, in commit order. */
  function CommitOrder(mode: Rounding, start: Store, events: seq<Event>): (jobs: seq<Job>)
    requires Exec(mode, start, events).Some?
    ensures forall j :: j in jobs ==> JobFits(j, |start.wallets|)
  {
    if events == [] then []
    else
      var before := Exec(mode, start, events[..|events| - 1]).value;
      var jobs, e := CommitOrder(mode, start, events[..|events| - 1]), events[|events| - 1];
      if e.Commit? then
        assert Locked(before, e.t);
        jobs + [before.sessions[e.t].job]
      else jobs
  }

  /** Serialisability: whatever the interleaving, the stored wallets and ledger are those of the
      committed jobs run one at a time in commit order. */
  lemma {:induction false} RunsAreSerial(mode: Rounding, start: Store, events: seq<Event>)
    requires Exec(mode, start, events).Some?
    ensures Exec(mode, start, events).value.store == Serially(mode, CommitOrder(mode, start, events), start)
  {
    if events == [] {
    } else {
      var prefix, e := events[..|events| - 1], events[|events| - 1];
      var before := Exec(mode, start, prefix).value;
      RunsAreSerial(mode, start, prefix);
      match e
      case Commit(t) =>
        CommitIsAtomic(mode, before, t);
        assert CommitOrder(mode, start, events)[..|CommitOrder(mode, start, prefix)|]
               == CommitOrder(mode, start, prefix);
      case _ =>
    }
  }

  lemma CommitFits(mode: Rounding, start: Store, events: seq<Event>, t: nat)
    requires Exec(mode, start, events + [Commit(t)]).Some?
    ensures Exec(mode, start, events).Some?
    ensures var s := Exec(mode, start, events).value;
            && Enabled(s, Commit(t)) && JobFits(s.sessions[t].job, |s.store.wallets|)
            && Exec(mode, start, events + [Commit(t)]) == Some(Next(mode, s, Commit(t)))
  {
    assert (events + [Commit(t)])[..|events|] == events;
    assert Locked(Exec(mode, start, events).value, t);
  }

  /** No double spending: over every interleaving, a debit that commits charges its consumer if and only if the
      balance stored just before its commit covers the amount; otherwise its commit changes nothing. A refund and
      a deposit always leave their row. */
  lemma CommittedIff(mode: Rounding, start: Store, events: seq<Event>, t: nat)
    requires Exec(mode, start, events + [Commit(t)]).Some?
    ensures Exec(mode, start, events).Some? && t < |Exec(mode, start, events).value.sessions|
    ensures var before, after := Exec(mode, start, events).value, Exec(mode, start, events + [Commit(t)]).value.store;
            var job := before.sessions[t].job;
            && (job.Debit? ==>
                  && job.consumer < |before.store.wallets|
                  && (before.store.wallets[job.consumer].balance >= job.amount <==>
                        after.ledger == before.store.ledger + [Inference(job.consumer, job.creator, job.amount)])
                  && (before.store.wallets[job.consumer].balance < job.amount ==> after == before.store))
            && (job.Return? ==>
                  after.ledger == before.store.ledger + [Refund(job.consumer, job.creator, Stored(mode, job.halves),
                                                                job.reference, job.reason)])
            && (job.Mint? ==> after.ledger == before.store.ledger + [Deposit(job.user, job.amount)])
  {
    CommitFits(mode, start, events, t);
    var s := Exec(mode, start, events).value;
    CommitIsAtomic(mode, s, t);
    if s.sessions[t].job.Debit? {
      var Debit(c, m, a) := s.sessions[t].job;
      DebitIff(mode, s.store, c, m, a);
      assert |s.store.ledger + [Inference(c, m, a)]| == |s.store.ledger| + 1;
    }
  }

  predicate NoDebt(ws: seq<Wallet>) {
    forall u :: 0 <= u < |ws| ==> ws[u].balance >= 0
  }

  lemma JobKeepsNoDebt(mode: Rounding, job: Job, st: Store)
    requires JobFits(job, |st.wallets|) && NoDebt(st.wallets) && !job.Return?
    ensures NoDebt(Atomically(mode, job, st).wallets)
  {
    if job.Debit? {
      DebitIff(mode, st, job.consumer, job.creator, job.amount);
    } else {
      assert job.user in Rows(job);
    }
  }

  lemma {:induction false} SerialKeepsNoDebt(mode: Rounding, jobs: seq<Job>, st: Store)
    requires forall j :: j in jobs ==> JobFits(j, |st.wallets|)
    requires NoDebt(st.wallets) && forall j :: j in jobs ==> !j.Return?
    ensures NoDebt(Serially(mode, jobs, st).wallets)
  {
    if jobs != [] {
      SerialKeepsNoDebt(mode, jobs[..|jobs| - 1], st);
      JobKeepsNoDebt(mode, jobs[|jobs| - 1], Serially(mode, jobs[..|jobs| - 1], st));
    }
  }

  /** So as long as no refund commits, no balance ever goes below zero, however the debits interleave. */
  lemma NoOverdraft(mode: Rounding, start: Store, events: seq<Event>)
    requires Exec(mode, start, events).Some? && NoDebt(start.wallets)
    requires forall j :: j in CommitOrder(mode, start, events) ==> !j.Return?
    ensures NoDebt(Exec(mode, start, events).value.store.wallets)
  {
    RunsAreSerial(mode, start, events);
    SerialKeepsNoDebt(mode, CommitOrder(mode, start, events), start);
  }

  /*** Every serial order is a run. ***/

  predicate Quiet(s: State) {
    forall t :: 0 <= t < |s.sessions| ==> s.sessions[t].stage.Ended?
  }

  lemma ExecOn(mode: Rounding, start: Store, events: seq<Event>, e: Event) returns (longer: seq<Event>)
    requires Exec(mode, start, events).Some? && Enabled(Exec(mode, start, events).value, e)
    ensures longer == events + [e]
    ensures Exec(mode, start, longer) == Some(Next(mode, Exec(mode, start, events).value, e))
    ensures CommitOrder(mode, start, longer)
         == CommitOrder(mode, start, events) + if e.Commit? then [Exec(mode, start, events).value.sessions[e.t].job]
            else []
  {
    longer := events + [e];
    assert longer[..|events|] == events;
  }

  /** Taking the locks of the last session, when all others have ended. */
  lemma {:induction false} LocksUp(mode: Rounding, start: Store, events: seq<Event>, t: nat)
    returns (longer: seq<Event>)
    requires Exec(mode, start, events).Some?
    requires var s := Exec(mode, start, events).value;
             Active(s, t) && forall i :: 0 <= i < |s.sessions| && i != t ==> s.sessions[i].stage.Ended?
    ensures Exec(mode, start, longer).Some?
    ensures CommitOrder(mode, start, longer) == CommitOrder(mode, start, events)
    ensures var s, n := Exec(mode, start, events).value, Exec(mode, start, longer).value;
            && Enabled(n, Commit(t)) && n.store == s.store && |n.sessions| == |s.sessions|
            && n.sessions[t].job == s.sessions[t].job
            && forall i :: 0 <= i < |n.sessions| && i != t ==> n.sessions[i].stage.Ended?
    decreases |Rows(Exec(mode, start, events).value.sessions[t].job)|
              - Exec(mode, start, events).value.sessions[t].stage.held
  {
    var s := Exec(mode, start, events).value;
    longer := events;
    if s.sessions[t].stage.held < |Rows(s.sessions[t].job)| {
      assert Free(s, Rows(s.sessions[t].job)[s.sessions[t].stage.held]) by {
        OwnRowIsFree(s, t);
      }
      var one := ExecOn(mode, start, events, Lock(t));
      longer := LocksUp(mode, start, one, t);
    }
  }

  lemma OwnRowIsFree(s: State, t: nat)
    requires Active(s, t) && s.sessions[t].stage.held < |Rows(s.sessions[t].job)|
    requires forall i :: 0 <= i < |s.sessions| && i != t ==> s.sessions[i].stage.Ended?
    ensures Free(s, Rows(s.sessions[t].job)[s.sessions[t].stage.held])
  {
  }

  lemma RunOne(mode: Rounding, start: Store, events: seq<Event>, job: Job) returns (longer: seq<Event>)
    requires Exec(mode, start, events).Some? && Quiet(Exec(mode, start, events).value)
    requires JobFits(job, |start.wallets|)
    ensures Exec(mode, start, longer).Some? && Quiet(Exec(mode, start, longer).value)
    ensures CommitOrder(mode, start, longer) == CommitOrder(mode, start, events) + [job]
  {
    var t := |Exec(mode, start, events).value.sessions|;
    longer := ExecOn(mode, start, events, Arrive(job));
    longer := LocksUp(mode, start, longer, t);
    longer := ExecOn(mode, start, longer, Commit(t));
  }

  /** Whatever jobs there are, in whatever order, some run commits exactly them in that order. */
  lemma {:induction false} EveryOrderRuns(mode: Rounding, start: Store, jobs: seq<Job>) returns (events: seq<Event>)
    requires forall j :: j in jobs ==> JobFits(j, |start.wallets|)
    ensures Exec(mode, start, events).Some? && CommitOrder(mode, start, events) == jobs
    ensures Quiet(Exec(mode, start, events).value)
  {
    events := [];
    if jobs != [] {
      var before, job := jobs[..|jobs| - 1], jobs[|jobs| - 1];
      events := EveryOrderRuns(mode, start, before);
      events := RunOne(mode, start, events, job);
      assert jobs == before + [job];
    }
  }

  /** A transaction can give up at any time; it then holds nothing and has changed nothing. */
  lemma AbortAnytime(mode: Rounding, start: Store, events: seq<Event>, t: nat)
    requires Exec(mode, start, events).Some? && Active(Exec(mode, start, events).value, t)
    ensures Exec(mode, start, events + [Abort(t)]).Some?
    ensures var s, n := Exec(mode, start, events).value, Exec(mode, start, events + [Abort(t)]).value;
            n.store == s.store && forall row :: !Holds(n, t, row)
  {
    assert (events + [Abort(t)])[..|events|] == events;
  }

  /** Deadlock freedom over runs: as long as some session has not ended, one of them can take its next
      lock or commit, without any other having to give up. */
  lemma NoDeadlock(mode: Rounding, start: Store, events: seq<Event>)
    requires Exec(mode, start, events).Some?
    requires exists t :: Active(Exec(mode, start, events).value, t)
    ensures exists e: Event :: (e.Lock? || e.Commit?) && Exec(mode, start, events + [e]).Some?
  {
    var s := Exec(mode, start, events).value;
    var t :| Active(s, t);
    var e := SomeoneProceeds(s, t);
    assert (events + [e])[..|events|] == events;
    assert Exec(mode, start, events + [e]).Some?;
  }

  /** The steps a session has left. */
  function Left(session: Session): nat {
    match session.stage
    case Ended => 0
    case Working(held, _) =>
      if held <= |Rows(session.job)| then |Rows(session.job)| + 1 - held else 0
  }

  function Work(sessions: seq<Session>): nat {
    if sessions == [] then 0 else Work(sessions[..|sessions| - 1]) + Left(sessions[|sessions| - 1])
  }

  lemma {:induction false} WorkUpdate(sessions: seq<Session>, t: nat, x: Session)
    requires t < |sessions|
    ensures Work(sessions[t := x]) == Work(sessions) - Left(sessions[t]) + Left(x)
  {
    var n := |sessions| - 1;
    if t == n {
      assert sessions[t := x][..n] == sessions[..n];
    } else {
      assert sessions[t := x][..n] == sessions[..n][t := x];
      WorkUpdate(sessions[..n], t, x);
    }
  }

  function Arrivals(events: seq<Event>): nat {
    if events == [] then 0
    else Arrivals(events[..|events| - 1]) + if events[|events| - 1].Arrive? then 1 else 0
  }

  /** Progress: each transaction takes at most three steps after it arrives, so a run in which nothing
      new arrives ends; by NoDeadlock it ends with every transaction ended. */
  lemma {:induction false} RunsEnd(mode: Rounding, start: Store, events: seq<Event>)
    requires Exec(mode, start, events).Some?
    ensures |events| + Work(Exec(mode, start, events).value.sessions) <= 4 * Arrivals(events)
  {
    if events == [] {
    } else {
      var prefix, e := events[..|events| - 1], events[|events| - 1];
      var s := Exec(mode, start, prefix).value;
      var n := Exec(mode, start, events).value;
      RunsEnd(mode, start, prefix);
      match e
      case Arrive(job) =>
        assert n.sessions[..|s.sessions|] == s.sessions;
      case _ =>
        WorkUpdate(s.sessions, e.t, n.sessions[e.t]);
    }
  }
}
