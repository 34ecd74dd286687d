/** One build attempt from its first cache call to its last, as the worker runs it, with nobody interfering but
    perhaps a stop: between its read of the row and its first transaction, or between its two transactions. Its
    steps are those of module BuildTasks, where anything may happen between any two of them. */
module BuildAttempt {
  import opened Wrappers
  import opened Deployments
  import opened BuildTasks

  class LockCache {
    var locks: map<Id, Lock>

    constructor ()
      ensures locks == map[]
    {
      locks := map[];
    }

    /** `cache.add`: sets the key only if no entry of it still counts. */
    method Add(id: Id, token: nat, now: nat, ttl: nat) returns (ok: bool)
      modifies this
      ensures ok <==> !(id in old(locks) && now < old(locks)[id].expires)
      ensures locks == if ok then old(locks)[id := Lock(token, now + ttl)] else old(locks)
    {
      ok := !(id in locks && now < locks[id].expires);
      if ok {
        locks := locks[id := Lock(token, now + ttl)];
      }
    }

    method Get(id: Id, now: nat) returns (token: Option<nat>)
      ensures token == if id in locks && now < locks[id].expires then Some(locks[id].token) else None
    {
      token := if id in locks && now < locks[id].expires then Some(locks[id].token) else None;
    }

    method Delete(id: Id)
      modifies this
      ensures locks == old(locks) - {id}
    {
      locks := locks - {id};
    }

    /** The `finally` clause: give back the lock if it is still this attempt's. */
    method GiveBack(id: Id, token: nat, now: nat)
      modifies this
      ensures locks == if id in old(locks) && now < old(locks)[id].expires && old(locks)[id].token == token
                       then old(locks) - {id} else old(locks)
    {
      var found := Get(id, now);
      if found == Some(token) {
        Delete(id);
      }
    }
  }

  /** When the attempt adds its lock, makes its two transactions, fails the row, and gives the lock back. */
  datatype Clock = Clock(add: nat, claim: nat, finish: nat, fail: nat, release: nat)

  /** What initialising the runner and waiting for it came to, and when a stop commits, if one does: before the
      first transaction, or before the second. */
  datatype Runner = Runner(initialised: bool, code: Code, flagged: bool, ready: bool,
                           early: Option<nat>, stop: Option<nat>) {
    function Built(): Built {
      Classified(initialised, code, flagged, ready)
    }
  }

  datatype Report = AlreadyRunning | NoRow | Found(status: Status) | ReportStopped | ReportFailed | ReportRunning
                  | RetryIn(seconds: nat)

  /** `_build_and_run_deployment` raises one of these, or returns. */
  datatype Raised = Nothing | Cancellation | WorthRetrying(code: Code) | Other(code: Code)

  /** An attempt is worth another exactly if the runner did not get ready in time, or its start failed with an error
      that is flagged so and is none of the deterministic ones. */
  lemma ClassifiedIff(initialised: bool, code: Code, flagged: bool, ready: bool)
    ensures Classified(initialised, code, flagged, ready).Ready? <==> initialised && ready
    ensures Classified(initialised, code, flagged, ready).Retryable? <==>
            (initialised && !ready) || (!initialised && flagged && code !in NON_RETRYABLE)
    ensures !initialised && !(flagged && code !in NON_RETRYABLE) ==>
              Classified(initialised, code, flagged, ready) == Broken(code)
    ensures Classified(initialised, code, flagged, ready).Retryable? ==>
              Classified(initialised, code, flagged, ready).code
              == if initialised then "RUNNER_WORKER_TIMEOUT" else code
  {
  }

  method BuildAndRun(table: Table, id: Id, clock: Clock, runner: Runner) returns (raised: Raised)
    modifies table
    ensures var (claimed, claim) := Claiming(old(table.rows), id, clock.claim);
            if claim.NothingToDo? then raised == Nothing && table.rows == claimed
            else if !claim.Claimed? then raised == Other("RUNNER_INTERNAL") && table.rows == claimed
            else
              var between := if runner.stop.Some? then Stopped(claimed, id, runner.stop.value).0 else claimed;
              match runner.Built()
              case Ready => raised == (if runner.stop.Some? then Cancellation else Nothing)
                            && table.rows == Finishing(between, id, clock.finish).0
              case Retryable(code) => raised == WorthRetrying(code) && table.rows == between
              case Broken(code) => raised == Other(code) && table.rows == between
  {
    var claim := table.Claim(id, clock.claim);
    if claim.NothingToDo? {
      return Nothing;
    }
    if claim.Gone? || claim.Refused? {
      return Other("RUNNER_INTERNAL");
    }
    if runner.stop.Some? {
      var _ := table.Stop(id, runner.stop.value);
    }
    if !runner.initialised {
      var retryable := runner.flagged;
      if runner.code in NON_RETRYABLE {
        retryable := false;
      }
      return if retryable then WorthRetrying(runner.code) else Other(runner.code);
    }
    if !runner.ready {
      return WorthRetrying("RUNNER_WORKER_TIMEOUT");
    }
    var landing := table.Finish(id, clock.finish);
    return if landing.Cancelled? then Cancellation else if landing.Launched? then Nothing else Other("RUNNER_INTERNAL");
  }

  /** What an attempt that finds the row PENDING or BUILDING comes to. Left alone, the row is RUNNING if the
      runner gets ready; else there is a retry, while some are left and the error is worth one, or the row is
      FAILED. Stopped in between, the row is STOPPED in every case; and stopped before the first transaction, it
      is reported as running, whatever the runner would have come to. */
  predicate Came(before: Row, after: Row, report: Report, retries: nat, runner: Runner) {
    && after.version == before.version && after.attempt == retries + 1
    && (runner.early.Some? || runner.stop.Some? ==> after.status.STOPPED?)
    && if runner.early.Some? then report == ReportRunning else
       match runner.Built()
       case Ready => if runner.stop.Some? then report == ReportStopped
         else after.status.RUNNING? && report == ReportRunning
       case Broken(code) => MarkedWith(after, code, runner.stop.Some?) && report == ReportFailed
       case Retryable(code) =>
         if retries < MAX_RETRIES then (runner.stop.Some? || after.status.BUILDING?)
           && report == RetryIn(30 * Pow3(retries))
         else MarkedWith(after, code, runner.stop.Some?) && report == ReportFailed
  }

  /** The error is recorded; the status fails unless the row was stopped. */
  predicate MarkedWith(after: Row, code: Code, stopped: bool) {
    after.error == Some(code) && (after.status.FAILED? <==> !stopped)
  }

  /** `build_deployment`. Only the row of this deployment changes; a busy lock changes nothing; and the lock is
      given back if it has not expired, whatever happened. */
  method BuildDeployment(table: Table, cache: LockCache, id: Id, token: nat, retries: nat, ttl: nat, clock: Clock,
          runner: Runner)
      returns (report: Report)
    modifies table, cache
    ensures report.AlreadyRunning? <==> id in old(cache.locks) && clock.add < old(cache.locks)[id].expires
    ensures report.AlreadyRunning? ==> table.rows == old(table.rows) && cache.locks == old(cache.locks)
    ensures !report.AlreadyRunning? ==>
              cache.locks == if clock.release < clock.add + ttl then old(cache.locks) - {id}
                             else old(cache.locks)[id := Lock(token, clock.add + ttl)]
    ensures table.rows.Keys == old(table.rows.Keys)
    ensures forall other :: other in table.rows && other != id ==> table.rows[other] == old(table.rows)[other]
    ensures !report.AlreadyRunning? ==>
              if id !in old(table.rows) then report.NoRow?
              else
                var (before, after) := (old(table.rows)[id], table.rows[id]);
                match before.status
                case RUNNING => report == Found(RUNNING) && after == before
                case STOPPED => report == Found(STOPPED) && after == before
                case FAILED => report == ReportFailed && after.status.FAILED? && after.error == Some("RUNNER_INTERNAL")
                case _ => Came(before, after, report, retries, runner)
  {
    var ok := cache.Add(id, token, clock.add, ttl);
    if !ok {
      return AlreadyRunning;
    }
    report := AttemptInside(table, id, retries, clock, runner);
    ghost var held := cache.locks;
    cache.GiveBack(id, token, clock.release);
    assert held - {id} == old(cache.locks) - {id};
  }

  method AttemptInside(table: Table, id: Id, retries: nat, clock: Clock, runner: Runner) returns (report: Report)
    modifies table
    ensures !report.AlreadyRunning? && table.rows.Keys == old(table.rows.Keys)
    ensures forall other :: other in table.rows && other != id ==> table.rows[other] == old(table.rows)[other]
    ensures if id !in old(table.rows) then report.NoRow?
            else
              var (before, after) := (old(table.rows)[id], table.rows[id]);
              match before.status
              case RUNNING => report == Found(RUNNING) && after == before
              case STOPPED => report == Found(STOPPED) && after == before
              case FAILED => report == ReportFailed && after.status.FAILED? && after.error == Some("RUNNER_INTERNAL")
              case _ => Came(before, after, report, retries, runner)
  {
    if id !in table.rows {
      return NoRow;
    }
    var row := table.rows[id];
    if row.status.RUNNING? || row.status.STOPPED? {
      return Found(row.status);
    }
    table.rows := table.rows[id := row.(attempt := retries + 1)];
    if runner.early.Some? {
      var _ := table.Stop(id, runner.early.value);
    }
    var raised := BuildAndRun(table, id, clock, runner);
    match raised
    case Nothing => report := ReportRunning;
    case Cancellation => report := ReportStopped;
    case WorthRetrying(code) =>
      if retries >= MAX_RETRIES {
        table.MarkFailed(id, code, clock.fail);
        report := ReportFailed;
      } else {
        report := RetryIn(30 * Pow3(retries));
      }
    case Other(code) =>
      table.MarkFailed(id, code, clock.fail);
      report := ReportFailed;
  }
}
