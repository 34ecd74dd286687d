/** Deployment rows: the transition table, and what each handler, each builder transaction and the reaper
    commit. A handler that reads a row and saves it is one step. Times are seconds. */
module Deployments {
  import opened Wrappers

  type Id = nat
  type Code = string

  datatype Status = PENDING | BUILDING | RUNNING | FAILED | STOPPED

  /** `ALLOWED_TRANSITIONS`. */
  function Allowed(s: Status): set<Status> {
    match s
    case PENDING => {BUILDING, FAILED, STOPPED}
    case BUILDING => {RUNNING, FAILED, STOPPED}
    case RUNNING => {STOPPED}
    case STOPPED => {}
    case FAILED => {BUILDING}
  }

  /** Read from its targets, the table says: PENDING is never entered again; a build starts from PENDING or FAILED,
      a run from BUILDING only; only what is not over can fail or be stopped, and a RUNNING deployment cannot fail. */
  lemma ArcsInto(s: Status)
    ensures PENDING !in Allowed(s)
    ensures BUILDING in Allowed(s) <==> s == PENDING || s == FAILED
    ensures RUNNING in Allowed(s) <==> s == BUILDING
    ensures FAILED in Allowed(s) <==> s == PENDING || s == BUILDING
    ensures STOPPED in Allowed(s) <==> s == PENDING || s == BUILDING || s == RUNNING
  {
  }

  /** The states of the unique-active constraint. */
  predicate Active(s: Status) {
    s.PENDING? || s.BUILDING? || s.RUNNING?
  }

  datatype Row = Row(version: nat, status: Status, attempt: nat, error: Option<Code>,
                     updated: nat, started: Option<nat>, stopped: Option<nat>)

  type Rows = map<Id, Row>

  datatype Reply = Done | NotFound | Conflict | InvalidTransition

  /*** What each step commits. ***/

  ghost predicate Taken(rows: Rows, version: nat) {
    exists id :: id in rows && rows[id].version == version && Active(rows[id].status)
  }

  ghost function Inserted(rows: Rows, id: Id, version: nat, now: nat): (Rows, Reply) {
    if Taken(rows, version) then (rows, Conflict)
    else (rows[id := Row(version, PENDING, 0, None, now, None, None)], Done)
  }

  function Stopped(rows: Rows, id: Id, now: nat): (Rows, Reply) {
    if id !in rows then (rows, NotFound)
    else if rows[id].status.STOPPED? then (rows, Done)
    else if STOPPED !in Allowed(rows[id].status) then (rows, InvalidTransition)
    else (rows[id := rows[id].(status := STOPPED, stopped := Some(now), updated := now)], Done)
  }

  /** The first half of a delete: an active deployment is stopped before its row is removed. */
  function Retired(rows: Rows, id: Id, now: nat): (Rows, Reply) {
    if id !in rows then (rows, NotFound)
    else if Active(rows[id].status) then
      (rows[id := rows[id].(status := STOPPED, stopped := Some(now), updated := now)], Done)
    else (rows, Done)
  }

  function Removed(rows: Rows, id: Id): Rows {
    rows - {id}
  }

  /** `_mark_failed`: a row that is being built fails; any row is given the error. */
  function Failed(rows: Rows, id: Id, code: Code, now: nat): Rows {
    if id !in rows then rows
    else
      var row := rows[id];
      rows[id := row.(status := if row.status.PENDING? || row.status.BUILDING? then FAILED else row.status,
                      error := Some(code), updated := now)]
  }

  const REAPED: Code := "RUNNER_WORKER_TIMEOUT"

  predicate Stale(row: Row, cutoff: int) {
    row.status.BUILDING? && row.updated < cutoff
  }

  function ReapedRow(row: Row, now: nat): Row {
    row.(status := FAILED, error := Some(REAPED), updated := now)
  }

  function Reaped(rows: Rows, cutoff: int, now: nat): Rows {
    map id | id in rows :: if Stale(rows[id], cutoff) then ReapedRow(rows[id], now) else rows[id]
  }

  /** The reaper fails exactly the rows that were last touched before the cutoff and are still BUILDING, and leaves
      the others as they are. */
  lemma ReapedIff(rows: Rows, cutoff: int, now: nat, id: Id)
    requires id in rows
    ensures id in Reaped(rows, cutoff, now) && Reaped(rows, cutoff, now).Keys == rows.Keys
    ensures Stale(rows[id], cutoff) <==> rows[id].status == BUILDING && rows[id].updated < cutoff
    ensures Reaped(rows, cutoff, now)[id]
         == if rows[id].status == BUILDING && rows[id].updated < cutoff
            then rows[id].(status := FAILED, error := Some("RUNNER_WORKER_TIMEOUT"), updated := now) else rows[id]
  {
  }

  /** The bookkeeping write at the start of an attempt. */
  function Numbered(rows: Rows, id: Id, attempt: nat): Rows {
    if id in rows then rows[id := rows[id].(attempt := attempt)] else rows
  }

  datatype Claimant = Gone | NothingToDo | Claimed | Refused

  /** The builder's first transaction. */
  function Claiming(rows: Rows, id: Id, now: nat): (Rows, Claimant) {
    if id !in rows then (rows, Gone)
    else
      match rows[id].status
      case RUNNING => (rows, NothingToDo)
      case STOPPED => (rows, NothingToDo)
      case PENDING => (rows[id := rows[id].(status := BUILDING, error := None, updated := now)], Claimed)
      case BUILDING => (rows, Claimed)
      case FAILED => (rows, Refused)
  }

  datatype Landing = Vanished | Cancelled | Changed | Launched

  /** The builder's second transaction. */
  function Finishing(rows: Rows, id: Id, now: nat): (Rows, Landing) {
    if id !in rows then (rows, Vanished)
    else if rows[id].status.STOPPED? then (rows, Cancelled)
    else if !rows[id].status.BUILDING? then (rows, Changed)
    else (rows[id := rows[id].(status := RUNNING, started := Some(now), updated := now)], Launched)
  }

  /** Every step but the insert. */
  datatype Step = Stop(id: Id) | Retire(id: Id) | Remove(id: Id) | Fail(id: Id, code: Code) | Reap(cutoff: int)
                | Number(id: Id, attempt: nat) | Claim(id: Id) | Finish(id: Id)

  function Committed(rows: Rows, step: Step, now: nat): Rows {
    match step
    case Stop(id) => Stopped(rows, id, now).0
    case Retire(id) => Retired(rows, id, now).0
    case Remove(id) => Removed(rows, id)
    case Fail(id, code) => Failed(rows, id, code, now)
    case Reap(cutoff) => Reaped(rows, cutoff, now)
    case Number(id, attempt) => Numbered(rows, id, attempt)
    case Claim(id) => Claiming(rows, id, now).0
    case Finish(id) => Finishing(rows, id, now).0
  }

  /*** What every step keeps. ***/

  ghost predicate AtMostOneActive(rows: Rows) {
    forall a, b ::
      (a in rows && b in rows && Active(rows[a].status) && Active(rows[b].status) && rows[a].version == rows[b].version)
      ==> a == b
  }

  /** Every status change is in the transition table, and does not start from a terminal state: in
      particular the arc from FAILED to BUILDING is never taken. A row keeps its version. */
  ghost predicate Lawful(before: Rows, after: Rows) {
    forall id :: id in before && id in after ==>
      && after[id].version == before[id].version
      && (after[id].status != before[id].status ==>
            && after[id].status in Allowed(before[id].status)
            && !before[id].status.FAILED? && !before[id].status.STOPPED?)
  }

  lemma StepIsLawful(rows: Rows, step: Step, now: nat)
    ensures Lawful(rows, Committed(rows, step, now)) && Committed(rows, step, now).Keys <= rows.Keys
    ensures !step.Remove? ==> Committed(rows, step, now).Keys == rows.Keys
  {
    match step
    case Stop(id) =>
    case Retire(id) =>
    case Remove(id) =>
    case Fail(id, code) =>
    case Reap(cutoff) =>
    case Number(id, attempt) =>
    case Claim(id) =>
    case Finish(id) =>
  }

  lemma InsertIsLawful(rows: Rows, id: Id, version: nat, now: nat)
    requires id !in rows
    ensures Lawful(rows, Inserted(rows, id, version, now).0)
  {
  }

  /** No lawful step can break the unique-active constraint: a save never trips it. */
  lemma LawfulKeepsOneActive(before: Rows, after: Rows)
    requires AtMostOneActive(before) && Lawful(before, after) && after.Keys <= before.Keys
    ensures AtMostOneActive(after)
  {
    forall id | id in after && Active(after[id].status)
      ensures id in before && Active(before[id].status) && before[id].version == after[id].version
    {
      assert id in after.Keys && id in before.Keys;
    }
  }

  /** The insert keeps it because of its own check, and would not without it. */
  lemma InsertKeepsOneActive(rows: Rows, id: Id, version: nat, now: nat)
    requires AtMostOneActive(rows) && id !in rows
    ensures AtMostOneActive(Inserted(rows, id, version, now).0)
    ensures Taken(rows, version) <==> !AtMostOneActive(rows[id := Row(version, PENDING, 0, None, now, None, None)])
  {
    var after := rows[id := Row(version, PENDING, 0, None, now, None, None)];
    if Taken(rows, version) {
      var other :| other in rows && rows[other].version == version && Active(rows[other].status);
      assert after[other] == rows[other] && after[id].version == version;
    } else {
      assert forall a :: a in after && a != id ==> after[a] == rows[a];
    }
  }

  /** No row comes or goes, and none but this one changes. */
  ghost predicate OnlyAt(before: Rows, after: Rows, id: Id) {
    && after.Keys == before.Keys
    && forall other :: other in before && other != id ==> after[other] == before[other]
  }

  /*** The code. ***/

  /** One loaded row. */
  class Deployment {
    var status: Status
    const loaded: Row

    constructor (row: Row)
      ensures status == row.status && loaded == row
    {
      status := row.status;
      loaded := row;
    }

    method TransitionTo(s: Status) returns (ok: bool)
      modifies this
      ensures ok <==> s in Allowed(old(status))
      ensures status == if ok then s else old(status)
    {
      var allowed := Allowed(status);
      if s !in allowed {
        return false;
      }
      status := s;
      return true;
    }
  }

  class Table {
    var rows: Rows

    constructor ()
      ensures rows == map[]
    {
      rows := map[];
    }

    /** Some active row of the version, if there is one. */
    method FindActive(version: nat) returns (found: Option<Id>)
      ensures found.Some? <==> Taken(rows, version)
      ensures found.Some? ==> found.value in rows
      ensures found.Some? ==> rows[found.value].version == version && Active(rows[found.value].status)
    {
      var left := rows.Keys;
      while left != {}
        invariant left <= rows.Keys
        invariant forall id :: id in rows && rows[id].version == version && Active(rows[id].status) ==> id in left
        decreases left
      {
        var id :| id in left;
        if rows[id].version == version && Active(rows[id].status) {
          return Some(id);
        }
        left := left - {id};
      }
      return None;
    }

    method Create(id: Id, version: nat, now: nat) returns (reply: Reply)
      requires id !in rows
      modifies this
      ensures (rows, reply) == Inserted(old(rows), id, version, now)
      ensures reply == if Taken(old(rows), version) then Conflict else Done
      ensures rows == if Taken(old(rows), version) then old(rows)
                      else old(rows)[id := Row(version, PENDING, 0, None, now, None, None)]
    {
      var active := FindActive(version);
      if active.Some? {
        return Conflict;
      }
      rows := rows[id := Row(version, PENDING, 0, None, now, None, None)];
      return Done;
    }

    method Stop(id: Id, now: nat) returns (reply: Reply)
      modifies this
      ensures (rows, reply) == Stopped(old(rows), id, now)
      ensures id !in old(rows) ==> reply == NotFound && rows == old(rows)
      ensures id in old(rows) ==>
                var (was, status) := (old(rows)[id], old(rows)[id].status);
                && (status == PENDING || status == BUILDING || status == RUNNING ==>
                      && reply == Done && OnlyAt(old(rows), rows, id)
                      && rows[id] == was.(status := STOPPED, stopped := Some(now), updated := now))
                && (status == STOPPED ==> reply == Done && rows == old(rows))
                && (status == FAILED ==> reply == InvalidTransition && rows == old(rows))
    {
      if id !in rows {
        return NotFound;
      }
      var d := new Deployment(rows[id]);
      if d.status.STOPPED? {
        return Done;
      }
      var ok := d.TransitionTo(STOPPED);
      if !ok {
        return InvalidTransition;
      }
      rows := rows[id := d.loaded.(status := d.status, stopped := Some(now), updated := now)];
      return Done;
    }

    /** The delete handler up to its teardown; its transition can never be refused. */
    method Retire(id: Id, now: nat) returns (reply: Reply)
      modifies this
      ensures (rows, reply) == Retired(old(rows), id, now)
      ensures reply == if id in old(rows) then Done else NotFound
      ensures id in old(rows) && old(rows)[id].status != STOPPED && old(rows)[id].status != FAILED ==>
                && OnlyAt(old(rows), rows, id)
                && rows[id] == old(rows)[id].(status := STOPPED, stopped := Some(now), updated := now)
      ensures id in old(rows) && (old(rows)[id].status == STOPPED || old(rows)[id].status == FAILED) ==>
                rows == old(rows)
      ensures id !in old(rows) ==> rows == old(rows)
    {
      if id !in rows {
        return NotFound;
      }
      var d := new Deployment(rows[id]);
      if Active(d.status) {
        var ok := d.TransitionTo(STOPPED);
        assert ok;
        rows := rows[id := d.loaded.(status := d.status, stopped := Some(now), updated := now)];
      }
      return Done;
    }

    method Remove(id: Id)
      modifies this
      ensures rows == Removed(old(rows), id)
    {
      rows := rows - {id};
    }

    method MarkFailed(id: Id, code: Code, now: nat)
      modifies this
      ensures rows == Failed(old(rows), id, code, now)
      ensures id !in old(rows) ==> rows == old(rows)
      ensures id in old(rows) ==>
                var (was, status) := (old(rows)[id], old(rows)[id].status);
                && OnlyAt(old(rows), rows, id)
                && (status == PENDING || status == BUILDING ==>
                      rows[id] == was.(status := FAILED, error := Some(code), updated := now))
                && (status == RUNNING || status == STOPPED || status == FAILED ==>
                      rows[id] == was.(error := Some(code), updated := now))
    {
      if id !in rows {
        return;
      }
      var d := new Deployment(rows[id]);
      if d.status.PENDING? || d.status.BUILDING? {
        var ok := d.TransitionTo(FAILED);
        assert ok;
      }
      rows := rows[id := d.loaded.(status := d.status, error := Some(code), updated := now)];
    }

    /** The reaper: every row BUILDING for longer than the threshold fails; no transition is refused. */
    method Reap(now: nat, thresholdMinutes: int, dryRun: bool) returns (count: nat)
      modifies this
      ensures rows == if dryRun then old(rows) else Reaped(old(rows), now - 60 * thresholdMinutes, now)
      ensures count == |set id | id in old(rows) && Stale(old(rows)[id], now - 60 * thresholdMinutes)|
    {
      var cutoff := now - 60 * thresholdMinutes;
      var stale := set id | id in rows && Stale(rows[id], cutoff);
      count := |stale|;
      var left := stale;
      while left != {}
        invariant left <= stale && rows.Keys == old(rows).Keys
        invariant forall id :: id in rows ==>
          rows[id] == if id in stale - left && !dryRun then ReapedRow(old(rows)[id], now) else old(rows)[id]
        decreases left
      {
        var id :| id in left;
        if !dryRun {
          var d := new Deployment(rows[id]);
          var ok := d.TransitionTo(FAILED);
          assert ok;
          rows := rows[id := d.loaded.(status := d.status, error := Some(REAPED), updated := now)];
        }
        left := left - {id};
      }
      assert stale - left == stale;
      if dryRun {
        assert rows == old(rows);
      } else {
        var reaped := Reaped(old(rows), cutoff, now);
        assert rows.Keys == reaped.Keys && forall id :: id in rows ==> rows[id] == reaped[id];
      }
    }

    /** The builder's first transaction, under the row lock. */
    method Claim(id: Id, now: nat) returns (claim: Claimant)
      modifies this
      ensures (rows, claim) == Claiming(old(rows), id, now)
      ensures id !in old(rows) ==> claim == Gone && rows == old(rows)
      ensures id in old(rows) ==>
                var (was, status) := (old(rows)[id], old(rows)[id].status);
                && (status == RUNNING || status == STOPPED ==> claim == NothingToDo && rows == old(rows))
                && (status == FAILED ==> claim == Refused && rows == old(rows))
                && (status == BUILDING ==> claim == Claimed && rows == old(rows))
                && (status == PENDING ==>
                      && claim == Claimed && OnlyAt(old(rows), rows, id)
                      && rows[id] == was.(status := BUILDING, error := None, updated := now))
    {
      if id !in rows {
        return Gone;
      }
      var d := new Deployment(rows[id]);
      if d.status.RUNNING? || d.status.STOPPED? {
        return NothingToDo;
      }
      if d.status.PENDING? {
        var ok := d.TransitionTo(BUILDING);
        assert ok;
        rows := rows[id := d.loaded.(status := d.status, error := None, updated := now)];
      } else if !d.status.BUILDING? {
        return Refused;
      }
      return Claimed;
    }

    /** The builder's second transaction, under the row lock. */
    method Finish(id: Id, now: nat) returns (landing: Landing)
      modifies this
      ensures (rows, landing) == Finishing(old(rows), id, now)
      ensures id !in old(rows) ==> landing == Vanished && rows == old(rows)
      ensures id in old(rows) ==>
                var (was, status) := (old(rows)[id], old(rows)[id].status);
                && (status == STOPPED ==> landing == Cancelled && rows == old(rows))
                && (status == PENDING || status == RUNNING || status == FAILED ==>
                      landing == Changed && rows == old(rows))
                && (status == BUILDING ==>
                      && landing == Launched && OnlyAt(old(rows), rows, id)
                      && rows[id] == was.(status := RUNNING, started := Some(now), updated := now))
    {
      if id !in rows {
        return Vanished;
      }
      var d := new Deployment(rows[id]);
      if d.status.STOPPED? {
        return Cancelled;
      }
      if !d.status.BUILDING? {
        return Changed;
      }
      var ok := d.TransitionTo(RUNNING);
      assert ok;
      rows := rows[id := d.loaded.(status := d.status, started := Some(now), updated := now)];
      return Launched;
    }
  }

  /*** Waiting for the runner. ***/

  /** What the k-th probe answers, and how many milliseconds it takes. */
  datatype Probe = Probe(status: nat, took: nat)

  const PAUSE := 500

  function Arrives(start: nat, probe: nat -> Probe, k: nat): (t: nat)
    ensures start + PAUSE * k <= t
  {
    if k == 0 then start else Arrives(start, probe, k - 1) + probe(k - 1).took + PAUSE
  }

  lemma {:induction false} LaterProbesArriveLater(start: nat, probe: nat -> Probe, j: nat, k: nat)
    requires j <= k
    ensures Arrives(start, probe, j) <= Arrives(start, probe, k)
  {
    if j < k {
      LaterProbesArriveLater(start, probe, j, k - 1);
    }
  }

  /** Probes that answer at once come half a second apart. */
  lemma {:induction false} PromptProbes(start: nat, probe: nat -> Probe, k: nat)
    requires forall j: nat :: j < k ==> probe(j).took == 0
    ensures Arrives(start, probe, k) == start + 500 * k
  {
    if k > 0 {
      PromptProbes(start, probe, k - 1);
    }
  }

  /** The runner is ready exactly when some probe begun before the deadline answers 200; and the loop asks
      at most one probe more than pauses fit before the deadline. */
  method AwaitReady(start: nat, timeout: nat, probe: nat -> Probe) returns (ready: bool, asked: nat)
    ensures ready <==> exists k: nat :: Arrives(start, probe, k) < start + timeout && probe(k).status == 200
    ensures PAUSE * asked < timeout + PAUSE
  {
    var now := start;
    asked := 0;
    while now < start + timeout
      invariant now == Arrives(start, probe, asked)
      invariant PAUSE * asked < timeout + PAUSE
      invariant forall k: nat :: k < asked ==> probe(k).status != 200
      decreases start + timeout - now
    {
      var answer := probe(asked);
      if answer.status == 200 {
        return true, asked;
      }
      now := now + answer.took + PAUSE;
      asked := asked + 1;
    }
    forall k: nat | Arrives(start, probe, k) < start + timeout
      ensures probe(k).status != 200
    {
      if asked <= k {
        LaterProbesArriveLater(start, probe, asked, k);
      }
    }
    return false, asked;
  }
}
