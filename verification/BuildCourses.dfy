/** One build attempt of a run that is left alone: the steps it takes, and what it leaves. */
module BuildCourses {
  import opened Wrappers
  import opened Deployments
  import opened BuildTasks

  /** The world some events lead to; None when one of them was not possible. */
  ghost function Go(w: World, events: seq<Event>, ttl: nat): Option<World>
    decreases |events|
  {
    if events == [] then Some(w)
    else if Possible(w, events[0]) then Go(Following(w, events[0], ttl), events[1..], ttl)
    else None
  }

  lemma {:induction false} GoOn(w: World, events: seq<Event>, e: Event, ttl: nat)
    requires Go(w, events, ttl).Some? && Possible(Go(w, events, ttl).value, e)
    ensures Go(w, events + [e], ttl) == Some(Following(Go(w, events, ttl).value, e, ttl))
    decreases |events|
  {
    if events == [] {
      assert [e][1..] == [];
    } else {
      GoOn(Following(w, events[0], ttl), events[1..], e, ttl);
      assert (events + [e])[1..] == events[1..] + [e];
    }
  }

  lemma Then(w: World, events: seq<Event>, n: World, e: Event, ttl: nat) returns (more: seq<Event>, next: World)
    requires Go(w, events, ttl) == Some(n) && Possible(n, e)
    ensures next == Following(n, e, ttl) && Go(w, more, ttl) == Some(next)
  {
    GoOn(w, events, e, ttl);
    more, next := events + [e], Following(n, e, ttl);
  }

  /** A message that is due, for a deployment whose lock is free. */
  predicate Deliverable(w: World, m: nat) {
    m < |w.queue| && w.queue[m].due <= w.now && !Held(w, w.queue[m].dep)
  }

  function Taken(w: World, m: nat): seq<Message>
    requires m < |w.queue|
  {
    w.queue[m := w.queue[m].(taken := true)]
  }

  /** The attempt that message `m` of the world `w` began stands at `pc` in the world `n`; nothing else has happened
      but to its own row, its lock, and the retry it may have sent. */
  ghost predicate Stands(w: World, m: nat, n: World, pc: Pc, sent: seq<Message>, ttl: nat)
    requires m < |w.queue|
  {
    var msg := w.queue[m];
    && n.now == w.now && n.ids == w.ids && n.retiring == w.retiring
    && n.attempts == w.attempts + [Attempt(msg.dep, msg.retries, msg.origin, msg.waited, w.now, pc)]
    && n.queue == Taken(w, m) + sent
    && n.rows.Keys == w.rows.Keys
    && (forall id :: id in n.rows && id != msg.dep ==> n.rows[id] == w.rows[id])
    && n.locks == w.locks[msg.dep := Lock(|w.attempts|, w.now + ttl)]
  }

  /** The row of the deployment, with the number of the attempt. */
  predicate HasRow(w: World, m: nat, n: World, status: Status)
    requires m < |w.queue|
  {
    var msg := w.queue[m];
    && msg.dep in w.rows && msg.dep in n.rows && n.rows[msg.dep].status == status
    && n.rows[msg.dep].version == w.rows[msg.dep].version && n.rows[msg.dep].attempt == msg.retries + 1
  }

  lemma NothingSent(w: World, m: nat)
    requires m < |w.queue|
    ensures Taken(w, m) + [] == Taken(w, m)
  {
  }

  lemma Fetching(w: World, m: nat, ttl: nat) returns (events: seq<Event>, n: World)
    requires Deliverable(w, m)
    ensures Go(w, events, ttl) == Some(n)
    ensures var dep := w.queue[m].dep;
            if dep !in w.rows then Stands(w, m, n, AtPeek(Missing), [], ttl) && n.rows == w.rows
            else if w.rows[dep].status == RUNNING || w.rows[dep].status == STOPPED then
              Stands(w, m, n, AtPeek(AsFound), [], ttl) && n.rows == w.rows
            else Stands(w, m, n, AtClaim, [], ttl) && HasRow(w, m, n, w.rows[dep].status)
  {
    NothingSent(w, m);
    events, n := Then(w, [], w, Deliver(m), ttl);
    assert Stands(w, m, n, AtFetch, [], ttl);
    events, n := Then(w, events, n, Fetch(|w.attempts|), ttl);
  }

  lemma Claiming(w: World, m: nat, events: seq<Event>, n: World, ttl: nat)
    returns (more: seq<Event>, next: World)
    requires m < |w.queue| && Go(w, events, ttl) == Some(n)
    requires Stands(w, m, n, AtClaim, [], ttl) && w.queue[m].dep in w.rows
    requires HasRow(w, m, n, w.rows[w.queue[m].dep].status)
    requires var s := w.rows[w.queue[m].dep].status; s == PENDING || s == BUILDING || s == FAILED
    ensures Go(w, more, ttl) == Some(next)
    ensures if w.rows[w.queue[m].dep].status == FAILED then
              Stands(w, m, next, AtFail("RUNNER_INTERNAL"), [], ttl) && HasRow(w, m, next, FAILED)
            else Stands(w, m, next, AtBuild, [], ttl) && HasRow(w, m, next, BUILDING)
  {
    more, next := Then(w, events, n, ClaimBy(|w.attempts|), ttl);
  }

  /** The retry of the attempt that message `m` began. */
  function RetryOf(w: World, m: nat): Message
    requires m < |w.queue|
  {
    var (msg, wait) := (w.queue[m], 30 * Pow3(w.queue[m].retries));
    Message(msg.dep, msg.retries + 1, w.now + wait, msg.origin, msg.waited + wait, false)
  }

  lemma Building(w: World, m: nat, events: seq<Event>, n: World, built: Built, ttl: nat)
    returns (more: seq<Event>, next: World)
    requires m < |w.queue| && Go(w, events, ttl) == Some(n)
    requires Stands(w, m, n, AtBuild, [], ttl) && HasRow(w, m, n, BUILDING)
    ensures Go(w, more, ttl) == Some(next) && HasRow(w, m, next, BUILDING)
    ensures built.Ready? ==> Stands(w, m, next, AtFinish, [], ttl)
    ensures built.Broken? ==> Stands(w, m, next, AtFail(built.code), [], ttl)
    ensures built.Retryable? && w.queue[m].retries >= 3 ==> Stands(w, m, next, AtFail(built.code), [], ttl)
    ensures built.Retryable? && w.queue[m].retries < 3 ==>
              Stands(w, m, next, AtPeek(Retrying(RetryOf(w, m).due)), [RetryOf(w, m)], ttl)
  {
    NothingSent(w, m);
    more, next := Then(w, events, n, Build(|w.attempts|, built), ttl);
  }

  lemma Finishing(w: World, m: nat, events: seq<Event>, n: World, ttl: nat)
    returns (more: seq<Event>, next: World)
    requires m < |w.queue| && Go(w, events, ttl) == Some(n)
    requires Stands(w, m, n, AtFinish, [], ttl) && HasRow(w, m, n, BUILDING)
    ensures Go(w, more, ttl) == Some(next)
    ensures Stands(w, m, next, AtPeek(SaysRunning), [], ttl) && HasRow(w, m, next, RUNNING)
  {
    more, next := Then(w, events, n, FinishBy(|w.attempts|), ttl);
  }

  lemma Failing(w: World, m: nat, events: seq<Event>, n: World, code: Code, status: Status, ttl: nat)
    returns (more: seq<Event>, next: World)
    requires m < |w.queue| && Go(w, events, ttl) == Some(n) && (status == BUILDING || status == FAILED)
    requires Stands(w, m, n, AtFail(code), [], ttl) && HasRow(w, m, n, status)
    ensures Go(w, more, ttl) == Some(next)
    ensures Stands(w, m, next, AtPeek(SaysFailed), [], ttl) && HasRow(w, m, next, FAILED)
    ensures next.rows[w.queue[m].dep].error == Some(code)
  {
    more, next := Then(w, events, n, MarkFailed(|w.attempts|), ttl);
  }

  /** The attempt is over, its rows are those of `was`, and its lock is given back. */
  ghost predicate OverWith(w: World, m: nat, was: World, n: World, outcome: Outcome, sent: seq<Message>)
    requires m < |w.queue|
  {
    var msg := w.queue[m];
    && n.now == w.now && n.rows == was.rows && n.locks == w.locks - {msg.dep} && n.queue == Taken(w, m) + sent
    && n.attempts == w.attempts + [Attempt(msg.dep, msg.retries, msg.origin, msg.waited, w.now, Ended(outcome))]
  }

  lemma Leaving(w: World, m: nat, events: seq<Event>, n: World, outcome: Outcome, sent: seq<Message>, ttl: nat)
    returns (more: seq<Event>, next: World)
    requires m < |w.queue| && Go(w, events, ttl) == Some(n) && ttl > 0
    requires Stands(w, m, n, AtPeek(outcome), sent, ttl)
    ensures Go(w, more, ttl) == Some(next) && OverWith(w, m, n, next, outcome, sent)
  {
    more, next := Then(w, events, n, Peek(|w.attempts|), ttl);
    assert Stands(w, m, next, AtRelease(outcome), sent, ttl);
    more, next := Then(w, more, next, Release(|w.attempts|), ttl);
  }

  /** What an attempt that is left alone reports, for the row it finds and what building comes to. */
  function Reported(w: World, m: nat, built: Built): Outcome
    requires m < |w.queue|
  {
    var dep := w.queue[m].dep;
    if dep !in w.rows then Missing
    else if w.rows[dep].status == RUNNING || w.rows[dep].status == STOPPED then AsFound
    else if w.rows[dep].status == FAILED then SaysFailed
    else if built.Ready? then SaysRunning
    else if built.Retryable? && w.queue[m].retries < 3 then Retrying(RetryOf(w, m).due)
    else SaysFailed
  }

  /** Left alone, an attempt goes through, from every world in which its message is due and its lock free: a row to be
      built ends RUNNING if the runner gets ready, BUILDING with one retry on its way if there is one to come, and else
      FAILED with the error recorded; any other row keeps its status; the lock is free again, and no other row, lock
      or message has changed. */
  lemma LeftAlone(w: World, m: nat, built: Built, ttl: nat) returns (events: seq<Event>, n: World)
    requires Deliverable(w, m) && ttl > 0
    ensures Go(w, events, ttl) == Some(n)
    ensures OverWith(w, m, n, n, Reported(w, m, built), if Reported(w, m, built).Retrying? then [RetryOf(w, m)] else [])
    ensures n.rows.Keys == w.rows.Keys && forall id :: id in n.rows && id != w.queue[m].dep ==> n.rows[id] == w.rows[id]
    ensures var (dep, outcome) := (w.queue[m].dep, Reported(w, m, built));
            && (outcome.Missing? || outcome.AsFound? ==> n.rows == w.rows)
            && (outcome.SaysRunning? ==> HasRow(w, m, n, RUNNING))
            && (outcome.Retrying? ==> HasRow(w, m, n, BUILDING))
            && (outcome.SaysFailed? ==>
                  && HasRow(w, m, n, FAILED)
                  && n.rows[dep].error == Some(if w.rows[dep].status == FAILED || built.Ready? then "RUNNER_INTERNAL"
                                               else built.code))
  {
    var dep, outcome := w.queue[m].dep, Reported(w, m, built);
    var sent := if outcome.Retrying? then [RetryOf(w, m)] else [];
    events, n := Fetching(w, m, ttl);
    if !outcome.Missing? && !outcome.AsFound? {
      events, n := Claiming(w, m, events, n, ttl);
      if w.rows[dep].status == FAILED {
        events, n := Failing(w, m, events, n, "RUNNER_INTERNAL", FAILED, ttl);
      } else {
        events, n := Building(w, m, events, n, built, ttl);
        if outcome.SaysRunning? {
          events, n := Finishing(w, m, events, n, ttl);
        } else if outcome.SaysFailed? {
          events, n := Failing(w, m, events, n, built.code, BUILDING, ttl);
        }
      }
    }
    var done := n;
    events, n := Leaving(w, m, events, n, outcome, sent, ttl);
    assert n.rows == done.rows;
  }

  /*** And when it is not left alone. ***/

  /** The builder's first transaction, whatever happened since the attempt read its row: it goes on with a row that is
      PENDING or BUILDING, reports a deployment that runs or was stopped as running, and fails on one that is gone or
      FAILED. */
  lemma ClaimedByIff(w: World, i: nat, ttl: nat)
    requires Possible(w, ClaimBy(i))
    ensures var (n, dep) := (Following(w, ClaimBy(i), ttl), w.attempts[i].dep);
            && (n.attempts[i].pc == AtBuild <==>
                  dep in w.rows && (w.rows[dep].status == PENDING || w.rows[dep].status == BUILDING))
            && (n.attempts[i].pc == AtPeek(SaysRunning) <==>
                  dep in w.rows && (w.rows[dep].status == RUNNING || w.rows[dep].status == STOPPED))
            && (n.attempts[i].pc == AtFail("RUNNER_INTERNAL") <==> dep !in w.rows || w.rows[dep].status == FAILED)
            && (n.attempts[i].pc == AtBuild ==> dep in n.rows && n.rows[dep].status == BUILDING)
            && (n.attempts[i].pc != AtBuild ==> n.rows == w.rows)
  {
  }

  /** Its second transaction, whatever happened since the first: only a row still BUILDING runs; a stop wins, and is
      reported as such; anything else is an error. */
  lemma FinishedByIff(w: World, i: nat, ttl: nat)
    requires Possible(w, FinishBy(i))
    ensures var (n, dep) := (Following(w, FinishBy(i), ttl), w.attempts[i].dep);
            && (n.attempts[i].pc == AtPeek(SaysRunning) <==> dep in w.rows && w.rows[dep].status == BUILDING)
            && (n.attempts[i].pc == AtPeek(WasStopped) <==> dep in w.rows && w.rows[dep].status == STOPPED)
            && (n.attempts[i].pc == AtFail("RUNNER_INTERNAL") <==>
                  dep !in w.rows || (w.rows[dep].status != BUILDING && w.rows[dep].status != STOPPED))
            && (n.attempts[i].pc == AtPeek(SaysRunning) ==> dep in n.rows && n.rows[dep].status == RUNNING)
            && (n.attempts[i].pc != AtPeek(SaysRunning) ==> n.rows == w.rows)
  {
  }

  /** The two calls that give back the lock, made in one go: the entry goes if and only if it still counts and is the
      attempt's own. */
  lemma GivesBackIff(w: World, i: nat, ttl: nat)
    requires Possible(w, Peek(i))
    ensures var (n, dep) := (Following(w, Peek(i), ttl), w.attempts[i].dep);
            var own := dep in w.locks && w.now < w.locks[dep].expires && w.locks[dep].token == i;
            && (Possible(n, Release(i)) <==> own)
            && (own ==> Following(n, Release(i), ttl).locks == w.locks - {dep})
            && (!own ==> n.locks == w.locks && n.attempts[i].pc.Ended?)
  {
  }

  /** The handlers and the reaper, at any point of a run: a stop and a delete stop an active row; what a delete has
      begun it can finish, and then the row is gone; the reaper fails exactly what has been BUILDING for too long. */
  lemma HandlersAct(w: World, id: Id, minutes: int, ttl: nat)
    ensures var n := Following(w, StopBy(id), ttl);
            && n == w.(rows := n.rows) && OnlyAt(w.rows, n.rows, id)
            && (id in w.rows && Active(w.rows[id].status) ==> n.rows[id].status == STOPPED)
            && (id in w.rows && !Active(w.rows[id].status) ==> n.rows == w.rows)
    ensures var n := Following(w, RetireBy(id), ttl);
            && OnlyAt(w.rows, n.rows, id)
            && (id in w.rows ==> Possible(n, RemoveBy(id)) && !Active(n.rows[id].status))
            && (id in w.rows && Active(w.rows[id].status) ==> n.rows[id].status == STOPPED)
    ensures Possible(w, RemoveBy(id)) ==> Following(w, RemoveBy(id), ttl) == w.(rows := w.rows - {id})
    ensures var n := Following(w, ReapBy(minutes), ttl);
            && n == w.(rows := n.rows) && n.rows.Keys == w.rows.Keys
            && forall k :: k in n.rows ==>
                 if w.rows[k].status == BUILDING && w.rows[k].updated + 60 * minutes < w.now
                 then n.rows[k].status == FAILED && n.rows[k].error == Some("RUNNER_WORKER_TIMEOUT")
                 else n.rows[k] == w.rows[k]
  {
  }
}
