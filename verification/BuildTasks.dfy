/** Build attempts: any number of workers running `build_deployment`, with its expiring lock, its retries
    and redelivered messages, against the stop, delete and reaper steps. One event is one commit, one cache
    call or one message; between events anything else may happen. */
module BuildTasks {
  import opened Wrappers
  import opened Deployments

  const MAX_RETRIES := 3

  function Pow3(n: nat): (p: nat)
    ensures p >= 1
  {
    if n == 0 then 1 else 3 * Pow3(n - 1)
  }

  /** What building came to: a ready runner, an error worth another attempt, or one that is not. */
  datatype Built = Ready | Retryable(code: Code) | Broken(code: Code)

  const NON_RETRYABLE: set<Code> := {
    "RUNNER_INVALID_MANIFEST", "RUNNER_UNSUPPORTED_FRAMEWORK", "RUNNER_MISSING_ARTIFACT",
    "RUNNER_INVALID_REQUIREMENTS", "RUNNER_DETERMINISTIC_INSTALL_FAILURE", "RUNNER_MODEL_LOAD_FAILED",
    "RUNNER_SMOKE_CHECK_FAILED", "RUNNER_INVALID_INPUT", "RUNNER_INTERNAL"
  }

  /** The builder between its transactions. */
  function Classified(initialised: bool, code: Code, flagged: bool, ready: bool): Built {
    if !initialised then (if flagged && code !in NON_RETRYABLE then Retryable(code) else Broken(code))
    else if !ready then Retryable("RUNNER_WORKER_TIMEOUT")
    else Ready
  }

  datatype Lock = Lock(token: nat, expires: nat)

  /** A message asks for one attempt, no sooner than `due`; `origin` is when its deployment was created and
      `waited` the sum of the countdowns that led to it. */
  datatype Message = Message(dep: Id, retries: nat, due: nat, origin: nat, waited: nat, taken: bool)

  datatype Outcome = Missing | AsFound | WasStopped | SaysRunning | SaysFailed | Retrying(due: nat)

  /** Where an attempt stands: before its read, before each transaction, in between, before `_mark_failed`,
      before the two calls that release the lock, ended, or turned away by the lock. */
  datatype Pc = AtFetch | AtClaim | AtBuild | AtFinish | AtFail(code: Code)
              | AtPeek(outcome: Outcome) | AtRelease(outcome: Outcome) | Ended(outcome: Outcome) | Busy

  datatype Attempt = Attempt(dep: Id, retries: nat, origin: nat, waited: nat, began: nat, pc: Pc)

  datatype World = World(now: nat, rows: Rows, ids: set<Id>, locks: map<Id, Lock>,
                         queue: seq<Message>, attempts: seq<Attempt>,
                         retiring: set<Id>, redelivered: multiset<Id>)

  const START := World(0, map[], {}, map[], [], [], {}, multiset{})

  datatype Event =
    | Tick(seconds: nat)
    | Post(id: Id, version: nat) | StopBy(id: Id) | RetireBy(id: Id) | RemoveBy(id: Id) | ReapBy(minutes: int)
    | Deliver(m: nat)
    | Fetch(i: nat) | ClaimBy(i: nat) | Build(i: nat, built: Built) | FinishBy(i: nat) | MarkFailed(i: nat)
    | Peek(i: nat) | Release(i: nat)

  /** A lock entry counts until it expires. */
  predicate Held(w: World, dep: Id) {
    dep in w.locks && w.now < w.locks[dep].expires
  }

  /*** Steps. ***/

  ghost predicate Possible(w: World, e: Event) {
    match e
    case Tick(_) => true
    case Post(id, _) => id !in w.ids
    case StopBy(_) => true
    case RetireBy(_) => true
    case RemoveBy(id) => id in w.retiring
    case ReapBy(_) => true
    case Deliver(m) => m < |w.queue| && w.queue[m].due <= w.now
    case Fetch(i) => i < |w.attempts| && w.attempts[i].pc.AtFetch?
    case ClaimBy(i) => i < |w.attempts| && w.attempts[i].pc.AtClaim?
    case Build(i, _) => i < |w.attempts| && w.attempts[i].pc.AtBuild?
    case FinishBy(i) => i < |w.attempts| && w.attempts[i].pc.AtFinish?
    case MarkFailed(i) => i < |w.attempts| && w.attempts[i].pc.AtFail?
    case Peek(i) => i < |w.attempts| && w.attempts[i].pc.AtPeek?
    case Release(i) => i < |w.attempts| && w.attempts[i].pc.AtRelease?
  }

  function At(w: World, i: nat, pc: Pc): World
    requires i < |w.attempts|
  {
    w.(attempts := w.attempts[i := w.attempts[i].(pc := pc)])
  }

  function AtWith(w: World, i: nat, rows: Rows, pc: Pc): World
    requires i < |w.attempts|
  {
    At(w, i, pc).(rows := rows)
  }

  function Countdown(retries: nat): nat {
    30 * Pow3(retries)
  }

  function Retry(w: World, a: Attempt): Message {
    Message(a.dep, a.retries + 1, w.now + Countdown(a.retries), a.origin, a.waited + Countdown(a.retries), false)
  }

  /** The lock is taken if nobody holds it; else the attempt ends at once. A message may be delivered again. */
  function Delivered(w: World, m: nat, ttl: nat): World
    requires m < |w.queue|
  {
    var msg := w.queue[m];
    var token := |w.attempts|;
    w.(queue := w.queue[m := msg.(taken := true)],
       attempts := w.attempts + [Attempt(msg.dep, msg.retries, msg.origin, msg.waited, w.now,
                                         if Held(w, msg.dep) then Busy else AtFetch)],
       locks := if Held(w, msg.dep) then w.locks else w.locks[msg.dep := Lock(token, w.now + ttl)],
       redelivered := if msg.taken then w.redelivered + multiset{msg.dep} else w.redelivered)
  }

  function Fetched(w: World, i: nat): World
    requires i < |w.attempts|
  {
    var a := w.attempts[i];
    if a.dep !in w.rows then At(w, i, AtPeek(Missing))
    else if w.rows[a.dep].status.RUNNING? || w.rows[a.dep].status.STOPPED? then At(w, i, AtPeek(AsFound))
    else AtWith(w, i, Committed(w.rows, Number(a.dep, a.retries + 1), w.now), AtClaim)
  }

  function ClaimedBy(w: World, i: nat): World
    requires i < |w.attempts|
  {
    var a := w.attempts[i];
    var pc := match Claiming(w.rows, a.dep, w.now).1
      case Gone => AtFail("RUNNER_INTERNAL")
      case NothingToDo => AtPeek(SaysRunning)
      case Claimed => AtBuild
      case Refused => AtFail("RUNNER_INTERNAL");
    AtWith(w, i, Committed(w.rows, Claim(a.dep), w.now), pc)
  }

  function BuiltBy(w: World, i: nat, built: Built): World
    requires i < |w.attempts|
  {
    var a := w.attempts[i];
    match built
    case Ready => At(w, i, AtFinish)
    case Broken(code) => At(w, i, AtFail(code))
    case Retryable(code) =>
      if a.retries >= MAX_RETRIES then At(w, i, AtFail(code))
      else At(w, i, AtPeek(Retrying(w.now + Countdown(a.retries)))).(queue := w.queue + [Retry(w, a)])
  }

  function FinishedBy(w: World, i: nat): World
    requires i < |w.attempts|
  {
    var a := w.attempts[i];
    var pc := match Finishing(w.rows, a.dep, w.now).1
      case Vanished => AtFail("RUNNER_INTERNAL")
      case Cancelled => AtPeek(WasStopped)
      case Changed => AtFail("RUNNER_INTERNAL")
      case Launched => AtPeek(SaysRunning);
    AtWith(w, i, Committed(w.rows, Finish(a.dep), w.now), pc)
  }

  function MarkedFailed(w: World, i: nat): World
    requires i < |w.attempts| && w.attempts[i].pc.AtFail?
  {
    var a := w.attempts[i];
    AtWith(w, i, Committed(w.rows, Fail(a.dep, a.pc.code), w.now), AtPeek(SaysFailed))
  }

  /** `cache.get(key) == value`, then `cache.delete(key)`: two calls. */
  function Peeked(w: World, i: nat): World
    requires i < |w.attempts| && w.attempts[i].pc.AtPeek?
  {
    var a := w.attempts[i];
    At(w, i, if Held(w, a.dep) && w.locks[a.dep].token == i then AtRelease(a.pc.outcome) else Ended(a.pc.outcome))
  }

  function Released(w: World, i: nat): World
    requires i < |w.attempts| && w.attempts[i].pc.AtRelease?
  {
    At(w, i, Ended(w.attempts[i].pc.outcome)).(locks := w.locks - {w.attempts[i].dep})
  }

  ghost function Posted(w: World, id: Id, version: nat): World {
    var (rows, reply) := Inserted(w.rows, id, version, w.now);
    if reply.Done? then
      w.(rows := rows, ids := w.ids + {id}, queue := w.queue + [Message(id, 0, w.now, w.now, 0, false)])
    else w
  }

  ghost function Following(w: World, e: Event, ttl: nat): World
    requires Possible(w, e)
  {
    match e
    case Tick(seconds) => w.(now := w.now + seconds)
    case Post(id, version) => Posted(w, id, version)
    case StopBy(id) => w.(rows := Committed(w.rows, Stop(id), w.now))
    case RetireBy(id) =>
      if id in w.rows then w.(rows := Committed(w.rows, Retire(id), w.now), retiring := w.retiring + {id}) else w
    case RemoveBy(id) => w.(rows := Committed(w.rows, Remove(id), w.now))
    case ReapBy(minutes) => w.(rows := Committed(w.rows, Reap(w.now - 60 * minutes), w.now))
    case Deliver(m) => Delivered(w, m, ttl)
    case Fetch(i) => Fetched(w, i)
    case ClaimBy(i) => ClaimedBy(w, i)
    case Build(i, built) => BuiltBy(w, i, built)
    case FinishBy(i) => FinishedBy(w, i)
    case MarkFailed(i) => MarkedFailed(w, i)
    case Peek(i) => Peeked(w, i)
    case Release(i) => Released(w, i)
  }

  ghost function Play(trace: seq<Event>, ttl: nat): Option<World> {
    if trace == [] then Some(START)
    else
      var w := Play(trace[..|trace| - 1], ttl);
      if w.Some? && Possible(w.value, trace[|trace| - 1]) then Some(Following(w.value, trace[|trace| - 1], ttl))
        else None
  }

  /*** Rows over every run. ***/

  ghost predicate Sane(w: World) {
    && w.rows.Keys <= w.ids
    && AtMostOneActive(w.rows)
    && (forall id :: id in w.retiring && id in w.rows ==> !Active(w.rows[id].status))
    && (forall i :: 0 <= i < |w.attempts| ==> w.attempts[i].dep in w.ids)
    && (forall m :: 0 <= m < |w.queue| ==> w.queue[m].dep in w.ids)
    && w.retiring <= w.ids
  }

  /** The row step of an event other than an insert. */
  function StepOf(w: World, e: Event): Option<Step> {
    match e
    case StopBy(id) => Some(Stop(id))
    case RetireBy(id) => if id in w.rows then Some(Retire(id)) else None
    case RemoveBy(id) => Some(Remove(id))
    case ReapBy(minutes) => Some(Reap(w.now - 60 * minutes))
    case Fetch(i) =>
      if i < |w.attempts| && w.attempts[i].dep in w.rows && !w.rows[w.attempts[i].dep].status.RUNNING?
         && !w.rows[w.attempts[i].dep].status.STOPPED?
      then Some(Number(w.attempts[i].dep, w.attempts[i].retries + 1)) else None
    case ClaimBy(i) => if i < |w.attempts| then Some(Claim(w.attempts[i].dep)) else None
    case FinishBy(i) => if i < |w.attempts| then Some(Finish(w.attempts[i].dep)) else None
    case MarkFailed(i) =>
      if i < |w.attempts| && w.attempts[i].pc.AtFail? then Some(Fail(w.attempts[i].dep, w.attempts[i].pc.code))
        else None
    case _ => None
  }

  lemma RowsFollow(w: World, e: Event, ttl: nat)
    requires Possible(w, e) && !e.Post?
    ensures Following(w, e, ttl).rows == if StepOf(w, e).Some? then Committed(w.rows, StepOf(w, e).value, w.now)
            else w.rows
    ensures Following(w, e, ttl).ids == w.ids
  {
  }

  /** Every committed status change of every event is in the transition table. */
  lemma EventIsLawful(w: World, e: Event, ttl: nat)
    requires Possible(w, e) && w.rows.Keys <= w.ids
    ensures var n := Following(w, e, ttl);
            && Lawful(w.rows, n.rows) && n.rows.Keys <= n.ids && w.ids <= n.ids
            && (forall id :: id in n.rows && id !in w.rows ==> id !in w.ids)
            && (!e.Post? ==> n.rows.Keys <= w.rows.Keys)
  {
    if e.Post? {
      InsertIsLawful(w.rows, e.id, e.version, w.now);
    } else {
      RowsFollow(w, e, ttl);
      if StepOf(w, e).Some? {
        StepIsLawful(w.rows, StepOf(w, e).value, w.now);
      }
    }
  }

  /** An event changes where its own attempt stands, or starts one more attempt; nothing else. */
  function Actor(e: Event): Option<nat> {
    match e
    case Fetch(i) => Some(i)
    case ClaimBy(i) => Some(i)
    case Build(i, _) => Some(i)
    case FinishBy(i) => Some(i)
    case MarkFailed(i) => Some(i)
    case Peek(i) => Some(i)
    case Release(i) => Some(i)
    case _ => None
  }

  lemma AttemptsFollow(w: World, e: Event, ttl: nat)
    requires Possible(w, e)
    ensures var n := Following(w, e, ttl);
            && |w.attempts| <= |n.attempts|
            && (forall j :: 0 <= j < |w.attempts| ==> n.attempts[j] == w.attempts[j].(pc := n.attempts[j].pc))
            && (forall j :: 0 <= j < |w.attempts| && Actor(e) != Some(j) ==> n.attempts[j] == w.attempts[j])
            && (!e.Deliver? ==> |n.attempts| == |w.attempts|)
  {
  }

  /** Messages are only added, and only marked as taken. */
  lemma QueueFollows(w: World, e: Event, ttl: nat)
    requires Possible(w, e)
    ensures var n := Following(w, e, ttl);
            && |w.queue| <= |n.queue|
            && (forall m :: 0 <= m < |w.queue| ==> n.queue[m] == w.queue[m].(taken := n.queue[m].taken))
            && (forall m :: 0 <= m < |w.queue| && e != Deliver(m) ==> n.queue[m] == w.queue[m])
            && (!e.Post? && !e.Build? ==> |n.queue| == |w.queue|)
            && w.now <= n.now
  {
  }

  lemma RetiringFollows(w: World, e: Event, ttl: nat)
    requires Possible(w, e) && Sane(w)
    ensures var n := Following(w, e, ttl);
            && n.retiring <= n.ids
            && (forall id :: id in n.retiring && id in n.rows ==> !Active(n.rows[id].status))
  {
    EventIsLawful(w, e, ttl);
    var n := Following(w, e, ttl);
    forall id | id in n.retiring && id in n.rows
      ensures !Active(n.rows[id].status)
    {
      if id in w.retiring {
        assert id in w.ids && id in w.rows;
      } else {
        assert e == RetireBy(id);
      }
    }
  }

  lemma EventKeepsSane(w: World, e: Event, ttl: nat)
    requires Possible(w, e) && Sane(w)
    ensures Sane(Following(w, e, ttl))
  {
    EventIsLawful(w, e, ttl);
    RetiringFollows(w, e, ttl);
    OneActiveFollows(w, e, ttl);
    DepsFollow(w, e, ttl);
  }

  lemma OneActiveFollows(w: World, e: Event, ttl: nat)
    requires Possible(w, e) && AtMostOneActive(w.rows) && w.rows.Keys <= w.ids
    ensures AtMostOneActive(Following(w, e, ttl).rows)
  {
    if e.Post? {
      InsertKeepsOneActive(w.rows, e.id, e.version, w.now);
    } else {
      EventIsLawful(w, e, ttl);
      LawfulKeepsOneActive(w.rows, Following(w, e, ttl).rows);
    }
  }

  lemma DepsFollow(w: World, e: Event, ttl: nat)
    requires Possible(w, e) && Sane(w)
    ensures var n := Following(w, e, ttl);
            && (forall i :: 0 <= i < |n.attempts| ==> n.attempts[i].dep in n.ids)
            && (forall m :: 0 <= m < |n.queue| ==> n.queue[m].dep in n.ids)
  {
    AttemptsFollow(w, e, ttl);
    QueueFollows(w, e, ttl);
  }

  /** Over every run: at most one active row per version, kept by the insert's check alone; and the delete
      handler only ever removes a row that is no longer active. */
  lemma {:induction false} OneActivePerVersion(trace: seq<Event>, ttl: nat)
    requires Play(trace, ttl).Some?
    ensures Sane(Play(trace, ttl).value)
    ensures AtMostOneActive(Play(trace, ttl).value.rows)
  {
    if trace != [] {
      OneActivePerVersion(trace[..|trace| - 1], ttl);
      EventKeepsSane(Play(trace[..|trace| - 1], ttl).value, trace[|trace| - 1], ttl);
    }
  }

  predicate Terminal(s: Status) {
    s.FAILED? || s.STOPPED?
  }

  /** No FAILED or STOPPED row becomes active again, and no removed row comes back. So a build that is
      stopped before its second transaction never makes the row RUNNING: whatever follows, the row stays
      STOPPED until it is removed. */
  lemma {:induction false} TerminalStays(trace: seq<Event>, more: seq<Event>, ttl: nat, id: Id)
    requires Play(trace + more, ttl).Some? && Play(trace, ttl).Some?
    requires var w := Play(trace, ttl).value; id in w.ids && (id in w.rows ==> Terminal(w.rows[id].status))
    ensures var (w, n) := (Play(trace, ttl).value, Play(trace + more, ttl).value);
            && id in n.ids
            && (id in n.rows ==> id in w.rows && n.rows[id].status == w.rows[id].status)
  {
    if more == [] {
      assert trace + more == trace;
    } else {
      var before := trace + more[..|more| - 1];
      assert (trace + more)[..|trace + more| - 1] == before;
      TerminalStays(trace, more[..|more| - 1], ttl, id);
      OneActivePerVersion(before, ttl);
      EventIsLawful(Play(before, ttl).value, more[|more| - 1], ttl);
    }
  }

  /*** Where an attempt leaves its row. ***/

  predicate Unbuilt(rows: Rows, id: Id) {
    id in rows ==> !rows[id].status.PENDING? && !rows[id].status.BUILDING?
  }

  /** The attempt held the lock and is over, without a retry. */
  predicate Over(pc: Pc) {
    (pc.AtPeek? || pc.AtRelease? || pc.Ended?) && !pc.outcome.Retrying?
  }

  ghost predicate Settled(w: World) {
    forall i :: 0 <= i < |w.attempts| && Over(w.attempts[i].pc) ==> Unbuilt(w.rows, w.attempts[i].dep)
  }

  lemma UnbuiltStays(w: World, e: Event, ttl: nat, id: Id)
    requires Possible(w, e) && Sane(w) && id in w.ids && Unbuilt(w.rows, id)
    ensures Unbuilt(Following(w, e, ttl).rows, id)
  {
    EventIsLawful(w, e, ttl);
  }

  lemma ActorSettles(w: World, e: Event, ttl: nat)
    requires Possible(w, e) && Actor(e).Some?
    ensures var (a, n) := (w.attempts[Actor(e).value], Following(w, e, ttl));
            Over(n.attempts[Actor(e).value].pc) && !Over(a.pc) ==> Unbuilt(n.rows, a.dep)
  {
  }

  lemma EventKeepsSettled(w: World, e: Event, ttl: nat)
    requires Possible(w, e) && Sane(w) && Settled(w)
    ensures Settled(Following(w, e, ttl))
  {
    var n := Following(w, e, ttl);
    AttemptsFollow(w, e, ttl);
    forall i | 0 <= i < |n.attempts| && Over(n.attempts[i].pc)
      ensures Unbuilt(n.rows, n.attempts[i].dep)
    {
      if i < |w.attempts| {
        if Over(w.attempts[i].pc) {
          UnbuiltStays(w, e, ttl, w.attempts[i].dep);
        } else {
          ActorSettles(w, e, ttl);
        }
      }
    }
  }

  /** An attempt that held the lock schedules a retry, or leaves its row RUNNING, FAILED, STOPPED or gone,
      and so it stays. */
  lemma {:induction false} AttemptsSettleTheirRow(trace: seq<Event>, ttl: nat)
    requires Play(trace, ttl).Some?
    ensures Settled(Play(trace, ttl).value)
  {
    if trace != [] {
      AttemptsSettleTheirRow(trace[..|trace| - 1], ttl);
      OneActivePerVersion(trace[..|trace| - 1], ttl);
      EventKeepsSettled(Play(trace[..|trace| - 1], ttl).value, trace[|trace| - 1], ttl);
    }
  }

  /*** The lock. ***/

  /** Between `cache.add` and the end of the release. */
  predicate Inside(pc: Pc) {
    !pc.Ended? && !pc.Busy?
  }

  ghost predicate Timely(w: World, ttl: nat) {
    forall i :: 0 <= i < |w.attempts| && Inside(w.attempts[i].pc) ==> w.now < w.attempts[i].began + ttl
  }

  /** Every holder finishes within the lock's timeout, at every point of the run. */
  ghost predicate TimelyRun(trace: seq<Event>, ttl: nat) {
    && Play(trace, ttl).Some? && Timely(Play(trace, ttl).value, ttl)
    && (trace != [] ==> TimelyRun(trace[..|trace| - 1], ttl))
  }

  ghost predicate Locked(w: World, ttl: nat) {
    forall i :: 0 <= i < |w.attempts| && Inside(w.attempts[i].pc) ==>
      w.attempts[i].dep in w.locks && w.locks[w.attempts[i].dep] == Lock(i, w.attempts[i].began + ttl)
  }

  lemma LocksFollow(w: World, e: Event, ttl: nat)
    requires Possible(w, e) && !e.Deliver? && !e.Release?
    ensures Following(w, e, ttl).locks == w.locks
    ensures forall j :: 0 <= j < |w.attempts| && Inside(Following(w, e, ttl).attempts[j].pc) ==>
            Inside(w.attempts[j].pc)
  {
    AttemptsFollow(w, e, ttl);
  }

  lemma EventKeepsLocked(w: World, e: Event, ttl: nat)
    requires Possible(w, e) && Timely(w, ttl) && Locked(w, ttl)
    ensures Locked(Following(w, e, ttl), ttl)
  {
    var n := Following(w, e, ttl);
    AttemptsFollow(w, e, ttl);
    if e.Deliver? {
      var dep := w.queue[e.m].dep;
      assert forall i :: 0 <= i < |w.attempts| && Inside(w.attempts[i].pc) && w.attempts[i].dep == dep ==> Held(w, dep);
    } else if e.Release? {
      assert n.locks == w.locks - {w.attempts[e.i].dep};
      assert w.locks[w.attempts[e.i].dep].token == e.i;
    } else {
      LocksFollow(w, e, ttl);
    }
  }

  lemma {:induction false} TimelyRunsAreLocked(trace: seq<Event>, ttl: nat)
    requires TimelyRun(trace, ttl)
    ensures Locked(Play(trace, ttl).value, ttl)
  {
    if trace != [] {
      TimelyRunsAreLocked(trace[..|trace| - 1], ttl);
      EventKeepsLocked(Play(trace[..|trace| - 1], ttl).value, trace[|trace| - 1], ttl);
    }
  }

  /** Build lock exclusion: at most one attempt of a deployment is inside, and a release only ever removes
      the lock of the attempt that makes it. */
  lemma BuildsExclude(trace: seq<Event>, ttl: nat, i: nat, j: nat)
    requires TimelyRun(trace, ttl)
    requires var w := Play(trace, ttl).value; i < |w.attempts| && j < |w.attempts|
    ensures var w := Play(trace, ttl).value;
            && (Inside(w.attempts[i].pc) && Inside(w.attempts[j].pc) ==>
                  w.attempts[i].dep == w.attempts[j].dep ==> i == j)
            && (Possible(w, Release(i)) ==> w.attempts[i].dep in w.locks && w.locks[w.attempts[i].dep].token == i)
            && (Possible(w, Peek(i)) ==> Following(w, Peek(i), ttl).attempts[i].pc.AtRelease?)
  {
    TimelyRunsAreLocked(trace, ttl);
  }
}
