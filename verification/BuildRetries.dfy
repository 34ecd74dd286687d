/** Retries over every run of the build tasks: how many, how late, and whether one is always on its way. */
module BuildRetries {
  import opened Wrappers
  import opened Deployments
  import opened BuildTasks

  /*** Backoff. ***/

  predicate OnSchedule(retries: nat, origin: nat, waited: nat, start: nat) {
    retries <= MAX_RETRIES && waited == 15 * (Pow3(retries) - 1) && origin + waited <= start
  }

  ghost predicate Scheduled(w: World) {
    && (forall m :: 0 <= m < |w.queue| ==>
          OnSchedule(w.queue[m].retries, w.queue[m].origin, w.queue[m].waited, w.queue[m].due))
    && (forall i :: 0 <= i < |w.attempts| ==>
          var a := w.attempts[i];
          OnSchedule(a.retries, a.origin, a.waited, a.began) && a.began <= w.now)
  }

  lemma RetryIsOnSchedule(w: World, a: Attempt)
    requires OnSchedule(a.retries, a.origin, a.waited, a.began) && a.began <= w.now && a.retries < MAX_RETRIES
    ensures var m := Retry(w, a); OnSchedule(m.retries, m.origin, m.waited, m.due)
  {
    assert Pow3(a.retries + 1) == 3 * Pow3(a.retries);
  }

  lemma EventKeepsScheduled(w: World, e: Event, ttl: nat)
    requires Possible(w, e) && Scheduled(w)
    ensures Scheduled(Following(w, e, ttl))
  {
    var n := Following(w, e, ttl);
    AttemptsFollow(w, e, ttl);
    QueueFollows(w, e, ttl);
    if e.Build? && w.attempts[e.i].retries < MAX_RETRIES {
      RetryIsOnSchedule(w, w.attempts[e.i]);
    }
    if e.Deliver? {
      assert w.queue[e.m].due <= w.now;
    }
  }

  /** The r-th retry starts no sooner than 15 * (3^r - 1) seconds after its deployment was created, that
      being the sum of the countdowns before it; and no attempt is more than the third retry. */
  lemma {:induction false} BackoffAddsUp(trace: seq<Event>, ttl: nat)
    requires Play(trace, ttl).Some?
    ensures Scheduled(Play(trace, ttl).value)
  {
    if trace != [] {
      BackoffAddsUp(trace[..|trace| - 1], ttl);
      EventKeepsScheduled(Play(trace[..|trace| - 1], ttl).value, trace[|trace| - 1], ttl);
    }
  }

  /*** How many attempts. ***/

  predicate MayRetry(pc: Pc) {
    pc.AtFetch? || pc.AtClaim? || pc.AtBuild?
  }

  /** Attempts of a deployment that a message not yet taken can still lead to. */
  function Promised(queue: seq<Message>, dep: Id): nat {
    if queue == [] then 0
    else
      var m := queue[|queue| - 1];
      Promised(queue[..|queue| - 1], dep) + if m.dep == dep && !m.taken && m.retries <= MAX_RETRIES then
        4 - m.retries else 0
  }

  function Share(a: Attempt, dep: Id): nat {
    if a.dep != dep then 0 else if MayRetry(a.pc) && a.retries <= MAX_RETRIES then 4 - a.retries else 1
  }

  /** Attempts begun, and those they can still lead to. */
  function Begun(attempts: seq<Attempt>, dep: Id): nat {
    if attempts == [] then 0 else Begun(attempts[..|attempts| - 1], dep) + Share(attempts[|attempts| - 1], dep)
  }

  function Attempts(attempts: seq<Attempt>, dep: Id): (n: nat)
    ensures n <= Begun(attempts, dep)
  {
    if attempts == [] then 0
    else Attempts(attempts[..|attempts| - 1], dep) + if attempts[|attempts| - 1].dep == dep then 1 else 0
  }

  lemma {:induction false} BegunUpdate(attempts: seq<Attempt>, i: nat, a: Attempt, dep: Id)
    requires i < |attempts|
    ensures Begun(attempts[i := a], dep) == Begun(attempts, dep) - Share(attempts[i], dep) + Share(a, dep)
  {
    var last := |attempts| - 1;
    if i < last {
      BegunUpdate(attempts[..last], i, a, dep);
      assert attempts[i := a][..last] == attempts[..last][i := a];
    } else {
      assert attempts[i := a][..last] == attempts[..last];
    }
  }

  lemma {:induction false} PromisedTaken(queue: seq<Message>, m: nat, dep: Id)
    requires m < |queue| && queue[m].retries <= MAX_RETRIES
    ensures Promised(queue[m := queue[m].(taken := true)], dep)
         == Promised(queue, dep) - if queue[m].dep == dep && !queue[m].taken then 4 - queue[m].retries else 0
  {
    var last, after := |queue| - 1, queue[m := queue[m].(taken := true)];
    if m < last {
      PromisedTaken(queue[..last], m, dep);
      assert after[..last] == queue[..last][m := queue[m].(taken := true)];
    } else {
      assert after[..last] == queue[..last];
    }
  }

  function Allowance(w: World, dep: Id): nat {
    4 * ((if dep in w.ids then 1 else 0) + w.redelivered[dep])
  }

  ghost predicate Bounded(w: World, dep: Id) {
    Promised(w.queue, dep) + Begun(w.attempts, dep) <= Allowance(w, dep)
  }

  /** An attempt that moves on may not retry more than before, unless it sends the retry. */
  lemma ActorShare(w: World, e: Event, ttl: nat)
    requires Possible(w, e) && Actor(e).Some?
    ensures var (i, n) := (Actor(e).value, Following(w, e, ttl));
            && n.attempts == w.attempts[i := n.attempts[i]] && n.attempts[i].dep == w.attempts[i].dep
            && n.attempts[i].retries == w.attempts[i].retries
            && (MayRetry(n.attempts[i].pc) ==> MayRetry(w.attempts[i].pc))
            && n.ids == w.ids && n.redelivered == w.redelivered
            && (n.queue == w.queue || (e.Build? && n.queue == w.queue + [Retry(w, w.attempts[i])]
                                       && w.attempts[i].retries < MAX_RETRIES && n.attempts[i].pc.AtPeek?))
  {
    AttemptsFollow(w, e, ttl);
  }

  lemma ActorKeepsBounded(w: World, e: Event, ttl: nat, dep: Id)
    requires Possible(w, e) && Actor(e).Some? && Bounded(w, dep)
    ensures Bounded(Following(w, e, ttl), dep)
  {
    var i, n := Actor(e).value, Following(w, e, ttl);
    ActorShare(w, e, ttl);
    BegunUpdate(w.attempts, i, n.attempts[i], dep);
    if n.queue != w.queue {
      assert n.queue[..|n.queue| - 1] == w.queue;
    }
  }

  lemma DeliveryKeepsBounded(w: World, m: nat, ttl: nat, dep: Id)
    requires Possible(w, Deliver(m)) && Bounded(w, dep) && w.queue[m].retries <= MAX_RETRIES
    ensures Bounded(Delivered(w, m, ttl), dep)
  {
    var n := Delivered(w, m, ttl);
    PromisedTaken(w.queue, m, dep);
    assert n.attempts[..|n.attempts| - 1] == w.attempts;
  }

  lemma PostKeepsBounded(w: World, id: Id, version: nat, dep: Id)
    requires id !in w.ids && Bounded(w, dep)
    ensures Bounded(Posted(w, id, version), dep)
  {
    var n := Posted(w, id, version);
    if n != w {
      assert n.queue[..|n.queue| - 1] == w.queue;
    }
  }

  lemma EventKeepsBounded(w: World, e: Event, ttl: nat, dep: Id)
    requires Possible(w, e) && Bounded(w, dep) && Scheduled(w)
    ensures Bounded(Following(w, e, ttl), dep)
  {
    if Actor(e).Some? {
      ActorKeepsBounded(w, e, ttl, dep);
    } else if e.Deliver? {
      DeliveryKeepsBounded(w, e.m, ttl, dep);
    } else if e.Post? {
      PostKeepsBounded(w, e.id, e.version, dep);
    }
  }

  /** A deployment gets at most max_retries + 1 attempts, for its creation and for each redelivery. */
  lemma {:induction false} AttemptsAreBounded(trace: seq<Event>, ttl: nat, dep: Id)
    requires Play(trace, ttl).Some?
    ensures var w := Play(trace, ttl).value;
            Bounded(w, dep) && Attempts(w.attempts, dep) <= (MAX_RETRIES + 1) * (1 + w.redelivered[dep])
  {
    if trace != [] {
      AttemptsAreBounded(trace[..|trace| - 1], ttl, dep);
      BackoffAddsUp(trace[..|trace| - 1], ttl);
      EventKeepsBounded(Play(trace[..|trace| - 1], ttl).value, trace[|trace| - 1], ttl, dep);
    }
  }

  /*** Somebody is always on it. ***/

  predicate Trying(pc: Pc) {
    pc.AtFetch? || pc.AtClaim? || pc.AtBuild? || pc.AtFinish? || pc.AtFail?
  }

  predicate WillRetry(pc: Pc) {
    (pc.AtPeek? || pc.AtRelease?) && pc.outcome.Retrying?
  }

  ghost predicate Sent(queue: seq<Message>, dep: Id) {
    exists m :: 0 <= m < |queue| && queue[m].dep == dep && !queue[m].taken
  }

  ghost predicate Tried(attempts: seq<Attempt>, dep: Id) {
    exists i :: 0 <= i < |attempts| && attempts[i].dep == dep && Trying(attempts[i].pc)
  }

  ghost predicate Pursued(w: World, dep: Id) {
    Sent(w.queue, dep) || Tried(w.attempts, dep)
  }

  /** Each attempt about to be retried has released its lock before the retry is due. */
  ghost predicate Prompt(w: World) {
    forall i :: 0 <= i < |w.attempts| && WillRetry(w.attempts[i].pc) ==> w.now < w.attempts[i].pc.outcome.due
  }

  ghost predicate PromptRun(trace: seq<Event>, ttl: nat) {
    && Play(trace, ttl).Some? && Prompt(Play(trace, ttl).value)
    && (trace != [] ==> PromptRun(trace[..|trace| - 1], ttl))
  }

  /** A lock entry that counts belongs to an attempt that is still inside; a scheduled retry is in the
      queue; and a message is not taken before it is due. */
  ghost predicate Tidy(w: World) {
    && (forall dep :: dep in w.locks && Held(w, dep) ==>
          var t := w.locks[dep].token; t < |w.attempts| && w.attempts[t].dep == dep && Inside(w.attempts[t].pc))
    && (forall i :: 0 <= i < |w.attempts| && WillRetry(w.attempts[i].pc) ==>
          Mailed(w.queue, w.attempts[i].dep, w.attempts[i].pc.outcome.due))
    && (forall m :: 0 <= m < |w.queue| && w.queue[m].taken ==> w.queue[m].due <= w.now)
  }

  ghost predicate Mailed(queue: seq<Message>, dep: Id, due: nat) {
    exists m :: 0 <= m < |queue| && queue[m].dep == dep && queue[m].due == due
  }

  lemma MailStays(w: World, e: Event, ttl: nat, dep: Id, due: nat)
    requires Possible(w, e) && Mailed(w.queue, dep, due)
    ensures Mailed(Following(w, e, ttl).queue, dep, due)
  {
    QueueFollows(w, e, ttl);
    var m :| 0 <= m < |w.queue| && w.queue[m].dep == dep && w.queue[m].due == due;
    assert Following(w, e, ttl).queue[m].dep == dep;
  }

  lemma LocksStayTidy(w: World, e: Event, ttl: nat, dep: Id)
    requires Possible(w, e) && Tidy(w)
    requires var n := Following(w, e, ttl); dep in n.locks && Held(n, dep)
    ensures var n := Following(w, e, ttl); var t := n.locks[dep].token;
            t < |n.attempts| && n.attempts[t].dep == dep && Inside(n.attempts[t].pc)
  {
    var n := Following(w, e, ttl);
    AttemptsFollow(w, e, ttl);
    if e.Deliver? {
      assert dep != w.queue[e.m].dep || Held(w, dep) || n.locks[dep].token == |w.attempts|;
    } else if e.Release? {
      assert dep != w.attempts[e.i].dep && Held(w, dep);
    } else {
      LocksFollow(w, e, ttl);
      assert Held(w, dep);
      var t := n.locks[dep].token;
      assert Actor(e) == Some(t) ==> e.Peek? || !w.attempts[t].pc.AtPeek?;
    }
  }

  lemma ActorMails(w: World, e: Event, ttl: nat)
    requires Possible(w, e) && Actor(e).Some?
    ensures var (i, n) := (Actor(e).value, Following(w, e, ttl));
            WillRetry(n.attempts[i].pc) ==>
              if WillRetry(w.attempts[i].pc) then n.attempts[i].pc.outcome == w.attempts[i].pc.outcome
              else Mailed(n.queue, n.attempts[i].dep, n.attempts[i].pc.outcome.due)
  {
    var i, n := Actor(e).value, Following(w, e, ttl);
    if e.Build? && e.built.Retryable? && w.attempts[i].retries < MAX_RETRIES {
      assert n.queue[|n.queue| - 1] == Retry(w, w.attempts[i]);
    }
  }

  lemma RetriesStayMailed(w: World, e: Event, ttl: nat, i: nat)
    requires Possible(w, e) && Tidy(w)
    requires var n := Following(w, e, ttl); i < |n.attempts| && WillRetry(n.attempts[i].pc)
    ensures var n := Following(w, e, ttl); Mailed(n.queue, n.attempts[i].dep, n.attempts[i].pc.outcome.due)
  {
    AttemptsFollow(w, e, ttl);
    if i < |w.attempts| {
      if Actor(e) == Some(i) {
        ActorMails(w, e, ttl);
      }
      if WillRetry(w.attempts[i].pc) {
        MailStays(w, e, ttl, w.attempts[i].dep, w.attempts[i].pc.outcome.due);
      }
    }
  }

  lemma EventKeepsTidy(w: World, e: Event, ttl: nat)
    requires Possible(w, e) && Tidy(w)
    ensures Tidy(Following(w, e, ttl))
  {
    var n := Following(w, e, ttl);
    QueueFollows(w, e, ttl);
    forall dep | dep in n.locks && Held(n, dep)
      ensures n.locks[dep].token < |n.attempts| && n.attempts[n.locks[dep].token].dep == dep
              && Inside(n.attempts[n.locks[dep].token].pc)
    {
      LocksStayTidy(w, e, ttl, dep);
    }
    forall i | 0 <= i < |n.attempts| && WillRetry(n.attempts[i].pc)
      ensures Mailed(n.queue, n.attempts[i].dep, n.attempts[i].pc.outcome.due)
    {
      RetriesStayMailed(w, e, ttl, i);
    }
  }

  ghost predicate AllPursued(w: World) {
    forall id :: id in w.rows && !Unbuilt(w.rows, id) ==> Pursued(w, id)
  }

  /** Another message of the deployment is on its way. */
  ghost predicate OtherSent(queue: seq<Message>, m: nat, dep: Id) {
    exists k :: 0 <= k < |queue| && k != m && queue[k].dep == dep && !queue[k].taken
  }

  /** A message turned away by the lock leaves its deployment pursued if and only if another message of it is on
      its way or an attempt is at work on it. */
  lemma TurnedAwayIff(w: World, m: nat, ttl: nat)
    requires Possible(w, Deliver(m)) && Held(w, w.queue[m].dep)
    ensures var dep := w.queue[m].dep;
            Pursued(Delivered(w, m, ttl), dep) <==> OtherSent(w.queue, m, dep) || Tried(w.attempts, dep)
  {
    var dep, n := w.queue[m].dep, Delivered(w, m, ttl);
    if OtherSent(w.queue, m, dep) {
      var k :| 0 <= k < |w.queue| && k != m && w.queue[k].dep == dep && !w.queue[k].taken;
      assert n.queue[k] == w.queue[k];
    }
    if Tried(w.attempts, dep) {
      var i :| 0 <= i < |w.attempts| && w.attempts[i].dep == dep && Trying(w.attempts[i].pc);
      assert n.attempts[i] == w.attempts[i];
    }
    if Sent(n.queue, dep) {
      var k :| 0 <= k < |n.queue| && n.queue[k].dep == dep && !n.queue[k].taken;
      assert k != m && w.queue[k] == n.queue[k];
    }
    if Tried(n.attempts, dep) {
      var i :| 0 <= i < |n.attempts| && n.attempts[i].dep == dep && Trying(n.attempts[i].pc);
      assert i < |w.attempts| && w.attempts[i] == n.attempts[i];
    }
  }

  /** The event is the delivery of a deployment's last message while the lock is held by an attempt that is no
      longer at work, and the deployment is still to be built. */
  ghost predicate Orphans(w: World, e: Event) {
    && e.Deliver? && e.m < |w.queue|
    && var dep := w.queue[e.m].dep;
       && Held(w, dep) && dep in w.rows && !Unbuilt(w.rows, dep)
       && !OtherSent(w.queue, e.m, dep) && !Tried(w.attempts, dep)
  }

  /** While retries are released in time, there is no such event. */
  lemma PromptNeverOrphans(w: World, m: nat)
    requires Possible(w, Deliver(m)) && Tidy(w) && Prompt(w) && Settled(w)
    ensures !Orphans(w, Deliver(m))
  {
    var dep := w.queue[m].dep;
    if Held(w, dep) && dep in w.rows && !Unbuilt(w.rows, dep) {
      var t := w.locks[dep].token;
      if !Trying(w.attempts[t].pc) {
        assert Over(w.attempts[t].pc) || WillRetry(w.attempts[t].pc);
        assert Mailed(w.queue, dep, w.attempts[t].pc.outcome.due);
        var k :| 0 <= k < |w.queue| && w.queue[k].dep == dep && w.queue[k].due == w.attempts[t].pc.outcome.due;
        assert k != m && !w.queue[k].taken;
      }
    }
  }

  /** An attempt past the due time of its retry that still holds the lock orphans the row, when its retry is the
      only message left and nobody else is at work. */
  lemma OverdueRetryOrphans(w: World, m: nat, i: nat, ttl: nat)
    requires Tidy(w) && i < |w.attempts| && WillRetry(w.attempts[i].pc)
    requires var dep := w.attempts[i].dep;
             Held(w, dep) && w.locks[dep].token == i && dep in w.rows && !Unbuilt(w.rows, dep)
    requires m < |w.queue| && w.queue[m].dep == w.attempts[i].dep && w.queue[m].due <= w.now
    requires !OtherSent(w.queue, m, w.attempts[i].dep) && !Tried(w.attempts, w.attempts[i].dep)
    ensures var (dep, n) := (w.attempts[i].dep, Following(w, Deliver(m), ttl));
            dep in n.rows && !Unbuilt(n.rows, dep) && !Pursued(n, dep)
  {
    TurnedAwayIff(w, m, ttl);
  }

  lemma DeliveryKeepsPursued(w: World, m: nat, ttl: nat, id: Id)
    requires Possible(w, Deliver(m)) && !Orphans(w, Deliver(m))
    requires id in w.rows && !Unbuilt(w.rows, id) && Pursued(w, id)
    ensures Pursued(Delivered(w, m, ttl), id)
  {
    var n, dep := Delivered(w, m, ttl), w.queue[m].dep;
    if id == dep {
      if Held(w, dep) {
        TurnedAwayIff(w, m, ttl);
      } else {
        assert n.attempts[|w.attempts|].dep == id && Trying(n.attempts[|w.attempts|].pc);
      }
    } else if Sent(w.queue, id) {
      var k :| 0 <= k < |w.queue| && w.queue[k].dep == id && !w.queue[k].taken;
      assert n.queue[k] == w.queue[k];
    } else {
      var i :| 0 <= i < |w.attempts| && w.attempts[i].dep == id && Trying(w.attempts[i].pc);
      assert n.attempts[i] == w.attempts[i];
    }
  }

  /** An attempt that stops trying has settled its row, or sent the retry. */
  lemma ActorKeepsPursued(w: World, e: Event, ttl: nat, id: Id)
    requires Possible(w, e) && Actor(e).Some? && Pursued(w, id)
    requires var n := Following(w, e, ttl); id in n.rows && !Unbuilt(n.rows, id)
    ensures Pursued(Following(w, e, ttl), id)
  {
    var n := Following(w, e, ttl);
    AttemptsFollow(w, e, ttl);
    QueueFollows(w, e, ttl);
    if Sent(w.queue, id) {
      var k :| 0 <= k < |w.queue| && w.queue[k].dep == id && !w.queue[k].taken;
      assert n.queue[k] == w.queue[k];
    } else {
      var i :| 0 <= i < |w.attempts| && w.attempts[i].dep == id && Trying(w.attempts[i].pc);
      if Actor(e) != Some(i) {
        assert n.attempts[i] == w.attempts[i];
      } else {
        ActorGoesOn(w, e, ttl);
      }
    }
  }

  lemma ActorGoesOn(w: World, e: Event, ttl: nat)
    requires Possible(w, e) && Actor(e).Some? && Trying(w.attempts[Actor(e).value].pc)
    requires var n := Following(w, e, ttl); !Unbuilt(n.rows, w.attempts[Actor(e).value].dep)
    ensures Pursued(Following(w, e, ttl), w.attempts[Actor(e).value].dep)
  {
    var i, n := Actor(e).value, Following(w, e, ttl);
    ActorSettles(w, e, ttl);
    AttemptsFollow(w, e, ttl);
    if Trying(n.attempts[i].pc) {
      assert n.attempts[i].dep == w.attempts[i].dep;
    } else if e.Build? {
      assert n.queue[|n.queue| - 1] == Retry(w, w.attempts[i]);
    }
  }

  lemma OthersKeepPursued(w: World, e: Event, ttl: nat, id: Id)
    requires Possible(w, e) && Actor(e).None? && !e.Deliver?
    requires var n := Following(w, e, ttl); id in n.rows && !Unbuilt(n.rows, id) && (id in w.rows ==> Pursued(w, id))
    requires Sane(w)
    ensures Pursued(Following(w, e, ttl), id)
  {
    var n := Following(w, e, ttl);
    AttemptsFollow(w, e, ttl);
    QueueFollows(w, e, ttl);
    if id !in w.rows {
      EventIsLawful(w, e, ttl);
      assert n.queue[|n.queue| - 1].dep == id && !n.queue[|n.queue| - 1].taken;
    } else if Sent(w.queue, id) {
      var k :| 0 <= k < |w.queue| && w.queue[k].dep == id && !w.queue[k].taken;
      assert n.queue[k] == w.queue[k];
    } else {
      var i :| 0 <= i < |w.attempts| && w.attempts[i].dep == id && Trying(w.attempts[i].pc);
      assert n.attempts[i] == w.attempts[i];
    }
  }

  /** From a world in which every build is pursued, an event leaves it so if and only if it orphans none. */
  lemma EventKeepsPursuedIff(w: World, e: Event, ttl: nat)
    requires Possible(w, e) && Sane(w) && AllPursued(w)
    ensures AllPursued(Following(w, e, ttl)) <==> !Orphans(w, e)
  {
    var n := Following(w, e, ttl);
    if Orphans(w, e) {
      TurnedAwayIff(w, e.m, ttl);
      assert !Pursued(n, w.queue[e.m].dep);
    } else {
      forall id | id in n.rows && !Unbuilt(n.rows, id)
        ensures Pursued(n, id)
      {
        EventPursues(w, e, ttl, id);
      }
    }
  }

  lemma EventPursues(w: World, e: Event, ttl: nat, id: Id)
    requires Possible(w, e) && Sane(w) && AllPursued(w) && !Orphans(w, e)
    requires var n := Following(w, e, ttl); id in n.rows && !Unbuilt(n.rows, id)
    ensures Pursued(Following(w, e, ttl), id)
  {
    EventIsLawful(w, e, ttl);
    if id in w.rows && Unbuilt(w.rows, id) {
      UnbuiltStays(w, e, ttl, id);
    } else if Actor(e).Some? {
      ActorKeepsPursued(w, e, ttl, id);
    } else if e.Deliver? {
      DeliveryKeepsPursued(w, e.m, ttl, id);
    } else {
      OthersKeepPursued(w, e, ttl, id);
    }
  }

  lemma {:induction false} RunsAreTidy(trace: seq<Event>, ttl: nat)
    requires Play(trace, ttl).Some?
    ensures Tidy(Play(trace, ttl).value)
  {
    if trace != [] {
      RunsAreTidy(trace[..|trace| - 1], ttl);
      EventKeepsTidy(Play(trace[..|trace| - 1], ttl).value, trace[|trace| - 1], ttl);
    }
  }

  /** Every build is pursued in every state of the run. */
  ghost predicate AlwaysPursued(trace: seq<Event>, ttl: nat) {
    && Play(trace, ttl).Some? && AllPursued(Play(trace, ttl).value)
    && (trace != [] ==> AlwaysPursued(trace[..|trace| - 1], ttl))
  }

  ghost predicate NeverOrphans(trace: seq<Event>, ttl: nat)
    requires Play(trace, ttl).Some?
  {
    trace != [] ==>
      && NeverOrphans(trace[..|trace| - 1], ttl)
      && !Orphans(Play(trace[..|trace| - 1], ttl).value, trace[|trace| - 1])
  }

  /** Throughout a run every PENDING or BUILDING row has a message on its way or an attempt at work, if and only
      if no event of the run delivers a deployment's last message to a lock held by an attempt no longer at work. */
  lemma {:induction false} PursuedIff(trace: seq<Event>, ttl: nat)
    requires Play(trace, ttl).Some?
    ensures AlwaysPursued(trace, ttl) <==> NeverOrphans(trace, ttl)
  {
    if trace != [] {
      var before := trace[..|trace| - 1];
      PursuedIff(before, ttl);
      OneActivePerVersion(before, ttl);
      if AllPursued(Play(before, ttl).value) {
        EventKeepsPursuedIff(Play(before, ttl).value, trace[|trace| - 1], ttl);
      }
    }
  }

  lemma {:induction false} PromptRunsNeverOrphan(trace: seq<Event>, ttl: nat)
    requires PromptRun(trace, ttl)
    ensures NeverOrphans(trace, ttl)
  {
    if trace != [] {
      var before, e := trace[..|trace| - 1], trace[|trace| - 1];
      PromptRunsNeverOrphan(before, ttl);
      RunsAreTidy(before, ttl);
      AttemptsSettleTheirRow(before, ttl);
      if e.Deliver? {
        PromptNeverOrphans(Play(before, ttl).value, e.m);
      }
    }
  }

  /** No build is forgotten as long as each attempt to be retried releases its lock before the retry is due. */
  lemma NoBuildIsForgotten(trace: seq<Event>, ttl: nat)
    requires PromptRun(trace, ttl)
    ensures AllPursued(Play(trace, ttl).value)
  {
    PromptRunsNeverOrphan(trace, ttl);
    PursuedIff(trace, ttl);
  }

  /*** What an attempt reports. ***/

  /** An attempt that comes to report a running deployment has its row; the row is RUNNING exactly if it was not
      STOPPED before, and it can only have been STOPPED at the first transaction. */
  lemma RunningReport(w: World, e: Event, ttl: nat)
    requires Possible(w, e) && Actor(e).Some? && !w.attempts[Actor(e).value].pc.AtPeek?
    requires Following(w, e, ttl).attempts[Actor(e).value].pc == AtPeek(SaysRunning)
    ensures var (dep, n) := (w.attempts[Actor(e).value].dep, Following(w, e, ttl));
            && dep in w.rows && dep in n.rows
            && (n.rows[dep].status.RUNNING? <==> !w.rows[dep].status.STOPPED?)
            && (w.rows[dep].status.STOPPED? ==> e == ClaimBy(Actor(e).value) && n.rows[dep].status.STOPPED?)
  {
  }

  /** When the attempt read its row, the row was there and neither RUNNING nor STOPPED. */
  ghost predicate ReadAt(trace: seq<Event>, ttl: nat, j: nat, i: nat, dep: Id) {
    && j < |trace| && trace[j] == Fetch(i) && Play(trace[..j], ttl).Some?
    && var w := Play(trace[..j], ttl).value;
       && i < |w.attempts| && w.attempts[i].dep == dep
       && dep in w.rows && !w.rows[dep].status.RUNNING? && !w.rows[dep].status.STOPPED?
  }

  ghost predicate HasRead(trace: seq<Event>, ttl: nat, i: nat, dep: Id) {
    exists j: nat :: ReadAt(trace, ttl, j, i, dep)
  }

  lemma ReadStays(trace: seq<Event>, e: Event, ttl: nat, i: nat, dep: Id)
    requires HasRead(trace, ttl, i, dep)
    ensures HasRead(trace + [e], ttl, i, dep)
  {
    var j: nat :| ReadAt(trace, ttl, j, i, dep);
    assert (trace + [e])[..j] == trace[..j];
    assert ReadAt(trace + [e], ttl, j, i, dep);
  }

  lemma {:induction false} ClaimsComeAfterReads(trace: seq<Event>, ttl: nat, i: nat)
    requires Play(trace, ttl).Some? && i < |Play(trace, ttl).value.attempts|
    requires Play(trace, ttl).value.attempts[i].pc.AtClaim?
    ensures HasRead(trace, ttl, i, Play(trace, ttl).value.attempts[i].dep)
  {
    var before, e := trace[..|trace| - 1], trace[|trace| - 1];
    var w := Play(before, ttl).value;
    assert trace == before + [e];
    AttemptsFollow(w, e, ttl);
    if i < |w.attempts| && w.attempts[i].pc.AtClaim? {
      ClaimsComeAfterReads(before, ttl, i);
      ReadStays(before, e, ttl, i, w.attempts[i].dep);
    } else {
      assert e == Fetch(i);
      assert ReadAt(trace, ttl, |before|, i, w.attempts[i].dep);
    }
  }

  /** In every run, a report that a deployment is running is true when it is made, unless a stop committed after
      the attempt's own read of the row and before its first transaction. */
  lemma RunningReportsAreTrueIff(trace: seq<Event>, e: Event, ttl: nat)
    requires Play(trace, ttl).Some? && Possible(Play(trace, ttl).value, e) && Actor(e).Some?
    requires var w := Play(trace, ttl).value;
             && !w.attempts[Actor(e).value].pc.AtPeek?
             && Following(w, e, ttl).attempts[Actor(e).value].pc == AtPeek(SaysRunning)
    ensures var (i, w, n) := (Actor(e).value, Play(trace, ttl).value, Following(Play(trace, ttl).value, e, ttl));
            var dep := w.attempts[i].dep;
            && dep in w.rows && dep in n.rows
            && (n.rows[dep].status.RUNNING? <==> !w.rows[dep].status.STOPPED?)
            && (w.rows[dep].status.STOPPED? ==> e == ClaimBy(i) && HasRead(trace, ttl, i, dep))
  {
    var w := Play(trace, ttl).value;
    RunningReport(w, e, ttl);
    if w.rows[w.attempts[Actor(e).value].dep].status.STOPPED? {
      ClaimsComeAfterReads(trace, ttl, Actor(e).value);
    }
  }

  /*** Three runs. ***/

  lemma Append(trace: seq<Event>, e: Event, ttl: nat) returns (longer: seq<Event>)
    requires Play(trace, ttl).Some? && Possible(Play(trace, ttl).value, e)
    ensures Play(longer, ttl) == Some(Following(Play(trace, ttl).value, e, ttl))
  {
    longer := trace + [e];
    assert longer[..|trace|] == trace;
  }

  lemma FirstAttemptFetches(ttl: nat) returns (trace: seq<Event>)
    requires ttl > 0
    ensures Play(trace, ttl).Some?
    ensures var w := Play(trace, ttl).value;
            && w.now == 0 && 0 in w.rows && w.rows[0].status == PENDING && 0 in w.locks && w.locks[0] == Lock(0, ttl)
            && w.queue == [Message(0, 0, 0, 0, 0, true)] && w.attempts == [Attempt(0, 0, 0, 0, 0, AtClaim)]
  {
    trace := [];
    trace := Append(trace, Post(0, 0), ttl);
    trace := Append(trace, Deliver(0), ttl);
    trace := Append(trace, Fetch(0), ttl);
  }

  /** A stop that commits before the builder's first transaction is reported as a running deployment. */
  lemma StoppedRowReportedRunning(ttl: nat) returns (trace: seq<Event>)
    requires ttl > 0
    ensures Play(trace, ttl).Some?
    ensures var w := Play(trace, ttl).value;
            && w.now == 0 && 0 in w.rows && w.rows[0].status == STOPPED && 0 in w.locks && w.locks[0] == Lock(0, ttl)
            && w.queue == [Message(0, 0, 0, 0, 0, true)] && w.attempts == [Attempt(0, 0, 0, 0, 0, AtPeek(SaysRunning))]
  {
    trace := FirstAttemptFetches(ttl);
    trace := Append(trace, StopBy(0), ttl);
    trace := Append(trace, ClaimBy(0), ttl);
  }

  lemma StoppedAttemptPeeks(ttl: nat) returns (trace: seq<Event>)
    requires ttl > 0
    ensures Play(trace, ttl).Some?
    ensures var w := Play(trace, ttl).value;
            && w.now == 0 && 0 in w.locks && w.locks[0] == Lock(0, ttl)
            && w.queue == [Message(0, 0, 0, 0, 0, true)]
            && w.attempts == [Attempt(0, 0, 0, 0, 0, AtRelease(SaysRunning))]
  {
    trace := StoppedRowReportedRunning(ttl);
    trace := Append(trace, Peek(0), ttl);
  }

  /** The lock needs its timing: a release that starts late takes away the lock of the next attempt, and
      two attempts are inside at once. */
  lemma LateReleaseAdmitsTwo(ttl: nat) returns (trace: seq<Event>)
    requires ttl > 0
    ensures Play(trace, ttl).Some?
    ensures var w := Play(trace, ttl).value;
            && |w.attempts| == 3 && w.attempts[1].dep == w.attempts[2].dep
            && Inside(w.attempts[1].pc) && Inside(w.attempts[2].pc)
  {
    trace := StoppedAttemptPeeks(ttl);
    trace := Append(trace, Tick(ttl), ttl);
    trace := Append(trace, Deliver(0), ttl);
    trace := Append(trace, Release(0), ttl);
    trace := Append(trace, Deliver(0), ttl);
  }

  lemma FirstAttemptClaims(ttl: nat) returns (trace: seq<Event>)
    requires ttl > 0
    ensures Play(trace, ttl).Some?
    ensures var w := Play(trace, ttl).value;
            && w.now == 0 && 0 in w.rows && w.rows[0].status == BUILDING && 0 in w.locks && w.locks[0] == Lock(0, ttl)
            && w.queue == [Message(0, 0, 0, 0, 0, true)] && w.attempts == [Attempt(0, 0, 0, 0, 0, AtBuild)]
  {
    trace := FirstAttemptFetches(ttl);
    trace := Append(trace, ClaimBy(0), ttl);
  }

  lemma FirstAttemptRetries(ttl: nat) returns (trace: seq<Event>)
    requires ttl > 0
    ensures Play(trace, ttl).Some?
    ensures var w := Play(trace, ttl).value;
            && w.now == 0 && 0 in w.rows && w.rows[0].status == BUILDING && 0 in w.locks && w.locks[0] == Lock(0, ttl)
            && w.queue == [Message(0, 0, 0, 0, 0, true), Message(0, 1, 30, 0, 30, false)]
            && w.attempts == [Attempt(0, 0, 0, 0, 0, AtPeek(Retrying(30)))]
  {
    trace := FirstAttemptClaims(ttl);
    trace := Append(trace, Build(0, Retryable("RUNNER_WORKER_TIMEOUT")), ttl);
  }

  lemma RetryIsTurnedAway(ttl: nat) returns (trace: seq<Event>)
    requires ttl > 30
    ensures Play(trace, ttl).Some?
    ensures var w := Play(trace, ttl).value;
            && w.now == 30 && 0 in w.rows && w.rows[0].status == BUILDING && 0 in w.locks && w.locks[0] == Lock(0, ttl)
            && w.queue == [Message(0, 0, 0, 0, 0, true), Message(0, 1, 30, 0, 30, true)]
            && w.attempts == [Attempt(0, 0, 0, 0, 0, AtPeek(Retrying(30))), Attempt(0, 1, 0, 30, 30, Busy)]
  {
    trace := FirstAttemptRetries(ttl);
    trace := Append(trace, Tick(30), ttl);
    trace := Append(trace, Deliver(1), ttl);
  }

  /** And the retry needs it too: delivered while its predecessor still holds the lock, it is lost, and the
      row stays BUILDING with no message and no attempt to build it. */
  lemma EarlyRetryIsLost(ttl: nat) returns (trace: seq<Event>)
    requires ttl > 30
    ensures Play(trace, ttl).Some?
    ensures var w := Play(trace, ttl).value;
            && 0 in w.rows && w.rows[0].status == BUILDING && !Pursued(w, 0)
            && forall i :: 0 <= i < |w.attempts| ==> !Inside(w.attempts[i].pc)
  {
    trace := RetryIsTurnedAway(ttl);
    trace := Append(trace, Peek(0), ttl);
    trace := Append(trace, Release(0), ttl);
  }
}
