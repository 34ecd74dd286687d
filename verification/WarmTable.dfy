/** What every trace of complete requests, teardowns and child deaths keeps of the warm-runtime table:
    no child is lost track of, and the table is the recency list of a least-recently-used cache. */
module WarmTable {
  import opened Wrappers
  import opened WarmRuntimes

  datatype Op = Use(id: Id, luck: Luck) | Teardown(id: Id) | ClearAll | Dies(pid: nat)

  ghost function Apply(m: Manager, op: Op): Manager {
    match op
    case Use(id, luck) => Requested(m, id, luck).0
    case Teardown(id) => Dropped(m, id)
    case ClearAll => Cleared(m)
    case Dies(pid) => m.(host := Killed(m.host, Some(pid)))
  }

  ghost function Play(maxModels: int, trace: seq<Op>): Manager {
    if trace == [] then Manager(maxModels, map[], Host({}, 0, 0))
    else Apply(Play(maxModels, trace[..|trace| - 1]), trace[|trace| - 1])
  }

  /*** Process accounting. ***/

  /** One runtime object: spawns are bounded by restarts, and only a READY one has a live child. */
  predicate Fit(rt: Runtime, h: Host) {
    && rt.restarts <= MAX_RESTARTS && rt.spawned <= 1 + rt.restarts
    && (rt.proc.Some? ==> rt.proc.value < h.next)
    && (Alive(rt, h) ==> rt.state.READY?)
  }

  ghost predicate Owned(m: Manager, pid: nat) {
    exists id :: id in m.table && m.table[id].proc == Some(pid)
  }

  ghost predicate Accounted(m: Manager) {
    && PidsUsed(m.host.live, m.host.next)
    && (forall id :: id in m.table ==> Fit(m.table[id], m.host))
    && (forall pid :: pid in m.host.live ==> Owned(m, pid))
    && (forall a, b :: a in m.table && b in m.table && a != b && m.table[a].proc.Some? ==>
       m.table[a].proc != m.table[b].proc)
    && (m.table == map[] || |m.table| <= m.maxModels)
  }

  lemma DroppedKeepsAccounted(m: Manager, id: Id)
    requires Accounted(m)
    ensures Accounted(Dropped(m, id))
    ensures id in m.table ==> |Dropped(m, id).table| == |m.table| - 1
  {
    var n := Dropped(m, id);
    if id in m.table {
      assert n.table.Keys == m.table.Keys - {id};
      forall pid | pid in n.host.live
        ensures Owned(n, pid)
      {
        assert Owned(m, pid);
        var owner :| owner in m.table && m.table[owner].proc == Some(pid);
        assert owner in n.table;
      }
    }
  }

  lemma CreatedKeepsAccounted(m: Manager, id: Id, launch: Launch)
    requires Accounted(m) && id !in m.table && |m.table| < m.maxModels
    ensures Accounted(Created(m, id, launch).0)
  {
    var n := Created(m, id, launch).0;
    assert launch.ComesUp? ==> n.table.Keys == m.table.Keys + {id};
    forall pid | pid in n.host.live
      ensures Owned(n, pid)
    {
      if pid in m.host.live {
        assert Owned(m, pid);
        var owner :| owner in m.table && m.table[owner].proc == Some(pid);
        assert n.table[owner].proc == Some(pid);
      } else {
        assert n.table[id].proc == Some(pid);
      }
    }
  }

  lemma PredictedFits(rt: Runtime, h: Host, luck: Luck)
    requires Fit(rt, h) && PidsUsed(h.live, h.next)
    ensures var (r, n, ok) := Predicted(rt, h, luck);
            && Fit(r, n) && PidsUsed(n.live, n.next) && h.next <= n.next
            && (r.proc.Some? && r.proc != rt.proc ==> h.next <= r.proc.value)
            && (forall pid :: pid in n.live ==> r.proc == Some(pid) || (pid in h.live && rt.proc != Some(pid)))
            && (forall pid :: pid in h.live && rt.proc != Some(pid) ==> pid in n.live)
            && (!ok ==> !Alive(r, n))
  {
  }

  /** Replacing one runtime is accounted for when only its own child changes. */
  lemma ReplacedKeepsAccounted(m: Manager, id: Id, h: Host, r: Runtime, after: Host)
    requires Accounted(m) && id in m.table && h.live <= m.host.live && h.next == m.host.next <= after.next
    requires forall pid :: pid in m.host.live && m.table[id].proc != Some(pid) ==> pid in h.live
    requires Fit(r, after) && PidsUsed(after.live, after.next)
    requires r.proc.Some? && r.proc != m.table[id].proc ==> h.next <= r.proc.value
    requires forall pid :: pid in after.live ==> r.proc == Some(pid) || (pid in h.live && m.table[id].proc != Some(pid))
    requires forall pid :: pid in h.live && m.table[id].proc != Some(pid) ==> pid in after.live
    ensures Accounted(m.(table := m.table[id := r], host := after))
  {
    var n := m.(table := m.table[id := r], host := after);
    assert n.table.Keys == m.table.Keys;
    assert |n.table| == |n.table.Keys| == |m.table.Keys| == |m.table|;
    forall k | k in n.table
      ensures Fit(n.table[k], n.host)
    {
      assert Fit(m.table[k], m.host);
    }
    forall pid | pid in n.host.live
      ensures Owned(n, pid)
    {
      if r.proc == Some(pid) {
        assert n.table[id].proc == Some(pid);
      } else {
        assert Owned(m, pid);
        var owner :| owner in m.table && m.table[owner].proc == Some(pid);
        assert n.table[owner].proc == Some(pid);
      }
    }
  }

  lemma AnsweredKeepsAccounted(m: Manager, id: Id, luck: Luck)
    requires Accounted(m) && id in m.table
    ensures Accounted(Answered(m, id, luck).0)
    ensures !Answered(m, id, luck).1 ==> !Alive(Answered(m, id, luck).0.table[id], Answered(m, id, luck).0.host)
  {
    var rt := m.table[id];
    var h := if luck.diesBeforePredict then Killed(m.host, rt.proc) else m.host;
    assert Fit(rt, m.host);
    PredictedFits(rt, h, luck);
    var (r, after, _) := Predicted(rt, h, luck);
    ReplacedKeepsAccounted(m, id, h, r, after);
  }

  lemma ObtainedKeepsAccounted(m: Manager, id: Id, launch: Launch)
    requires Accounted(m)
    ensures Accounted(Obtained(m, id, launch).0)
  {
    var rest := Dropped(m, id);
    if id in m.table && Healthy(m.table[id], m.host) {
    } else {
      DroppedKeepsAccounted(m, id);
      if !(|rest.table| == 0 && rest.maxModels <= 0) {
        if |rest.table| >= rest.maxModels && |rest.table| > 0 {
          DroppedKeepsAccounted(rest, Lru(rest.table));
        }
        CreatedKeepsAccounted(Roomy(rest), id, launch);
      }
    }
  }

  lemma ApplyKeepsAccounted(m: Manager, op: Op)
    requires Accounted(m)
    ensures Accounted(Apply(m, op))
  {
    match op
    case Use(id, luck) =>
      ObtainedKeepsAccounted(m, id, luck.start);
      var (n, ok) := Obtained(m, id, luck.start);
      if ok && id in n.table {
        AnsweredKeepsAccounted(n, id, luck);
      }
    case Teardown(id) => DroppedKeepsAccounted(m, id);
    case ClearAll =>
      assert m.table - {} == m.table;
      forall pid | pid in m.host.live
        ensures pid in Procs(m.table)
      {
        assert Owned(m, pid);
      }
    case Dies(pid) =>
      var n := Apply(m, op);
      forall p | p in n.host.live
        ensures Owned(n, p)
      {
        assert Owned(m, p);
      }
  }

  /** Process accounting, over every trace: the table never exceeds its capacity; every live child
      belongs to exactly one resident runtime, and that one is READY; each runtime object has spawned at
      most four children; and a request that fails leaves no live child of its model. */
  lemma {:induction false} ChildrenAreAccountedFor(maxModels: int, trace: seq<Op>)
    ensures var m := Play(maxModels, trace);
            && Accounted(m)
            && (forall pid :: pid in m.host.live ==>
                  exists id :: id in m.table && m.table[id].proc == Some(pid) && m.table[id].state.READY?)
            && (forall id :: id in m.table ==> m.table[id].spawned <= 4)
  {
    if trace == [] {
      assert Play(maxModels, trace).table == map[];
    } else {
      ChildrenAreAccountedFor(maxModels, trace[..|trace| - 1]);
      ApplyKeepsAccounted(Play(maxModels, trace[..|trace| - 1]), trace[|trace| - 1]);
    }
    var m := Play(maxModels, trace);
    forall pid | pid in m.host.live
      ensures exists id :: id in m.table && m.table[id].proc == Some(pid) && m.table[id].state.READY?
    {
      assert Owned(m, pid);
      var id :| id in m.table && m.table[id].proc == Some(pid);
      assert Fit(m.table[id], m.host);
    }
  }

  lemma FailureSpawnsNothing(m: Manager, id: Id, luck: Luck)
    requires !Requested(m, id, luck).1
    ensures Requested(m, id, luck).0.host.live <= m.host.live
  {
    var rest := Dropped(m, id);
    if id in m.table && Healthy(m.table[id], m.host) {
      FailedPredictSpawnsNothing(m, id, luck);
    } else if luck.start.ComesUp? && !(|rest.table| == 0 && rest.maxModels <= 0) {
      var n := Created(Roomy(rest), id, luck.start).0;
      FailedPredictOnNewSpawnsNothing(Roomy(rest), id, luck);
    }
  }

  lemma FailedPredictSpawnsNothing(m: Manager, id: Id, luck: Luck)
    requires id in m.table && !Answered(m, id, luck).1
    ensures Answered(m, id, luck).0.host.live <= m.host.live
  {
  }

  /** A runtime just created whose first prediction fails leaves its own child dead, and any it restarted. */
  lemma FailedPredictOnNewSpawnsNothing(m: Manager, id: Id, luck: Luck)
    requires luck.start.ComesUp? && !Answered(Created(m, id, luck.start).0, id, luck).1
    ensures Answered(Created(m, id, luck.start).0, id, luck).0.host.live <= m.host.live
  {
    var n := Created(m, id, luck.start).0;
    assert n.host.live == m.host.live + {m.host.next} && n.table[id].proc == Some(m.host.next);
    FailedPredictStops(n.table[id], if luck.diesBeforePredict then Killed(n.host, n.table[id].proc) else n.host, luck);
  }

  lemma FailedPredictStops(rt: Runtime, h: Host, luck: Luck)
    requires rt.proc.Some? && rt.restarts < MAX_RESTARTS && !Predicted(rt, h, luck).2
    ensures Predicted(rt, h, luck).1.live <= h.live - {rt.proc.value}
  {
  }

  /** After every trace, a request that fails leaves no child of its model: whoever is alive was alive before,
      and belongs to another model. */
  lemma FailedRequestLeavesNoChild(maxModels: int, trace: seq<Op>, id: Id, luck: Luck)
    requires !Requested(Play(maxModels, trace), id, luck).1
    ensures var (m, n) := (Play(maxModels, trace), Requested(Play(maxModels, trace), id, luck).0);
            && n.host.live <= m.host.live
            && (id in n.table ==> !Alive(n.table[id], n.host))
            && (forall pid :: pid in n.host.live ==>
                  exists other :: other != id && other in n.table && n.table[other].proc == Some(pid))
  {
    var m := Play(maxModels, trace);
    ChildrenAreAccountedFor(maxModels, trace);
    FailureSpawnsNothing(m, id, luck);
    ApplyKeepsAccounted(m, Use(id, luck));
    var n := Requested(m, id, luck).0;
    FailedRequestStops(m, id, luck);
    forall pid | pid in n.host.live
      ensures exists other :: other != id && other in n.table && n.table[other].proc == Some(pid)
    {
      assert Owned(n, pid);
    }
  }

  lemma FailedRequestStops(m: Manager, id: Id, luck: Luck)
    requires Accounted(m) && !Requested(m, id, luck).1
    ensures var n := Requested(m, id, luck).0; id in n.table ==> !Alive(n.table[id], n.host)
  {
    ObtainedKeepsAccounted(m, id, luck.start);
    var (n, ok) := Obtained(m, id, luck.start);
    if ok && id in n.table {
      AnsweredKeepsAccounted(n, id, luck);
    }
  }

  lemma {:induction false} CapacityIsKept(maxModels: int, trace: seq<Op>)
    ensures Play(maxModels, trace).maxModels == maxModels
  {
    if trace != [] {
      CapacityIsKept(maxModels, trace[..|trace| - 1]);
      var op := trace[|trace| - 1];
      if op.Use? {
        CapacityStays(Play(maxModels, trace[..|trace| - 1]), op.id, op.luck);
      }
    }
  }

  lemma AnsweredIff(m: Manager, id: Id, luck: Luck)
    requires Accounted(m) && id in m.table && Healthy(m.table[id], m.host)
    ensures Answered(m, id, luck).1 <==>
            luck.exchange && (luck.diesBeforePredict ==> luck.restart.ComesUp? && m.table[id].restarts < MAX_RESTARTS)
    ensures Answered(m, id, luck).1 ==>
              var n := Answered(m, id, luck).0; id in n.table && Healthy(n.table[id], n.host)
  {
    PredictedIff(m.table[id], if luck.diesBeforePredict then Killed(m.host, m.table[id].proc) else m.host, luck);
  }

  lemma CreatedIff(m: Manager, id: Id, launch: Launch)
    ensures Created(m, id, launch).1 <==> launch.ComesUp?
    ensures launch.ComesUp? ==>
              var n := Created(m, id, launch).0;
              id in n.table && Healthy(n.table[id], n.host) && n.table[id].restarts == 0
  {
  }

  lemma ObtainedIff(m: Manager, id: Id, launch: Launch)
    requires Accounted(m)
    ensures var (n, ok) := Obtained(m, id, launch);
            && (ok <==> m.maxModels > 0 && (launch.ComesUp? || (id in m.table && Healthy(m.table[id], m.host))))
            && (ok ==> id in n.table && Healthy(n.table[id], n.host)
                       && n.table[id].restarts
                          == if id in m.table && Healthy(m.table[id], m.host) then m.table[id].restarts else 0)
  {
    var rest := Dropped(m, id);
    DroppedKeepsAccounted(m, id);
    if !(id in m.table && Healthy(m.table[id], m.host)) && rest.maxModels > 0 {
      CreatedIff(Roomy(rest), id, launch);
    }
  }

  /** After every trace, a request is served if and only if there is room for a model at all, its model is resident and
      healthy or can be started, a child that dies under it can be restarted, and the exchange goes well. A model that
      was served is resident and healthy. */
  lemma RequestServedIff(maxModels: int, trace: seq<Op>, id: Id, luck: Luck)
    ensures var m := Play(maxModels, trace);
            var hit := id in m.table && Healthy(m.table[id], m.host);
            Requested(m, id, luck).1 <==>
            && maxModels > 0 && luck.exchange && (hit || luck.start.ComesUp?)
            && (luck.diesBeforePredict ==>
                  luck.restart.ComesUp? && (hit ==> m.table[id].restarts < 3))
    ensures Requested(Play(maxModels, trace), id, luck).1 ==>
              var n := Requested(Play(maxModels, trace), id, luck).0; id in n.table && Healthy(n.table[id], n.host)
  {
    var m := Play(maxModels, trace);
    CapacityIsKept(maxModels, trace);
    ChildrenAreAccountedFor(maxModels, trace);
    ObtainedIff(m, id, luck.start);
    ObtainedKeepsAccounted(m, id, luck.start);
    if Obtained(m, id, luck.start).1 {
      AnsweredIff(Obtained(m, id, luck.start).0, id, luck);
    }
  }

  /** A child that dies is noticed: its model is no longer healthy, and the next request that is served has another. */
  lemma DeadChildIsReplaced(maxModels: int, trace: seq<Op>, id: Id, pid: nat, luck: Luck)
    requires id in Play(maxModels, trace).table && Play(maxModels, trace).table[id].proc == Some(pid)
    ensures var m := Play(maxModels, trace + [Dies(pid)]);
            var n := Requested(m, id, luck).0;
            && m.table == Play(maxModels, trace).table && pid !in m.host.live && !Healthy(m.table[id], m.host)
            && pid !in n.host.live
            && (Requested(m, id, luck).1 ==> id in n.table && Healthy(n.table[id], n.host))
  {
    assert (trace + [Dies(pid)])[..|trace|] == trace;
    var m := Play(maxModels, trace + [Dies(pid)]);
    ChildrenAreAccountedFor(maxModels, trace);
    ChildrenAreAccountedFor(maxModels, trace + [Dies(pid)]);
    RequestServedIff(maxModels, trace + [Dies(pid)], id, luck);
    OldPidsStayDead(m, id, luck, pid);
  }

  /** The host has gone on: no pid that was handed out and is dead has come alive. */
  predicate NoneRevived(h: Host, n: Host) {
    h.next <= n.next && forall pid :: pid in n.live && pid < h.next ==> pid in h.live
  }

  lemma RoomyRevivesNone(m: Manager, id: Id)
    ensures NoneRevived(m.host, Roomy(Dropped(m, id)).host)
  {
  }

  lemma CreatedRevivesNone(m: Manager, id: Id, launch: Launch)
    ensures NoneRevived(m.host, Created(m, id, launch).0.host)
  {
  }

  lemma ObtainedRevivesNone(m: Manager, id: Id, launch: Launch)
    ensures NoneRevived(m.host, Obtained(m, id, launch).0.host)
  {
    RoomyRevivesNone(m, id);
    CreatedRevivesNone(Roomy(Dropped(m, id)), id, launch);
  }

  lemma OldPidsStayDead(m: Manager, id: Id, luck: Luck, pid: nat)
    requires Accounted(m) && pid < m.host.next && pid !in m.host.live
    ensures pid !in Requested(m, id, luck).0.host.live
  {
    ObtainedRevivesNone(m, id, luck.start);
    ObtainedKeepsAccounted(m, id, luck.start);
    var (n, ok) := Obtained(m, id, luck.start);
    if ok && id in n.table {
      PredictedIff(n.table[id], if luck.diesBeforePredict then Killed(n.host, n.table[id].proc) else n.host, luck);
    }
  }

  /*** The recency list. ***/

  function Without(l: seq<Id>, id: Id): (r: seq<Id>)
    ensures |r| <= |l|
  {
    if l == [] then []
    else if l[0] == id then Without(l[1..], id)
    else [l[0]] + Without(l[1..], id)
  }

  function Take(l: seq<Id>, n: nat): (r: seq<Id>)
    ensures |r| <= n
  {
    if |l| <= n then l else l[..n]
  }

  /** Most recent first: a use moves to the front and the end falls off; deaths do not matter. */
  function Recency(trace: seq<Op>, cap: nat): (l: seq<Id>)
    ensures |l| <= cap
  {
    if trace == [] then []
    else
      var l := Recency(trace[..|trace| - 1], cap);
      match trace[|trace| - 1]
      case Use(id, _) => Take([id] + Without(l, id), cap)
      case Teardown(id) => Without(l, id)
      case ClearAll => []
      case Dies(_) => l
  }

  /** Each id of the list was used more recently than those after it; so no id occurs twice. */
  predicate Newest(table: map<Id, Runtime>, l: seq<Id>) {
    l != [] ==>
      && l[0] in table
      && (forall x :: x in l[1..] ==> x in table && table[x].lastUsed < table[l[0]].lastUsed)
      && Newest(table, l[1..])
  }

  function Ids(l: seq<Id>): set<Id> {
    set id | id in l
  }

  /** The table holds exactly the ids of the list, and was last used in its order. */
  ghost predicate Tracks(m: Manager, l: seq<Id>) {
    && Newest(m.table, l)
    && m.table.Keys == Ids(l)
    && (forall id :: id in m.table ==> m.table[id].lastUsed < m.host.clock)
  }

  lemma {:induction false} WithoutIsFilter(l: seq<Id>, id: Id)
    ensures forall x :: x in Without(l, id) <==> x in l && x != id
    ensures id !in l ==> Without(l, id) == l
  {
    if l != [] {
      WithoutIsFilter(l[1..], id);
    }
  }

  lemma {:induction false} NewestWithout(table: map<Id, Runtime>, l: seq<Id>, id: Id)
    requires Newest(table, l)
    ensures Newest(table, Without(l, id))
    ensures id in l ==> |Without(l, id)| == |l| - 1
  {
    if l != [] {
      NewestWithout(table, l[1..], id);
      WithoutIsFilter(l[1..], id);
      assert Without(l, id) != [] && l[0] != id ==> Without(l, id)[1..] == Without(l[1..], id);
    }
  }

  lemma {:induction false} NewestFrame(table: map<Id, Runtime>, other: map<Id, Runtime>, l: seq<Id>)
    requires Newest(table, l)
    requires forall x :: x in l ==> x in other && x in table && other[x].lastUsed == table[x].lastUsed
    ensures Newest(other, l)
  {
    if l != [] {
      NewestFrame(table, other, l[1..]);
    }
  }

  lemma {:induction false} NewestEnd(table: map<Id, Runtime>, l: seq<Id>)
    requires Newest(table, l) && l != []
    ensures l[|l| - 1] in table
    ensures forall x :: x in l && x != l[|l| - 1] ==> x in table && table[x].lastUsed > table[l[|l| - 1]].lastUsed
    ensures Without(l, l[|l| - 1]) == l[..|l| - 1]
  {
    var last := l[|l| - 1];
    if |l| == 1 {
    } else {
      NewestEnd(table, l[1..]);
      assert l[1..][|l| - 2] == last && last in l[1..];
      assert l[..|l| - 1] == [l[0]] + l[1..][..|l| - 2];
    }
  }

  lemma {:induction false} NewestCount(table: map<Id, Runtime>, l: seq<Id>)
    requires Newest(table, l)
    ensures |Ids(l)| == |l|
  {
    if l != [] {
      NewestCount(table, l[1..]);
      assert l[0] !in l[1..] && Ids(l) == {l[0]} + Ids(l[1..]);
    }
  }

  lemma TrackedSize(m: Manager, l: seq<Id>)
    requires Tracks(m, l)
    ensures |m.table| == |l|
  {
    NewestCount(m.table, l);
    assert |m.table| == |m.table.Keys|;
  }

  lemma DroppedTracks(m: Manager, l: seq<Id>, id: Id)
    requires Tracks(m, l)
    ensures Tracks(Dropped(m, id), Without(l, id))
  {
    WithoutIsFilter(l, id);
    NewestWithout(m.table, l, id);
    NewestFrame(m.table, Dropped(m, id).table, Without(l, id));
  }

  /** The eviction victim is the end of the list. */
  lemma LruIsLast(m: Manager, l: seq<Id>)
    requires Tracks(m, l) && |m.table| > 0
    ensures l != [] && Lru(m.table) == l[|l| - 1] && Without(l, Lru(m.table)) == l[..|l| - 1]
  {
    TrackedSize(m, l);
    NewestEnd(m.table, l);
    var last, lru := l[|l| - 1], Lru(m.table);
    assert lru in m.table.Keys && last in m.table.Keys;
    assert m.table[lru].lastUsed <= m.table[last].lastUsed;
  }

  /** A runtime used now goes to the front. */
  lemma FrontTracks(m: Manager, l: seq<Id>, id: Id, rt: Runtime, h: Host)
    requires Tracks(m, l) && m.host.clock <= rt.lastUsed < h.clock
    ensures Tracks(m.(table := m.table[id := rt], host := h), [id] + Without(l, id))
  {
    WithoutIsFilter(l, id);
    NewestFront(m.table, l, id, rt, m.host.clock);
    assert Ids([id] + Without(l, id)) == Ids(l) + {id} == m.table[id := rt].Keys;
  }

  lemma NewestFront(table: map<Id, Runtime>, l: seq<Id>, id: Id, rt: Runtime, now: nat)
    requires Newest(table, l) && table.Keys == Ids(l)
    requires (forall x :: x in table ==> table[x].lastUsed < now) && now <= rt.lastUsed
    ensures Newest(table[id := rt], [id] + Without(l, id))
  {
    var w, n := Without(l, id), table[id := rt];
    WithoutIsFilter(l, id);
    NewestWithout(table, l, id);
    forall x | x in w
      ensures x in table && x in n && n[x] == table[x]
    {
      assert x in Ids(l);
    }
    NewestFrame(table, n, w);
    assert ([id] + w)[1..] == w;
  }

  lemma HitTracks(m: Manager, l: seq<Id>, id: Id, luck: Luck)
    requires Tracks(m, l) && |l| <= m.maxModels && id in m.table && Healthy(m.table[id], m.host)
    ensures Tracks(Requested(m, id, luck).0, Take([id] + Without(l, id), m.maxModels))
  {
    AnsweredTracks(m, l, id, luck);
  }

  lemma MissTracks(m: Manager, l: seq<Id>, id: Id, luck: Luck)
    requires Tracks(m, l) && 0 < m.maxModels && |l| <= m.maxModels && luck.start.ComesUp?
    requires !(id in m.table && Healthy(m.table[id], m.host))
    ensures Tracks(Requested(m, id, luck).0, Take([id] + Without(l, id), m.maxModels))
  {
    var n := MissIsAnswered(m, l, id, luck);
    MissAnswers(n, Without(l, id), id, luck, m.maxModels);
  }

  lemma MissIsAnswered(m: Manager, l: seq<Id>, id: Id, luck: Luck) returns (n: Manager)
    requires Tracks(m, l) && 0 < m.maxModels && |l| <= m.maxModels && luck.start.ComesUp?
    requires !(id in m.table && Healthy(m.table[id], m.host))
    ensures id !in Without(l, id) && id in n.table && Tracks(n, [id] + Take(Without(l, id), m.maxModels - 1))
    ensures Requested(m, id, luck).0 == Answered(n, id, luck).0
  {
    n := Obtained(m, id, luck.start).0;
    WithoutIsFilter(l, id);
    MissObtains(m, l, id, luck);
    MissCreates(m, id, luck);
  }

  lemma MissAnswers(m: Manager, w: seq<Id>, id: Id, luck: Luck, cap: nat)
    requires 0 < cap && id !in w && id in m.table && Tracks(m, [id] + Take(w, cap - 1))
    ensures Tracks(Answered(m, id, luck).0, Take([id] + w, cap))
  {
    AnsweredTracks(m, [id] + Take(w, cap - 1), id, luck);
    FrontOfTake(id, w, cap);
  }

  lemma MissObtains(m: Manager, l: seq<Id>, id: Id, luck: Luck)
    requires Tracks(m, l) && 0 < m.maxModels && |l| <= m.maxModels && luck.start.ComesUp?
    requires !(id in m.table && Healthy(m.table[id], m.host))
    ensures Tracks(Obtained(m, id, luck.start).0, [id] + Take(Without(l, id), m.maxModels - 1))
    ensures id in Obtained(m, id, luck.start).0.table
  {
    var rest, w := Dropped(m, id), Without(l, id);
    WithoutIsFilter(l, id);
    DroppedTracks(m, l, id);
    RoomyTracks(rest, w);
    CreatedTracks(Roomy(rest), Take(w, m.maxModels - 1), id, luck.start);
    MissCreates(m, id, luck);
  }

  lemma MissCreates(m: Manager, id: Id, luck: Luck)
    requires 0 < m.maxModels && luck.start.ComesUp? && !(id in m.table && Healthy(m.table[id], m.host))
    ensures Obtained(m, id, luck.start) == Created(Roomy(Dropped(m, id)), id, luck.start)
    ensures id in Created(Roomy(Dropped(m, id)), id, luck.start).0.table
    ensures Requested(m, id, luck) == Answered(Created(Roomy(Dropped(m, id)), id, luck.start).0, id, luck)
  {
  }

  lemma RoomyTracks(m: Manager, l: seq<Id>)
    requires Tracks(m, l) && 0 < m.maxModels && |l| <= m.maxModels
    ensures Tracks(Roomy(m), Take(l, m.maxModels - 1))
  {
    TrackedSize(m, l);
    if |l| == m.maxModels {
      LruIsLast(m, l);
      DroppedTracks(m, l, Lru(m.table));
    }
  }

  lemma FrontOfTake(id: Id, w: seq<Id>, cap: nat)
    requires id !in w && 0 < cap
    ensures [id] + Without([id] + Take(w, cap - 1), id) == Take([id] + w, cap)
  {
    var kept := Take(w, cap - 1);
    assert ([id] + kept)[1..] == kept;
    WithoutIsFilter(kept, id);
  }

  lemma CreatedTracks(m: Manager, l: seq<Id>, id: Id, launch: Launch)
    requires Tracks(m, l) && id !in l && launch.ComesUp?
    ensures Tracks(Created(m, id, launch).0, [id] + l) && id in Created(m, id, launch).0.table
  {
    var n := Created(m, id, launch).0;
    WithoutIsFilter(l, id);
    FrontTracks(m, l, id, n.table[id], n.host);
  }

  lemma AnsweredTracks(m: Manager, l: seq<Id>, id: Id, luck: Luck)
    requires Tracks(m, l) && id in m.table
    ensures Tracks(Answered(m, id, luck).0, [id] + Without(l, id))
    ensures |[id] + Without(l, id)| == |l|
  {
    var h := if luck.diesBeforePredict then Killed(m.host, m.table[id].proc) else m.host;
    var (rt, after, _) := Predicted(m.table[id], h, luck);
    PredictedStamp(m.table[id], h, luck);
    FrontTracks(m, l, id, rt, after);
    NewestWithout(m.table, l, id);
    assert id in m.table.Keys;
  }

  /** What an operation does to the list when starts may fail: a request that needs a start and does not get it
      leaves its model out, and has evicted the end of a full list all the same. */
  ghost function NextList(m: Manager, l: seq<Id>, op: Op, cap: nat): seq<Id>
    requires cap > 0
  {
    match op
    case Use(id, luck) =>
      if luck.start.ComesUp? || (id in m.table && Healthy(m.table[id], m.host)) then Take([id] + Without(l, id), cap)
      else Take(Without(l, id), cap - 1)
    case Teardown(id) => Without(l, id)
    case ClearAll => []
    case Dies(_) => l
  }

  ghost function Listed(maxModels: nat, trace: seq<Op>): seq<Id>
    requires maxModels > 0
  {
    if trace == [] then []
    else
      var before := trace[..|trace| - 1];
      NextList(Play(maxModels, before), Listed(maxModels, before), trace[|trace| - 1], maxModels)
  }

  lemma FailedStartTracks(m: Manager, l: seq<Id>, id: Id, luck: Luck)
    requires Tracks(m, l) && 0 < m.maxModels && |l| <= m.maxModels && !luck.start.ComesUp?
    requires !(id in m.table && Healthy(m.table[id], m.host))
    ensures Tracks(Requested(m, id, luck).0, Take(Without(l, id), m.maxModels - 1))
  {
    var rest, w := Dropped(m, id), Without(l, id);
    DroppedTracks(m, l, id);
    RoomyTracks(rest, w);
    var n := FailedStartKeepsTable(m, id, luck);
    LaterTracks(Roomy(rest), n, Take(w, m.maxModels - 1));
  }

  lemma FailedStartKeepsTable(m: Manager, id: Id, luck: Luck) returns (n: Manager)
    requires 0 < m.maxModels && !luck.start.ComesUp? && !(id in m.table && Healthy(m.table[id], m.host))
    ensures n == Requested(m, id, luck).0 && n.maxModels == m.maxModels
    ensures n.table == Roomy(Dropped(m, id)).table && Roomy(Dropped(m, id)).host.clock <= n.host.clock
  {
    n := Requested(m, id, luck).0;
  }

  lemma LaterTracks(m: Manager, n: Manager, l: seq<Id>)
    requires Tracks(m, l) && n.table == m.table && m.host.clock <= n.host.clock
    ensures Tracks(n, l)
  {
  }

  /** LRU refinement: over every trace, the resident ids are exactly the recency list, and in its order. */
  lemma {:induction false} TableIsRecencyList(maxModels: nat, trace: seq<Op>)
    requires maxModels > 0
    ensures Tracks(Play(maxModels, trace), Listed(maxModels, trace))
    ensures Play(maxModels, trace).maxModels == maxModels && |Listed(maxModels, trace)| <= maxModels
  {
    if trace != [] {
      var before, op := trace[..|trace| - 1], trace[|trace| - 1];
      TableIsRecencyList(maxModels, before);
      var m, l := Play(maxModels, before), Listed(maxModels, before);
      OpTracks(m, l, op);
    }
  }

  lemma OpTracks(m: Manager, l: seq<Id>, op: Op)
    requires Tracks(m, l) && 0 < m.maxModels && |l| <= m.maxModels
    ensures Apply(m, op).maxModels == m.maxModels
    ensures Tracks(Apply(m, op), NextList(m, l, op, m.maxModels)) && |NextList(m, l, op, m.maxModels)| <= m.maxModels
  {
    match op
    case Use(id, luck) =>
      CapacityStays(m, id, luck);
      if id in m.table && Healthy(m.table[id], m.host) {
        HitTracks(m, l, id, luck);
      } else if luck.start.ComesUp? {
        MissTracks(m, l, id, luck);
      } else {
        FailedStartTracks(m, l, id, luck);
      }
    case Teardown(id) => DroppedTracks(m, l, id);
    case ClearAll =>
    case Dies(_) =>
  }

  lemma CapacityStays(m: Manager, id: Id, luck: Luck)
    ensures Requested(m, id, luck).0.maxModels == m.maxModels
  {
  }

  /** Where every start succeeds, the list depends on the trace alone. */
  lemma {:induction false} ListedIsRecency(maxModels: nat, trace: seq<Op>)
    requires maxModels > 0
    requires forall i :: 0 <= i < |trace| && trace[i].Use? ==> trace[i].luck.start.ComesUp?
    ensures Listed(maxModels, trace) == Recency(trace, maxModels)
  {
    if trace != [] {
      ListedIsRecency(maxModels, trace[..|trace| - 1]);
    }
  }

  lemma {:induction false} RecencyGrowsWithCapacity(trace: seq<Op>, cap: nat)
    ensures Recency(trace, cap) <= Recency(trace, cap + 1)
  {
    if trace != [] {
      RecencyGrowsWithCapacity(trace[..|trace| - 1], cap);
      var a, b := Recency(trace[..|trace| - 1], cap), Recency(trace[..|trace| - 1], cap + 1);
      var op := trace[|trace| - 1];
      if op.Use? || op.Teardown? {
        WithoutKeepsPrefix(a, b, op.id);
      }
    }
  }

  lemma {:induction false} WithoutKeepsPrefix(a: seq<Id>, b: seq<Id>, id: Id)
    requires a <= b
    ensures Without(a, id) <= Without(b, id)
  {
    if a != [] {
      WithoutKeepsPrefix(a[1..], b[1..], id);
    }
  }

  /** Inclusion: where every start succeeds, a table of capacity k is contained in one of capacity k + 1. */
  lemma MoreCapacityKeepsMore(maxModels: nat, trace: seq<Op>, id: Id)
    requires maxModels > 0
    requires forall i :: 0 <= i < |trace| && trace[i].Use? ==> trace[i].luck.start.ComesUp?
    requires id in Play(maxModels, trace).table
    ensures id in Play(maxModels + 1, trace).table
  {
    TableIsRecencyList(maxModels, trace);
    TableIsRecencyList(maxModels + 1, trace);
    ListedIsRecency(maxModels, trace);
    ListedIsRecency(maxModels + 1, trace);
    RecencyGrowsWithCapacity(trace, maxModels);
  }

  /*** Inclusion fails with failing starts. ***/

  ghost predicate AllHealthy(m: Manager) {
    forall id :: id in m.table ==> Healthy(m.table[id], m.host)
  }

  /** A request whose child does not die and answers; only its start may fail. */
  function Try(id: Id, start: Launch): Op {
    Use(id, Luck(start, false, ComesUp, true))
  }

  lemma DroppedStaysHealthy(m: Manager, id: Id)
    requires Accounted(m) && AllHealthy(m)
    ensures AllHealthy(Dropped(m, id))
  {
  }

  lemma ObtainedStaysHealthy(m: Manager, id: Id, start: Launch)
    requires Accounted(m) && AllHealthy(m)
    ensures AllHealthy(Obtained(m, id, start).0)
  {
    var rest := Dropped(m, id);
    DroppedKeepsAccounted(m, id);
    DroppedStaysHealthy(m, id);
    if |rest.table| > 0 {
      DroppedStaysHealthy(rest, Lru(rest.table));
    }
  }

  lemma TryStaysHealthy(m: Manager, id: Id, start: Launch)
    requires Accounted(m) && AllHealthy(m)
    ensures AllHealthy(Apply(m, Try(id, start)))
  {
    ObtainedStaysHealthy(m, id, start);
  }

  /** The list after a request, when all residents are healthy. */
  function Tried(l: seq<Id>, id: Id, start: Launch, cap: nat): seq<Id>
    requires cap > 0
  {
    if start.ComesUp? || id in l then Take([id] + Without(l, id), cap) else Take(Without(l, id), cap - 1)
  }

  lemma TryOne(cap: nat, trace: seq<Op>, l: seq<Id>, id: Id, start: Launch) returns (longer: seq<Op>)
    requires cap > 0 && Listed(cap, trace) == l && AllHealthy(Play(cap, trace))
    ensures longer == trace + [Try(id, start)]
    ensures Listed(cap, longer) == Tried(l, id, start, cap) && AllHealthy(Play(cap, longer))
  {
    longer := trace + [Try(id, start)];
    assert longer[..|trace|] == trace;
    ChildrenAreAccountedFor(cap, trace);
    TableIsRecencyList(cap, trace);
    TryStaysHealthy(Play(cap, trace), id, start);
    assert id in Play(cap, trace).table <==> id in Ids(l);
  }

  lemma SmallList()
    ensures Tried([], 0, ComesUp, 2) == [0] && Tried([0], 1, ComesUp, 2) == [1, 0]
    ensures Tried([1, 0], 2, ComesUp, 2) == [2, 1] && Tried([2, 1], 0, CannotSpawn, 2) == [2]
    ensures Tried([2], 1, CannotSpawn, 2) == [2] && Tried([2], 3, ComesUp, 2) == [3, 2]
  {
    WithoutIsFilter([0], 1);
    WithoutIsFilter([1, 0], 2);
    WithoutIsFilter([2, 1], 0);
    WithoutIsFilter([2], 1);
    WithoutIsFilter([2], 3);
  }

  lemma LargeList()
    ensures Tried([], 0, ComesUp, 3) == [0] && Tried([0], 1, ComesUp, 3) == [1, 0]
    ensures Tried([1, 0], 2, ComesUp, 3) == [2, 1, 0] && Tried([2, 1, 0], 0, CannotSpawn, 3) == [0, 2, 1]
    ensures Tried([0, 2, 1], 1, CannotSpawn, 3) == [1, 0, 2] && Tried([1, 0, 2], 3, ComesUp, 3) == [3, 1, 0]
  {
    WithoutIsFilter([0], 1);
    WithoutIsFilter([1, 0], 2);
    assert Without([2, 1, 0], 0) == [2, 1] by {
      assert [2, 1, 0][1..] == [1, 0] && [1, 0][1..] == [0];
    }
    assert Without([0, 2, 1], 1) == [0, 2] by {
      assert [0, 2, 1][1..] == [2, 1] && [2, 1][1..] == [1];
    }
    WithoutIsFilter([1, 0, 2], 3);
  }

  const FILLING: seq<Op> := [] + [Try(0, ComesUp)] + [Try(1, ComesUp)] + [Try(2, ComesUp)]
  const OVERTAKING: seq<Op> := FILLING + [Try(0, CannotSpawn)] + [Try(1, CannotSpawn)] + [Try(3, ComesUp)]

  lemma Tries(cap: nat) returns (trace: seq<Op>)
    requires cap == 2 || cap == 3
    ensures trace == OVERTAKING && Listed(cap, trace) == if cap == 2 then [3, 2] else [3, 1, 0]
  {
    SmallList();
    LargeList();
    trace := TryOne(cap, [], [], 0, ComesUp);
    trace := TryOne(cap, trace, [0], 1, ComesUp);
    trace := TryOne(cap, trace, [1, 0], 2, ComesUp);
    trace := TryOne(cap, trace, if cap == 2 then [2, 1] else [2, 1, 0], 0, CannotSpawn);
    trace := TryOne(cap, trace, if cap == 2 then [2] else [0, 2, 1], 1, CannotSpawn);
    trace := TryOne(cap, trace, if cap == 2 then [2] else [1, 0, 2], 3, ComesUp);
  }

  /** A failing start is a hit for the larger table, which reorders it, and nothing for the smaller: afterwards
      the smaller table holds a model that the larger has evicted. */
  lemma MoreCapacityKeepsLess()
    ensures 2 in Play(2, OVERTAKING).table && 2 !in Play(3, OVERTAKING).table
  {
    var trace := Tries(2);
    TableIsRecencyList(2, trace);
    assert 2 in Ids(Listed(2, trace));
    trace := Tries(3);
    TableIsRecencyList(3, trace);
    assert 2 !in Ids(Listed(3, trace));
  }
}
