/** The table of warm runtimes: which models have a live child process, and who is evicted.

    The operating system is an object `Machine`: the pids that are alive, and a clock that moves at every
    reading. What it decides (whether a child starts, dies, answers) is a parameter of each call. */
module WarmRuntimes {
  import opened Wrappers

  type Id = nat

  datatype Status = STARTING | READY | UNHEALTHY | STOPPED

  const MAX_RESTARTS := 3

  /** Starting a child: it comes up, it is spawned but does not, or it cannot even be spawned. */
  datatype Launch = ComesUp | FailsAfterSpawn | CannotSpawn

  /** What happens during one complete request. */
  datatype Luck = Luck(start: Launch, diesBeforePredict: bool, restart: Launch, exchange: bool)

  /*** Values: the specification. ***/

  datatype Host = Host(live: set<nat>, next: nat, clock: nat)

  datatype Runtime = Runtime(state: Status, proc: Option<nat>, restarts: nat, lastUsed: nat, spawned: nat)

  /** A live pid was handed out. */
  predicate PidsUsed(live: set<nat>, next: nat) {
    forall pid :: pid in live ==> pid < next
  }

  predicate Alive(rt: Runtime, h: Host) {
    rt.proc.Some? && rt.proc.value in h.live
  }

  predicate Healthy(rt: Runtime, h: Host) {
    rt.state.READY? && Alive(rt, h)
  }

  function Killed(h: Host, proc: Option<nat>): Host {
    match proc
    case None => h
    case Some(pid) => h.(live := h.live - {pid})
  }

  function Pids(proc: Option<nat>): set<nat> {
    if proc.Some? then {proc.value} else {}
  }

  function Halt(rt: Runtime): Runtime {
    rt.(state := STOPPED, proc := None)
  }

  function Launched(rt: Runtime, h: Host, launch: Launch): (r: (Runtime, Host)) {
    match launch
    case CannotSpawn => (Halt(rt), Killed(h, rt.proc))
    case FailsAfterSpawn =>
      (Halt(rt.(spawned := rt.spawned + 1)), h.(next := h.next + 1))
    case ComesUp =>
      (Runtime(READY, Some(h.next), rt.restarts, h.clock, rt.spawned + 1),
       Host(h.live + {h.next}, h.next + 1, h.clock + 1))
  }

  /** `predict`: restart a runtime that is not healthy, three times at most, then exchange one line. */
  function Predicted(rt: Runtime, h: Host, luck: Luck): (Runtime, Host, bool) {
    var used, h1 := rt.(lastUsed := h.clock), h.(clock := h.clock + 1);
    if !Healthy(rt, h1) && rt.restarts >= MAX_RESTARTS then
      (used.(state := UNHEALTHY), h1, false)
    else
      var (ready, h2) :=
        if Healthy(rt, h1) then (used, h1)
        else Launched(Halt(used.(restarts := rt.restarts + 1)), Killed(h1, rt.proc), luck.restart);
      if !ready.state.READY? then (ready, h2, false)
      else if luck.exchange then (ready, h2, true)
      else (Halt(ready), Killed(h2, ready.proc), false)
  }

  /** A prediction succeeds if and only if the exchange goes well on a healthy child, or on the one that replaces it
      while a restart is left. A child that is not healthy is replaced then; after any other failure there is none. */
  lemma PredictedIff(rt: Runtime, h: Host, luck: Luck)
    requires PidsUsed(h.live, h.next)
    ensures var (n, after, ok) := Predicted(rt, h, luck);
            var (fit, left) := (Healthy(rt, h), rt.restarts < 3);
            && (ok <==> luck.exchange && (fit || (left && luck.restart.ComesUp?)))
            && n.restarts == rt.restarts + (if !fit && left then 1 else 0)
            && (ok ==> Healthy(n, after) && n.proc == if fit then rt.proc else Some(h.next))
            && (ok ==> after.live == if fit then h.live else h.live - Pids(rt.proc) + {h.next})
            && (!ok && (fit || left) ==> n.state.STOPPED? && n.proc.None? && after.live == h.live - Pids(rt.proc))
            && (!ok && !fit && !left ==> n.state.UNHEALTHY? && n.proc == rt.proc && after.live == h.live)
            && h.clock <= n.lastUsed < after.clock
  {
  }

  datatype Manager = Manager(maxModels: int, table: map<Id, Runtime>, host: Host)

  ghost predicate Oldest(table: map<Id, Runtime>, id: Id) {
    id in table && forall other :: other in table ==> table[id].lastUsed <= table[other].lastUsed
  }

  lemma {:induction false} OldestExists(table: map<Id, Runtime>)
    requires |table| > 0
    ensures exists id :: Oldest(table, id)
    decreases |table|
  {
    var id :| id in table;
    var rest := table - {id};
    if |rest| == 0 {
      assert rest == map[];
      assert forall other :: other in table ==> other == id || other in rest;
      assert Oldest(table, id);
    } else {
      OldestExists(rest);
      var best :| Oldest(rest, best);
      assert forall other :: other in table ==> other == id || other in rest;
      assert Oldest(table, if table[id].lastUsed <= table[best].lastUsed then id else best);
    }
  }

  ghost function Lru(table: map<Id, Runtime>): (id: Id)
    requires |table| > 0
    ensures Oldest(table, id)
  {
    OldestExists(table);
    var id :| Oldest(table, id);
    id
  }

  /** Stop a resident runtime and drop it from the table. */
  function Dropped(m: Manager, id: Id): Manager {
    if id in m.table then m.(table := m.table - {id}, host := Killed(m.host, m.table[id].proc)) else m
  }

  /** A new runtime object for `id`, started; resident only if it came up. */
  function Created(m: Manager, id: Id, launch: Launch): (Manager, bool) {
    var (rt, h) := Launched(Runtime(STARTING, None, 0, m.host.clock, 0), m.host.(clock := m.host.clock + 1), launch);
    if rt.state.READY? then (m.(table := m.table[id := rt], host := h), true) else (m.(host := h), false)
  }

  ghost function Obtained(m: Manager, id: Id, launch: Launch): (Manager, bool) {
    if id in m.table && Healthy(m.table[id], m.host) then (m, true)
    else
      var rest := Dropped(m, id);
      if |rest.table| == 0 && rest.maxModels <= 0 then (rest, false)
      else Created(Roomy(rest), id, launch)
  }

  /** The table after evicting, if it is full, the least recently used runtime. */
  ghost function Roomy(m: Manager): Manager {
    if |m.table| < m.maxModels || |m.table| == 0 then m else Dropped(m, Lru(m.table))
  }

  /** A prediction on a resident runtime, whose child may die first. */
  function Answered(m: Manager, id: Id, luck: Luck): (Manager, bool)
    requires id in m.table
  {
    var host := if luck.diesBeforePredict then Killed(m.host, m.table[id].proc) else m.host;
    var (rt, h, ok) := Predicted(m.table[id], host, luck);
    (m.(table := m.table[id := rt], host := h), ok)
  }

  /** One complete request: get or create the runtime, then predict on it. */
  ghost function Requested(m: Manager, id: Id, luck: Luck): (Manager, bool) {
    var (n, ok) := Obtained(m, id, luck.start);
    if ok && id in n.table then Answered(n, id, luck) else (n, false)
  }

  function Procs(table: map<Id, Runtime>): set<nat> {
    set id | id in table && table[id].proc.Some? :: table[id].proc.value
  }

  /** The host once the children of all runtimes but those in `left` are gone. */
  function Stopping(h: Host, table: map<Id, Runtime>, left: set<Id>): Host {
    h.(live := h.live - Procs(table - left))
  }

  lemma StoppingNone(h: Host, table: map<Id, Runtime>)
    ensures Stopping(h, table, table.Keys) == h
  {
    assert table - table.Keys == map[];
  }

  lemma StoppingOneMore(h: Host, table: map<Id, Runtime>, left: set<Id>, k: Id)
    requires k in left && k in table
    ensures Stopping(h, table, left - {k}) == Killed(Stopping(h, table, left), table[k].proc)
  {
    assert forall id :: id in table - (left - {k}) <==> id in table - left || id == k;
    assert Procs(table - (left - {k})) == Procs(table - left) + if table[k].proc.Some? then {table[k].proc.value}
           else {};
  }

  function Cleared(m: Manager): Manager {
    m.(table := map[], host := Stopping(m.host, m.table, {}))
  }

  /** Every reading of the clock is new, so no two residents were last used at the same time. */
  ghost predicate Stamped(m: Manager) {
    && (forall id :: id in m.table ==> m.table[id].lastUsed < m.host.clock)
    && (forall a, b :: a in m.table && b in m.table && m.table[a].lastUsed == m.table[b].lastUsed ==> a == b)
  }

  /** So there is only one least recently used runtime, however it is looked for. */
  ghost predicate OneOldest(table: map<Id, Runtime>) {
    |table| > 0 ==> forall id :: Oldest(table, id) ==> id == Lru(table)
  }

  lemma StampedHasOneOldest(m: Manager)
    requires Stamped(m)
    ensures OneOldest(m.table)
  {
  }

  lemma DroppedKeepsStamped(m: Manager, id: Id)
    requires Stamped(m)
    ensures Stamped(Dropped(m, id))
  {
  }

  lemma RoomyKeepsStamped(m: Manager)
    requires Stamped(m)
    ensures Stamped(Roomy(m)) && Roomy(m).table.Keys <= m.table.Keys
  {
  }

  lemma PredictedStamp(rt: Runtime, h: Host, luck: Luck)
    ensures var (r, n, _) := Predicted(rt, h, luck);
            h.clock <= r.lastUsed < n.clock
  {
  }

  lemma PredictedKeepsStamped(m: Manager, id: Id, luck: Luck)
    requires Stamped(m) && id in m.table
    ensures Stamped(Answered(m, id, luck).0)
  {
    PredictedStamp(m.table[id], m.host, luck);
    PredictedStamp(m.table[id], Killed(m.host, m.table[id].proc), luck);
  }

  lemma CreatedKeepsStamped(m: Manager, id: Id, launch: Launch)
    requires Stamped(m) && id !in m.table
    ensures Stamped(Created(m, id, launch).0)
  {
  }

  lemma ObtainedKeepsStamped(m: Manager, id: Id, launch: Launch)
    requires Stamped(m)
    ensures Stamped(Obtained(m, id, launch).0)
    ensures Obtained(m, id, launch).1 ==> id in Obtained(m, id, launch).0.table
  {
    var rest := Dropped(m, id);
    if id in m.table && Healthy(m.table[id], m.host) {
    } else {
      DroppedKeepsStamped(m, id);
      RoomyKeepsStamped(rest);
      CreatedKeepsStamped(Roomy(rest), id, launch);
    }
  }

  /*** The code. ***/

  class Machine {
    var live: set<nat>
    var next: nat
    var clock: nat

    function View(): Host
      reads this
    {
      Host(live, next, clock)
    }

    constructor ()
      ensures View() == Host({}, 0, 0)
    {
      live, next, clock := {}, 0, 0;
    }

    method Now() returns (t: nat)
      modifies this
      ensures t == old(clock) && View() == old(View()).(clock := old(clock) + 1)
    {
      t := clock;
      clock := clock + 1;
    }

    method Kill(proc: Option<nat>)
      modifies this
      ensures View() == Killed(old(View()), proc)
    {
      if proc.Some? {
        live := live - {proc.value};
      }
    }

    method Popen() returns (pid: nat)
      modifies this
      ensures pid == old(next)
      ensures View() == Host(old(live) + {pid}, pid + 1, old(clock))
    {
      pid := next;
      live, next := live + {pid}, next + 1;
    }
  }

  class WarmRuntime {
    var state: Status
    var proc: Option<nat>
    var restarts: nat
    var lastUsed: nat
    ghost var spawned: nat

    ghost function View(): Runtime
      reads this
    {
      Runtime(state, proc, restarts, lastUsed, spawned)
    }

    constructor (now: nat)
      ensures View() == Runtime(STARTING, None, 0, now, 0)
    {
      state, proc, restarts, lastUsed, spawned := STARTING, None, 0, now, 0;
    }

    method Stop(host: Machine)
      modifies this, host
      ensures View() == Halt(old(View())) && host.View() == Killed(old(host.View()), old(proc))
    {
      host.Kill(proc);
      proc := None;
      state := STOPPED;
    }

    method Start(host: Machine, launch: Launch) returns (ok: bool)
      requires PidsUsed(host.live, host.next)
      modifies this, host
      ensures (View(), host.View()) == Launched(old(View()), old(host.View()), launch)
      ensures PidsUsed(host.live, host.next) && (ok <==> state.READY?)
    {
      state := STARTING;
      if launch.CannotSpawn? {
        state := UNHEALTHY;
        Stop(host);
        return false;
      }
      var pid := host.Popen();
      proc, spawned := Some(pid), spawned + 1;
      if launch.FailsAfterSpawn? {
        state := UNHEALTHY;
        Stop(host);
        return false;
      }
      state := READY;
      lastUsed := host.Now();
      ok := true;
    }

    method Predict(host: Machine, luck: Luck) returns (ok: bool)
      requires PidsUsed(host.live, host.next)
      modifies this, host
      ensures PidsUsed(host.live, host.next)
      ensures (View(), host.View(), ok) == Predicted(old(View()), old(host.View()), luck)
    {
      lastUsed := host.Now();
      if !state.READY? || proc.None? || proc.value !in host.live {
        if restarts >= MAX_RESTARTS {
          state := UNHEALTHY;
          return false;
        }
        restarts := restarts + 1;
        Stop(host);
        var started := Start(host, luck.restart);
        if !started {
          return false;
        }
      }
      if !luck.exchange {
        state := UNHEALTHY;
        Stop(host);
        return false;
      }
      ok := true;
    }
  }

  class WarmRuntimeManager {
    const maxModels: int
    const host: Machine
    var runtimes: map<Id, WarmRuntime>

    /** Every resident runtime is an object of its own. */
    ghost predicate Valid()
      reads this, host
    {
      && PidsUsed(host.live, host.next)
      && forall a, b :: a in runtimes && b in runtimes && runtimes[a] == runtimes[b] ==> a == b
    }

    ghost function Table(): map<Id, Runtime>
      reads this, runtimes.Values
    {
      map id | id in runtimes :: runtimes[id].View()
    }

    ghost function View(): Manager
      reads this, host, runtimes.Values
    {
      Manager(maxModels, Table(), host.View())
    }

    constructor (maxModels: int, host: Machine)
      requires PidsUsed(host.live, host.next)
      ensures Valid() && runtimes == map[] && this.maxModels == maxModels && this.host == host
    {
      this.maxModels, this.host, runtimes := maxModels, host, map[];
    }

    /** The least recently used resident. */
    method FindLru() returns (id: Id)
      requires |runtimes| > 0
      ensures Oldest(Table(), id)
    {
      id :| id in runtimes;
      var left := runtimes.Keys - {id};
      while left != {}
        invariant id in runtimes && left <= runtimes.Keys
        invariant forall k :: k in runtimes && k !in left ==> runtimes[id].lastUsed <= runtimes[k].lastUsed
        decreases |left|
      {
        var k :| k in left;
        left := left - {k};
        if runtimes[k].lastUsed < runtimes[id].lastUsed {
          id := k;
        }
      }
    }

    method StopRuntime(id: Id)
      requires Valid()
      modifies this`runtimes, host, runtimes.Values
      ensures Valid() && View() == Dropped(old(View()), id)
      ensures runtimes == old(runtimes) - {id}
    {
      if id in runtimes {
        runtimes[id].Stop(host);
        runtimes := runtimes - {id};
        assert Table() == old(Table()) - {id};
      } else {
        assert runtimes - {id} == runtimes;
      }
    }

    method Create(id: Id, launch: Launch) returns (result: Option<WarmRuntime>)
      requires Valid() && id !in runtimes
      modifies this`runtimes, host
      ensures Valid() && (View(), result.Some?) == Created(old(View()), id, launch)
      ensures result.Some? ==> runtimes == old(runtimes)[id := result.value] && fresh(result.value)
      ensures result.None? ==> runtimes == old(runtimes)
    {
      var now := host.Now();
      var rt := new WarmRuntime(now);
      var ok := rt.Start(host, launch);
      if !ok {
        assert Table() == old(Table());
        return None;
      }
      runtimes := runtimes[id := rt];
      assert Table() == old(Table())[id := rt.View()];
      result := Some(rt);
    }

    lemma TableSize()
      ensures |Table()| == |runtimes|
    {
      assert Table().Keys == runtimes.Keys;
      assert |Table()| == |Table().Keys|;
    }

    /** Evict the least recently used runtime when the table is full; false when there is none to evict. */
    method MakeRoom() returns (ok: bool)
      requires Valid() && OneOldest(Table())
      modifies this`runtimes, host, runtimes.Values
      ensures Valid() && View() == Roomy(old(View())) && runtimes.Keys <= old(runtimes.Keys)
      ensures ok <==> |old(runtimes)| > 0 || maxModels > 0
    {
      TableSize();
      if |runtimes| < maxModels {
        return true;
      }
      if |runtimes| == 0 {
        return false;
      }
      var lru := FindLru();
      StopRuntime(lru);
      ok := true;
    }

    /** A healthy resident is used as it is; any other is stopped and dropped. */
    method Lookup(id: Id) returns (hit: bool)
      requires Valid()
      modifies this`runtimes, host, runtimes.Values
      ensures Valid() && hit == (id in old(View()).table && Healthy(old(View()).table[id], old(View()).host))
      ensures if hit then id in runtimes && View() == old(View()) && runtimes == old(runtimes)
              else id !in runtimes && View() == Dropped(old(View()), id) && runtimes == old(runtimes) - {id}
    {
      hit := false;
      if id in runtimes {
        var rt := runtimes[id];
        if rt.state.READY? && rt.proc.Some? && rt.proc.value in host.live {
          return true;
        }
      }
      StopRuntime(id);
    }

    /** None stands for the exception of a failed start, or of looking for a victim in an empty table. */
    method GetOrCreate(id: Id, launch: Launch) returns (result: Option<WarmRuntime>)
      requires Valid() && Stamped(View())
      modifies this`runtimes, host, runtimes.Values
      ensures Valid() && (View(), result.Some?) == Obtained(old(View()), id, launch)
      ensures result.Some? ==> id in runtimes && runtimes[id] == result.value
      ensures result.Some? ==> result.value in old(runtimes.Values) || fresh(result.value)
    {
      DroppedKeepsStamped(View(), id);
      var hit := Lookup(id);
      if hit {
        return Some(runtimes[id]);
      }
      TableSize();
      StampedHasOneOldest(View());
      var room := MakeRoom();
      if !room {
        return None;
      }
      result := Create(id, launch);
    }

    /** One complete request: obtain the runtime, then predict on it. */
    method Request(id: Id, luck: Luck) returns (ok: bool)
      requires Valid() && Stamped(View())
      modifies this`runtimes, host, runtimes.Values
      ensures Valid() && Stamped(View()) && (View(), ok) == Requested(old(View()), id, luck)
    {
      ObtainedKeepsStamped(View(), id, luck.start);
      var rt := GetOrCreate(id, luck.start);
      if rt.None? {
        return false;
      }
      PredictedKeepsStamped(View(), id, luck);
      ok := PredictOn(id, luck);
    }

    method PredictOn(id: Id, luck: Luck) returns (ok: bool)
      requires Valid() && id in runtimes
      modifies host, runtimes[id]
      ensures Valid() && (View(), ok) == Answered(old(View()), id, luck)
    {
      var rt := runtimes[id];
      ghost var before := View();
      if luck.diesBeforePredict {
        host.Kill(rt.proc);
      }
      ghost var h := host.View();
      ok := rt.Predict(host, luck);
      assert (rt.View(), host.View(), ok) == Predicted(before.table[id], h, luck);
      assert forall k :: k in runtimes && k != id ==> runtimes[k] != rt;
      assert Table() == old(Table())[id := rt.View()];
    }

    method Clear()
      requires Valid()
      modifies this`runtimes, host, runtimes.Values
      ensures Valid() && View() == Cleared(old(View()))
    {
      StopAll();
      runtimes := map[];
      assert Table() == map[];
    }

    method StopAll()
      requires Valid()
      modifies host, runtimes.Values
      ensures host.View() == Cleared(old(View())).host
    {
      ghost var table := Table();
      var left := runtimes.Keys;
      StoppingNone(host.View(), table);
      while left != {}
        invariant left <= runtimes.Keys == table.Keys
        invariant forall k :: k in left ==> runtimes[k].proc == table[k].proc
        invariant host.View() == Stopping(old(host.View()), table, left)
        decreases |left|
      {
        var k :| k in left;
        StoppingOneMore(old(host.View()), table, left, k);
        runtimes[k].Stop(host);
        left := left - {k};
      }
    }
  }
}
