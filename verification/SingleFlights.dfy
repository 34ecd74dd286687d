/** One call of `SingleFlight.execute`, with its waiter's loop, and the registry of the locks it uses.
    Times are milliseconds; what the cache, the lock and the runner answer are parameters. */
module SingleFlights {
  import opened Wrappers

  /*** The registry. ***/

  /** A lock, as the request at hand sees it: whether it holds it. Others hold it when an acquire fails. */
  class FlightLock {
    var held: bool

    constructor ()
      ensures !held
    {
      held := false;
    }

    method TryAcquire(free: bool) returns (ok: bool)
      requires !held
      modifies this
      ensures ok == free == held
    {
      held := free;
      ok := free;
    }

    method Release()
      requires held
      modifies this
      ensures !held
    {
      held := false;
    }
  }

  class LockRegistry {
    var locks: map<string, FlightLock>

    /** Different keys never share a lock. */
    ghost predicate Valid()
      reads this
    {
      forall a, b :: a in locks && b in locks && locks[a] == locks[b] ==> a == b
    }

    constructor ()
      ensures Valid() && locks == map[]
    {
      locks := map[];
    }

    /** The lock of a key is made once, and is the same one ever after. */
    method GetLocalLock(key: string) returns (lock: FlightLock)
      requires Valid()
      modifies this
      ensures Valid() && key in locks && lock == locks[key]
      ensures if key in old(locks) then locks == old(locks) else fresh(lock) && locks == old(locks)[key := lock]
    {
      if key !in locks {
        var made := new FlightLock();
        locks := locks[key := made];
      }
      lock := locks[key];
    }
  }

  /*** One call. ***/

  /** What a waiter's k-th round meets: the cached value, if any, and whether its probe finds the lock free;
      and how long it takes besides the pause. */
  datatype Glance<V> = Glance(cached: Option<V>, free: bool, took: nat)

  /** When the k-th round begins. */
  function RoundAt<V>(start: nat, poll: nat, look: nat -> Glance<V>, k: nat): nat {
    if k == 0 then start else RoundAt(start, poll, look, k - 1) + poll + look(k - 1).took
  }

  /** Rounds are at least a pause apart: no more rounds begin than pauses fit before the deadline. */
  lemma {:induction false} RoundsTakePauses<V>(start: nat, poll: nat, look: nat -> Glance<V>, k: nat)
    ensures start + poll * k <= RoundAt(start, poll, look, k)
  {
    if k > 0 {
      RoundsTakePauses(start, poll, look, k - 1);
      assert poll * k == poll * (k - 1) + poll;
    }
  }

  /** Round k begins before the deadline, and meets nothing. */
  predicate Idle<V>(start: nat, poll: nat, timeout: nat, look: nat -> Glance<V>, k: nat) {
    RoundAt(start, poll, look, k) < start + timeout && look(k).cached.None? && !look(k).free
  }

  /** The waiter is served in round k: the round begins before the deadline, after rounds that met nothing. */
  ghost predicate ServedIn<V(!new)>(start: nat, poll: nat, timeout: nat, look: nat -> Glance<V>, k: nat) {
    && (forall j: nat :: j < k ==> Idle(start, poll, timeout, look, j))
    && RoundAt(start, poll, look, k) < start + timeout
    && look(k).cached.Some?
  }

  /** The clock goes on: some round would begin at the deadline or later. */
  ghost predicate ClockGoesOn<V(!new)>(start: nat, poll: nat, timeout: nat, look: nat -> Glance<V>) {
    exists k: nat :: RoundAt(start, poll, look, k) >= start + timeout
  }

  /** So it does whenever the poll interval is positive. */
  lemma PausesGoOn<V(!new)>(start: nat, poll: nat, timeout: nat, look: nat -> Glance<V>)
    requires poll > 0
    ensures ClockGoesOn(start, poll, timeout, look)
  {
    RoundsTakePauses(start, poll, look, timeout);
    assert poll * timeout >= timeout;
  }

  lemma {:induction false} LaterRoundsBeginLater<V>(start: nat, poll: nat, look: nat -> Glance<V>, j: nat, k: nat)
    requires j <= k
    ensures RoundAt(start, poll, look, j) <= RoundAt(start, poll, look, k)
  {
    if j < k {
      LaterRoundsBeginLater(start, poll, look, j, k - 1);
    }
  }

  /** The waiter's loop ends, begins no round at or after its deadline, returns a value exactly when some round
      finds one before any probe finds the lock free, and holds no lock. */
  method Wait<V(!new)>(lock: FlightLock, start: nat, timeout: nat, poll: nat, look: nat -> Glance<V>)
    returns (found: Option<V>, rounds: nat)
    requires !lock.held && ClockGoesOn(start, poll, timeout, look)
    modifies lock
    ensures !lock.held
    ensures rounds > 0 ==> RoundAt(start, poll, look, rounds - 1) < start + timeout
    ensures found.Some? <==> exists k: nat :: ServedIn(start, poll, timeout, look, k)
    ensures forall k: nat :: ServedIn(start, poll, timeout, look, k) ==> found == look(k).cached
  {
    ghost var last: nat :| RoundAt(start, poll, look, last) >= start + timeout;
    var now := start;
    rounds := 0;
    while now < start + timeout
      invariant now == RoundAt(start, poll, look, rounds) && !lock.held
      invariant rounds > 0 ==> RoundAt(start, poll, look, rounds - 1) < start + timeout
      invariant forall j: nat :: j < rounds ==> Idle(start, poll, timeout, look, j)
      decreases last - rounds
    {
      if last <= rounds {
        LaterRoundsBeginLater(start, poll, look, last, rounds);
      }
      var glance := look(rounds);
      if glance.cached.Some? {
        assert ServedIn(start, poll, timeout, look, rounds);
        OnlyServedOnce(start, poll, timeout, look, rounds);
        rounds := rounds + 1;
        return glance.cached, rounds;
      }
      var acquired := lock.TryAcquire(glance.free);
      if acquired {
        lock.Release();
        NeverServed(start, poll, timeout, look, rounds);
        rounds := rounds + 1;
        return None, rounds;
      }
      now := now + poll + glance.took;
      rounds := rounds + 1;
    }
    NeverServed(start, poll, timeout, look, rounds);
    return None, rounds;
  }

  lemma OnlyServedOnce<V(!new)>(start: nat, poll: nat, timeout: nat, look: nat -> Glance<V>, k: nat)
    requires ServedIn(start, poll, timeout, look, k)
    ensures forall j: nat :: ServedIn(start, poll, timeout, look, j) ==> j == k
  {
    forall j: nat | ServedIn(start, poll, timeout, look, j)
      ensures j == k
    {
      assert j < k ==> Idle(start, poll, timeout, look, j);
      assert k < j ==> Idle(start, poll, timeout, look, k);
    }
  }

  /** A round that is late, or whose probe finds the lock free after a miss, is followed by no served one. */
  lemma NeverServed<V(!new)>(start: nat, poll: nat, timeout: nat, look: nat -> Glance<V>, k: nat)
    requires forall j: nat :: j < k ==> Idle(start, poll, timeout, look, j)
    requires RoundAt(start, poll, look, k) >= start + timeout || (look(k).cached.None? && look(k).free)
    ensures forall j: nat :: !ServedIn(start, poll, timeout, look, j)
  {
    forall j: nat
      ensures !ServedIn(start, poll, timeout, look, j)
    {
      assert j < k ==> Idle(start, poll, timeout, look, j);
      assert ServedIn(start, poll, timeout, look, j) && k < j ==> Idle(start, poll, timeout, look, k);
    }
  }

  /** What one call did: the value, if the function it ran did not raise; whether it came from the cache;
      and how often the function ran. */
  datatype Outcome<V> = Outcome(value: Option<V>, cached: bool, runs: nat)

  /** The function runs at most once, and exactly when the result is not a cached one; a cached result is one
      that some look found; and the lock is not held afterwards, even when the function raises. */
  method Execute<V(!new)>(lock: FlightLock, first: Option<V>, free: bool, second: Option<V>, start: nat, timeout: nat,
                          poll: nat, look: nat -> Glance<V>, answer: Option<V>)
    returns (r: Outcome<V>)
    requires !lock.held
    requires first.None? && !free ==> ClockGoesOn(start, poll, timeout, look)
    modifies lock
    ensures !lock.held
    ensures r.runs == if r.cached then 0 else 1
    ensures r.cached <==> first.Some? || (if free then second.Some?
                                          else exists k: nat :: ServedIn(start, poll, timeout, look, k))
    ensures !r.cached ==> r.value == answer
    ensures r.cached ==> r.value.Some? && (r.value == first || (free && r.value == second)
                         || exists k: nat :: ServedIn(start, poll, timeout, look, k) && r.value == look(k).cached)
    ensures first.Some? ==> r.value == first
  {
    if first.Some? {
      return Outcome(first, true, 0);
    }
    var acquired := lock.TryAcquire(free);
    if acquired {
      r := if second.Some? then Outcome(second, true, 0) else Outcome(answer, false, 1);
      lock.Release();
      return;
    }
    var found, _ := Wait(lock, start, timeout, poll, look);
    r := if found.Some? then Outcome(found, true, 0) else Outcome(answer, false, 1);
  }
}
