/** The prediction cache and single-flight: any number of requests to the free and the paid endpoint, in any
    number of gateway processes; one cache for all of them, whose calls may fail and whose entries may vanish; one
    lock per key in each process; and the log of runner calls.
    One event is one cache call, one lock call or one runner call of one request. */
module Gateway {
  import opened Wrappers

  /** The cache key is an injective function of these three. */
  datatype Key = Key(model: nat, version: nat, instances: string)

  datatype Body = Body(error: string, content: string)

  /** A runner call answers, or raises. */
  datatype Answer = Replied(status: nat, body: Body) | Raised

  datatype Call = Call(caller: nat, key: Key, answer: Answer)

  const UPSTREAM := "Upstream runner error"

  /** What the free endpoint makes of a reply with status 500 or more. */
  function Hidden(body: Body): Body {
    Body(if body.error != "" then body.error else UPSTREAM, "")
  }

  /** What a leader holds when it gives the lock back. */
  datatype Landing = Found(body: Body) | Ran(answer: Answer)

  /** Where a request stands. Free: the first look, then inside single-flight a look, the lock, and as the
      leader a second look and the call, or as a waiter rounds of look and probe, then the fallback call.
      Paid: one look, one call. Both then store a good reply. */
  datatype Pc =
    | Looking | Checking | Locking | Rechecking | Leading | Unlocking(landing: Landing)
    | Waiting | Polling | Probing | Unprobing | FallingBack
    | PaidLooking | PaidCalling
    | Judging(answer: Answer) | Storing(status: nat, body: Body)
    | Done(hit: bool, status: nat, body: Body) | Errored

  /** The lock of a key lives in one process. */
  datatype Flight = Flight(process: nat, key: Key)

  datatype Request = Request(process: nat, key: Key, paid: bool, pc: Pc) {
    function Lock(): Flight {
      Flight(process, key)
    }
  }

  datatype World = World(cache: map<Key, Body>, locks: map<Flight, nat>, calls: seq<Call>, requests: seq<Request>)

  const START := World(map[], map[], [], [])

  datatype Event =
    | Arrive(process: nat, key: Key, paid: bool)
    | Look(t: nat, works: bool)
    | Acquire(t: nat) | Unlock(t: nat)
    | Round(t: nat, inTime: bool) | Probe(t: nat) | Unprobe(t: nat)
    | Run(t: nat, answer: Answer)
    | Judge(t: nat) | Store(t: nat, works: bool)
    | Vanish(key: Key)

  predicate Looks(pc: Pc) {
    pc.Looking? || pc.Checking? || pc.Rechecking? || pc.Polling? || pc.PaidLooking?
  }

  predicate Calls(pc: Pc) {
    pc.Leading? || pc.FallingBack? || pc.PaidCalling?
  }

  predicate Possible(w: World, e: Event) {
    match e
    case Arrive(_, _, _) => true
    case Vanish(_) => true
    case Look(t, _) => t < |w.requests| && Looks(w.requests[t].pc)
    case Acquire(t) => t < |w.requests| && w.requests[t].pc.Locking?
    case Unlock(t) => t < |w.requests| && w.requests[t].pc.Unlocking?
    case Round(t, _) => t < |w.requests| && w.requests[t].pc.Waiting?
    case Probe(t) => t < |w.requests| && w.requests[t].pc.Probing?
    case Unprobe(t) => t < |w.requests| && w.requests[t].pc.Unprobing?
    case Run(t, _) => t < |w.requests| && Calls(w.requests[t].pc)
    case Judge(t) => t < |w.requests| && w.requests[t].pc.Judging?
    case Store(t, _) => t < |w.requests| && w.requests[t].pc.Storing?
  }

  function At(w: World, t: nat, pc: Pc): World
    requires t < |w.requests|
  {
    w.(requests := w.requests[t := w.requests[t].(pc := pc)])
  }

  /** A look that fails counts as a miss. */
  function Seen(w: World, key: Key, works: bool): Option<Body> {
    if works && key in w.cache then Some(w.cache[key]) else None
  }

  function AfterHit(pc: Pc, body: Body): Pc {
    if pc.Rechecking? then Unlocking(Found(body)) else Done(true, 200, body)
  }

  function AfterMiss(pc: Pc): Pc {
    match pc
    case Looking => Checking
    case Checking => Locking
    case Rechecking => Leading
    case Polling => Probing
    case PaidLooking => PaidCalling
    case _ => pc
  }

  function Looked(w: World, t: nat, works: bool): World
    requires t < |w.requests|
  {
    var r := w.requests[t];
    match Seen(w, r.key, works)
    case Some(body) => At(w, t, AfterHit(r.pc, body))
    case None => At(w, t, AfterMiss(r.pc))
  }

  /** A non-blocking acquire. */
  function Tried(w: World, t: nat, won: Pc, lost: Pc): World
    requires t < |w.requests|
  {
    var lock := w.requests[t].Lock();
    if lock in w.locks then At(w, t, lost) else At(w, t, won).(locks := w.locks[lock := t])
  }

  function Freed(w: World, t: nat, pc: Pc): World
    requires t < |w.requests|
  {
    At(w, t, pc).(locks := w.locks - {w.requests[t].Lock()})
  }

  function Landed(landing: Landing): Pc {
    match landing
    case Found(body) => Done(true, 200, body)
    case Ran(answer) => Judging(answer)
  }

  function Called(w: World, t: nat, answer: Answer): World
    requires t < |w.requests|
  {
    var r := w.requests[t];
    At(w, t, if r.pc.Leading? then Unlocking(Ran(answer)) else Judging(answer))
      .(calls := w.calls + [Call(t, r.key, answer)])
  }

  function Judged(paid: bool, answer: Answer): Pc {
    match answer
    case Raised => Errored
    case Replied(status, body) =>
      if status >= 500 && !paid then Done(false, 502, Hidden(body))
      else if status >= 400 then Done(false, status, body)
      else Storing(status, body)
  }

  function Stored(w: World, t: nat, works: bool): World
    requires t < |w.requests| && w.requests[t].pc.Storing?
  {
    var r := w.requests[t];
    var n := At(w, t, Done(false, r.pc.status, r.pc.body));
    if works then n.(cache := w.cache[r.key := r.pc.body]) else n
  }

  function Following(w: World, e: Event): World
    requires Possible(w, e)
  {
    match e
    case Arrive(process, key, paid) =>
      w.(requests := w.requests + [Request(process, key, paid, if paid then PaidLooking else Looking)])
    case Vanish(key) => w.(cache := w.cache - {key})
    case Look(t, works) => Looked(w, t, works)
    case Acquire(t) => Tried(w, t, Rechecking, Waiting)
    case Unlock(t) => Freed(w, t, Landed(w.requests[t].pc.landing))
    case Round(t, inTime) => At(w, t, if inTime then Polling else FallingBack)
    case Probe(t) => Tried(w, t, Unprobing, Waiting)
    case Unprobe(t) => Freed(w, t, FallingBack)
    case Run(t, answer) => Called(w, t, answer)
    case Judge(t) => At(w, t, Judged(w.requests[t].paid, w.requests[t].pc.answer))
    case Store(t, works) => Stored(w, t, works)
  }

  function Play(trace: seq<Event>): Option<World> {
    if trace == [] then Some(START)
    else
      var w := Play(trace[..|trace| - 1]);
      if w.Some? && Possible(w.value, trace[|trace| - 1]) then Some(Following(w.value, trace[|trace| - 1])) else None
  }

  /** The request an event moves, if any. */
  function Actor(e: Event): Option<nat> {
    match e
    case Arrive(_, _, _) => None
    case Vanish(_) => None
    case Look(t, _) => Some(t)
    case Acquire(t) => Some(t)
    case Unlock(t) => Some(t)
    case Round(t, _) => Some(t)
    case Probe(t) => Some(t)
    case Unprobe(t) => Some(t)
    case Run(t, _) => Some(t)
    case Judge(t) => Some(t)
    case Store(t, _) => Some(t)
  }

  lemma RequestsFollow(w: World, e: Event)
    requires Possible(w, e)
    ensures var n := Following(w, e);
            && |w.requests| <= |n.requests| && (!e.Arrive? ==> |n.requests| == |w.requests|)
            && (forall t :: 0 <= t < |w.requests| ==> n.requests[t] == w.requests[t].(pc := n.requests[t].pc))
            && (forall t :: 0 <= t < |w.requests| && Actor(e) != Some(t) ==> n.requests[t] == w.requests[t])
            && (n.calls == if e.Run? then w.calls + [Call(e.t, w.requests[e.t].key, e.answer)] else w.calls)
  {
  }

  /*** Provenance. ***/

  /** Some runner call for the key succeeded with this body. */
  ghost predicate Produced(calls: seq<Call>, key: Key, body: Body) {
    exists c :: 0 <= c < |calls| && calls[c].key == key && calls[c].answer.Replied?
                && calls[c].answer.status < 400 && calls[c].answer.body == body
  }

  ghost predicate Made(calls: seq<Call>, t: nat, key: Key, answer: Answer) {
    exists c :: 0 <= c < |calls| && calls[c] == Call(t, key, answer)
  }

  /** The reply is what this request's own runner call answered. */
  ghost predicate Reported(calls: seq<Call>, t: nat, r: Request, status: nat, body: Body) {
    exists c :: 0 <= c < |calls| && calls[c].caller == t && calls[c].key == r.key && calls[c].answer.Replied?
                && (if calls[c].answer.status >= 500 && !r.paid then
                   status == 502 && body == Hidden(calls[c].answer.body)
                    else status == calls[c].answer.status && body == calls[c].answer.body)
  }

  /** What a request carries came from the runner: an earlier good call if it is a hit, else its own. */
  ghost predicate Honest(calls: seq<Call>, t: nat, r: Request) {
    match r.pc
    case Unlocking(Found(body)) => Produced(calls, r.key, body)
    case Unlocking(Ran(answer)) => Made(calls, t, r.key, answer)
    case Judging(answer) => Made(calls, t, r.key, answer)
    case Storing(status, body) => Made(calls, t, r.key, Replied(status, body)) && status < 400
    case Done(hit, status, body) =>
      if hit then status == 200 && Produced(calls, r.key, body) else Reported(calls, t, r, status, body)
    case _ => true
  }

  ghost predicate AllHonest(w: World) {
    && (forall key :: key in w.cache ==> Produced(w.calls, key, w.cache[key]))
    && (forall t :: 0 <= t < |w.requests| ==> Honest(w.calls, t, w.requests[t]))
  }

  lemma MoreCallsStayHonest(calls: seq<Call>, more: seq<Call>, t: nat, r: Request)
    requires Honest(calls, t, r)
    ensures Honest(calls + more, t, r)
  {
    var all := calls + more;
    assert forall c :: 0 <= c < |calls| ==> all[c] == calls[c];
    if r.pc.Done? && !r.pc.hit {
      var c :| 0 <= c < |calls| && calls[c].caller == t && calls[c].key == r.key && calls[c].answer.Replied?
        && (if calls[c].answer.status >= 500 && !r.paid then
           r.pc.status == 502 && r.pc.body == Hidden(calls[c].answer.body)
            else r.pc.status == calls[c].answer.status && r.pc.body == calls[c].answer.body);
      assert all[c] == calls[c];
    }
  }

  lemma MoreCallsProduce(calls: seq<Call>, more: seq<Call>, key: Key, body: Body)
    requires Produced(calls, key, body)
    ensures Produced(calls + more, key, body)
  {
    var c :| 0 <= c < |calls| && calls[c].key == key && calls[c].answer.Replied?
      && calls[c].answer.status < 400 && calls[c].answer.body == body;
    assert (calls + more)[c] == calls[c];
  }

  lemma CacheStaysHonest(w: World, e: Event)
    requires Possible(w, e) && AllHonest(w)
    ensures var n := Following(w, e); forall key :: key in n.cache ==> Produced(n.calls, key, n.cache[key])
  {
    var n := Following(w, e);
    RequestsFollow(w, e);
    forall key | key in n.cache
      ensures Produced(n.calls, key, n.cache[key])
    {
      if key in w.cache && n.cache[key] == w.cache[key] {
        MoreCallsProduce(w.calls, if e.Run? then [Call(e.t, w.requests[e.t].key, e.answer)] else [], key, w.cache[key]);
      } else {
        assert e.Store? && Honest(w.calls, e.t, w.requests[e.t]);
      }
    }
  }

  lemma JudgedHonestly(calls: seq<Call>, t: nat, r: Request)
    requires r.pc.Judging? && Made(calls, t, r.key, r.pc.answer)
    ensures Honest(calls, t, r.(pc := Judged(r.paid, r.pc.answer)))
  {
  }

  lemma ActorStaysHonest(w: World, e: Event)
    requires Possible(w, e) && AllHonest(w) && Actor(e).Some?
    ensures var (t, n) := (Actor(e).value, Following(w, e)); Honest(n.calls, t, n.requests[t])
  {
    var t, n := Actor(e).value, Following(w, e);
    RequestsFollow(w, e);
    var r := w.requests[t];
    assert Honest(w.calls, t, r);
    match e
    case Run(_, answer) => assert n.calls[|w.calls|] == Call(t, r.key, answer);
    case Judge(_) => JudgedHonestly(w.calls, t, r);
    case Look(_, works) =>
      if Seen(w, r.key, works).Some? {
        assert Produced(w.calls, r.key, w.cache[r.key]);
      }
    case _ =>
  }

  lemma EventKeepsHonest(w: World, e: Event)
    requires Possible(w, e) && AllHonest(w)
    ensures AllHonest(Following(w, e))
  {
    var n := Following(w, e);
    RequestsFollow(w, e);
    CacheStaysHonest(w, e);
    var more := if e.Run? then [Call(e.t, w.requests[e.t].key, e.answer)] else [];
    assert n.calls == w.calls + more;
    forall t | 0 <= t < |n.requests|
      ensures Honest(n.calls, t, n.requests[t])
    {
      if Actor(e) == Some(t) {
        ActorStaysHonest(w, e);
      } else if t < |w.requests| {
        MoreCallsStayHonest(w.calls, more, t, w.requests[t]);
      }
    }
  }

  /** Cache provenance, over every run of both endpoints: a body served as a hit was produced by an earlier
      runner call, with status below 400, for the same model, version and instances; and a body served as
      a miss is what this very request's call answered. */
  lemma {:induction false} HitsComeFromTheRunner(trace: seq<Event>)
    requires Play(trace).Some?
    ensures AllHonest(Play(trace).value)
    ensures var w := Play(trace).value;
            forall t :: 0 <= t < |w.requests| && w.requests[t].pc.Done? && w.requests[t].pc.hit ==>
              Produced(w.calls, w.requests[t].key, w.requests[t].pc.body)
  {
    if trace != [] {
      HitsComeFromTheRunner(trace[..|trace| - 1]);
      EventKeepsHonest(Play(trace[..|trace| - 1]).value, trace[|trace| - 1]);
    }
    var w := Play(trace).value;
    forall t | 0 <= t < |w.requests| && w.requests[t].pc.Done? && w.requests[t].pc.hit
      ensures Produced(w.calls, w.requests[t].key, w.requests[t].pc.body)
    {
      assert Honest(w.calls, t, w.requests[t]);
    }
  }

  /*** What is stored, and what a look finds. ***/

  /** The arrivals of a run, in order. */
  function ArrivalsOf(trace: seq<Event>): seq<Event> {
    if trace == [] then []
    else ArrivalsOf(trace[..|trace| - 1]) + if trace[|trace| - 1].Arrive? then [trace[|trace| - 1]] else []
  }

  /** What the runner last answered to a request. */
  function AnswerTo(trace: seq<Event>, t: nat): Option<Answer> {
    if trace == [] then None
    else
      var e := trace[|trace| - 1];
      if e.Run? && e.t == t then Some(e.answer) else AnswerTo(trace[..|trace| - 1], t)
  }

  /** The last event that moved a request. */
  function LastOf(trace: seq<Event>, t: nat): Option<Event> {
    if trace == [] then None
    else if Actor(trace[|trace| - 1]) == Some(t) then Some(trace[|trace| - 1])
    else LastOf(trace[..|trace| - 1], t)
  }

  /** The last answer stored for a key by a cache call that works, unless the entry vanished since. */
  function LastStored(trace: seq<Event>, key: Key): Option<Body> {
    if trace == [] then None
    else
      var before, e := trace[..|trace| - 1], trace[|trace| - 1];
      if e == Vanish(key) then None
      else if e.Store? && e.works && e.t < |ArrivalsOf(before)| && ArrivalsOf(before)[e.t].Arrive?
              && ArrivalsOf(before)[e.t].key == key && AnswerTo(before, e.t).Some?
              && AnswerTo(before, e.t).value.Replied?
      then Some(AnswerTo(before, e.t).value.body)
      else LastStored(before, key)
  }

  predicate ArrivedAs(e: Event, r: Request) {
    e == Arrive(r.process, r.key, r.paid)
  }

  /** A request carries what the runner answered it, and is storing exactly after a good answer was judged. */
  predicate Recalls(pc: Pc, answer: Option<Answer>, last: Option<Event>, t: nat) {
    && (pc.Unlocking? && pc.landing.Ran? ==> answer == Some(pc.landing.answer))
    && (pc.Judging? ==> answer == Some(pc.answer))
    && (pc.Storing? <==> last == Some(Judge(t)) && answer.Some? && answer.value.Replied? && answer.value.status < 400)
    && (pc.Storing? ==> answer == Some(Replied(pc.status, pc.body)))
  }

  lemma StepRecalls(w: World, e: Event, t: nat, answer: Option<Answer>, last: Option<Event>)
    requires Possible(w, e) && t < |w.requests| && Recalls(w.requests[t].pc, answer, last, t)
    ensures Recalls(Following(w, e).requests[t].pc, if e.Run? && e.t == t then Some(e.answer) else answer,
                    if Actor(e) == Some(t) then Some(e) else last, t)
  {
    if Actor(e) != Some(t) {
      RequestsFollow(w, e);
    } else if e.Judge? {
      JudgeRecalls(w, t, answer);
    } else {
      OtherRecalls(w, e, t, answer, last);
    }
  }

  lemma JudgeRecalls(w: World, t: nat, answer: Option<Answer>)
    requires Possible(w, Judge(t)) && answer == Some(w.requests[t].pc.answer)
    ensures Recalls(Following(w, Judge(t)).requests[t].pc, answer, Some(Judge(t)), t)
  {
  }

  lemma OtherRecalls(w: World, e: Event, t: nat, answer: Option<Answer>, last: Option<Event>)
    requires Possible(w, e) && Actor(e) == Some(t) && !e.Judge? && Recalls(w.requests[t].pc, answer, last, t)
    ensures Recalls(Following(w, e).requests[t].pc, if e.Run? then Some(e.answer) else answer, Some(e), t)
  {
  }

  lemma NoRequestYet(trace: seq<Event>, t: nat)
    requires Play(trace).Some? && |Play(trace).value.requests| <= t
    ensures AnswerTo(trace, t) == None && LastOf(trace, t) == None
  {
    if trace != [] {
      RequestsFollow(Play(trace[..|trace| - 1]).value, trace[|trace| - 1]);
      NoRequestYet(trace[..|trace| - 1], t);
    }
  }

  lemma {:induction false} RunsRecall(trace: seq<Event>, t: nat)
    requires Play(trace).Some? && t < |Play(trace).value.requests|
    ensures Recalls(Play(trace).value.requests[t].pc, AnswerTo(trace, t), LastOf(trace, t), t)
  {
    var before, e := trace[..|trace| - 1], trace[|trace| - 1];
    var w := Play(before).value;
    RequestsFollow(w, e);
    if t < |w.requests| {
      RunsRecall(before, t);
      StepRecalls(w, e, t, AnswerTo(before, t), LastOf(before, t));
    } else {
      NoRequestYet(before, t);
    }
  }

  lemma {:induction false} RequestsAreArrivals(trace: seq<Event>)
    requires Play(trace).Some?
    ensures var w := Play(trace).value;
            && |ArrivalsOf(trace)| == |w.requests|
            && forall t :: 0 <= t < |w.requests| ==> ArrivedAs(ArrivalsOf(trace)[t], w.requests[t])
  {
    if trace != [] {
      RequestsAreArrivals(trace[..|trace| - 1]);
      RequestsFollow(Play(trace[..|trace| - 1]).value, trace[|trace| - 1]);
    }
  }

  function CachedIn(w: World, key: Key): Option<Body> {
    if key in w.cache then Some(w.cache[key]) else None
  }

  lemma CacheFollows(w: World, e: Event, key: Key)
    requires Possible(w, e)
    ensures CachedIn(Following(w, e), key)
         == if e == Vanish(key) then None
            else if e.Store? && e.works && w.requests[e.t].key == key then Some(w.requests[e.t].pc.body)
            else CachedIn(w, key)
  {
  }

  /** The cache, over every run of both endpoints: under each key it holds the body last stored there by a call that
      works, unless the entry vanished since. */
  lemma {:induction false} CacheIsLastStored(trace: seq<Event>, key: Key)
    requires Play(trace).Some?
    ensures CachedIn(Play(trace).value, key) == LastStored(trace, key)
  {
    if trace != [] {
      var before, e := trace[..|trace| - 1], trace[|trace| - 1];
      var w := Play(before).value;
      CacheIsLastStored(before, key);
      CacheFollows(w, e, key);
      if e.Store? {
        RunsRecall(before, e.t);
        RequestsAreArrivals(before);
        assert ArrivedAs(ArrivalsOf(before)[e.t], w.requests[e.t]);
      }
    }
  }

  /** What a look finds. */
  function FoundBy(trace: seq<Event>, key: Key, works: bool): Option<Body> {
    if works then LastStored(trace, key) else None
  }

  /** In every run and either endpoint, a look that works serves what was last stored, as a hit, and a look that
      fails or finds nothing serves nothing; a leader that finds it first gives the lock back. */
  lemma LookServesIff(trace: seq<Event>, t: nat, works: bool)
    requires Play(trace).Some? && Possible(Play(trace).value, Look(t, works))
    ensures Play(trace + [Look(t, works)]).Some?
    ensures var r, n := Play(trace).value.requests[t], Play(trace + [Look(t, works)]).value;
            var found := FoundBy(trace, r.key, works);
            && t < |n.requests|
            && (n.requests[t].pc.Done? <==> found.Some? && !r.pc.Rechecking?)
            && (n.requests[t].pc.Unlocking? <==> found.Some? && r.pc.Rechecking?)
            && (n.requests[t].pc.Done? ==> n.requests[t].pc == Done(true, 200, found.value))
            && (n.requests[t].pc.Unlocking? ==>
                  var m := Play(trace + [Look(t, works)] + [Unlock(t)]);
                  m.Some? && t < |m.value.requests| && m.value.requests[t].pc == Done(true, 200, found.value))
  {
    var longer := trace + [Look(t, works)];
    assert longer[..|trace|] == trace && (longer + [Unlock(t)])[..|longer|] == longer;
    CacheIsLastStored(trace, Play(trace).value.requests[t].key);
  }

  /** In every run, a request can store exactly right after its answer was judged with a status below 400; it then
      serves that answer, and what it stored by a call that works is what the next look for its key finds. */
  lemma StoresIff(trace: seq<Event>, t: nat, works: bool)
    requires Play(trace).Some? && t < |Play(trace).value.requests|
    ensures var answer := AnswerTo(trace, t);
            Play(trace + [Store(t, works)]).Some? <==>
            LastOf(trace, t) == Some(Judge(t)) && answer.Some? && answer.value.Replied? && answer.value.status < 400
    ensures Play(trace + [Store(t, works)]).Some? ==>
              var (r, n, answer) := (Play(trace).value.requests[t], Play(trace + [Store(t, works)]).value,
                                     AnswerTo(trace, t));
              && t < |n.requests| && n.requests[t].pc == Done(false, answer.value.status, answer.value.body)
              && LastStored(trace + [Store(t, works)], r.key)
                 == if works then Some(answer.value.body) else LastStored(trace, r.key)
  {
    var longer := trace + [Store(t, works)];
    assert longer[..|trace|] == trace;
    RunsRecall(trace, t);
    if Play(longer).Some? {
      var key := Play(trace).value.requests[t].key;
      CacheIsLastStored(trace, key);
      CacheIsLastStored(longer, key);
      CacheFollows(Play(trace).value, Store(t, works), key);
    }
  }

  /** In every run, how an answer is judged: a raise is an error; a good one is about to be stored; a bad one is
      served as it is, but for the free endpoint's server errors, whose text is hidden behind a status of 502. */
  lemma JudgedIff(trace: seq<Event>, t: nat)
    requires Play(trace).Some? && Possible(Play(trace).value, Judge(t))
    ensures Play(trace + [Judge(t)]).Some? && AnswerTo(trace, t).Some?
    ensures var (n, paid, answer) := (Play(trace + [Judge(t)]).value, Play(trace).value.requests[t].paid,
                                      AnswerTo(trace, t).value);
            && t < |n.requests|
            && (n.requests[t].pc.Errored? <==> answer.Raised?)
            && (n.requests[t].pc.Storing? <==> answer.Replied? && answer.status < 400)
            && (answer.Replied? && answer.status >= 400 ==>
                  n.requests[t].pc
                  == if answer.status < 500 || paid then Done(false, answer.status, answer.body)
                     else Done(false, 502, Body(if answer.body.error == "" then "Upstream runner error"
                                                else answer.body.error, "")))
  {
    assert (trace + [Judge(t)])[..|trace|] == trace;
    RunsRecall(trace, t);
  }

  /*** Single flight. ***/

  /** Between a successful acquire and its release. */
  predicate Holding(pc: Pc) {
    pc.Rechecking? || pc.Leading? || pc.Unlocking? || pc.Unprobing?
  }

  /** The lock of a key in a process is held exactly by the request of that process in that key's section. */
  ghost predicate Exclusive(w: World) {
    && (forall lock :: lock in w.locks ==>
          w.locks[lock] < |w.requests| && w.requests[w.locks[lock]].Lock() == lock
          && Holding(w.requests[w.locks[lock]].pc))
    && (forall t :: 0 <= t < |w.requests| && Holding(w.requests[t].pc) ==>
          w.requests[t].Lock() in w.locks && w.locks[w.requests[t].Lock()] == t)
  }

  lemma TriedKeepsExclusive(w: World, t: nat, won: Pc, lost: Pc)
    requires Exclusive(w) && t < |w.requests| && !Holding(w.requests[t].pc) && Holding(won) && !Holding(lost)
    ensures Exclusive(Tried(w, t, won, lost))
  {
    if w.requests[t].Lock() in w.locks {
      SameLocks(w, At(w, t, lost));
    } else {
      WonKeepsExclusive(w, t, won);
    }
  }

  lemma WonKeepsExclusive(w: World, t: nat, won: Pc)
    requires Exclusive(w) && t < |w.requests| && w.requests[t].Lock() !in w.locks && Holding(won)
    ensures Exclusive(At(w, t, won).(locks := w.locks[w.requests[t].Lock() := t]))
  {
    var n := At(w, t, won).(locks := w.locks[w.requests[t].Lock() := t]);
    forall lock | lock in n.locks
      ensures n.locks[lock] < |n.requests| && n.requests[n.locks[lock]].Lock() == lock
      ensures Holding(n.requests[n.locks[lock]].pc)
    {
      assert lock != w.requests[t].Lock() ==> lock in w.locks && w.locks[lock] != t;
    }
  }

  lemma FreedKeepsExclusive(w: World, t: nat, pc: Pc)
    requires Exclusive(w) && t < |w.requests| && Holding(w.requests[t].pc) && !Holding(pc)
    ensures Exclusive(Freed(w, t, pc))
  {
  }

  lemma EventKeepsExclusive(w: World, e: Event)
    requires Possible(w, e) && Exclusive(w)
    ensures Exclusive(Following(w, e))
  {
    match e
    case Acquire(t) => TriedKeepsExclusive(w, t, Rechecking, Waiting);
    case Probe(t) => TriedKeepsExclusive(w, t, Unprobing, Waiting);
    case Unlock(t) => FreedKeepsExclusive(w, t, Landed(w.requests[t].pc.landing));
    case Unprobe(t) => FreedKeepsExclusive(w, t, FallingBack);
    case _ => OthersKeepExclusive(w, Following(w, e), e);
  }

  lemma OthersKeepExclusive(w: World, n: World, e: Event)
    requires Possible(w, e) && Exclusive(w) && n == Following(w, e)
    requires !e.Acquire? && !e.Probe? && !e.Unlock? && !e.Unprobe?
    ensures Exclusive(n)
  {
    RequestsFollow(w, e);
    LocksFollow(w, e);
    SameLocks(w, n);
  }

  lemma SameLocks(w: World, n: World)
    requires Exclusive(w) && n.locks == w.locks && |w.requests| <= |n.requests|
    requires forall t :: 0 <= t < |w.requests| ==> n.requests[t].Lock() == w.requests[t].Lock()
    requires forall t :: 0 <= t < |n.requests| ==> (Holding(n.requests[t].pc) <==>
             t < |w.requests| && Holding(w.requests[t].pc))
    ensures Exclusive(n)
  {
  }

  lemma LocksFollow(w: World, e: Event)
    requires Possible(w, e)
    ensures !e.Acquire? && !e.Probe? && !e.Unlock? && !e.Unprobe? ==>
              && Following(w, e).locks == w.locks
              && forall t :: 0 <= t < |Following(w, e).requests| ==>
                   (Holding(Following(w, e).requests[t].pc) <==> t < |w.requests| && Holding(w.requests[t].pc))
  {
  }

  /** Single-flight safety, over every run: in each process at most one request per key leads, and the lock is free
      whenever none leads or probes, whatever the runner raised. */
  lemma {:induction false} OneLeaderPerKey(trace: seq<Event>)
    requires Play(trace).Some?
    ensures Exclusive(Play(trace).value)
    ensures var w := Play(trace).value;
            && (forall s, t ::
                  (0 <= s < |w.requests| && 0 <= t < |w.requests| && w.requests[s].Lock() == w.requests[t].Lock()
                   && Holding(w.requests[s].pc) && Holding(w.requests[t].pc)) ==> s == t)
            && (forall lock :: lock in w.locks <==>
                  exists t :: 0 <= t < |w.requests| && w.requests[t].Lock() == lock && Holding(w.requests[t].pc))
  {
    if trace != [] {
      OneLeaderPerKey(trace[..|trace| - 1]);
      EventKeepsExclusive(Play(trace[..|trace| - 1]).value, trace[|trace| - 1]);
    }
  }

  /*** One call each. ***/

  function CallsBy(calls: seq<Call>, t: nat): nat {
    if calls == [] then 0
    else CallsBy(calls[..|calls| - 1], t) + if calls[|calls| - 1].caller == t then 1 else 0
  }

  predicate HasCalled(pc: Pc) {
    match pc
    case Unlocking(landing) => landing.Ran?
    case Judging(_) => true
    case Storing(_, _) => true
    case Done(hit, _, _) => !hit
    case Errored => true
    case _ => false
  }

  ghost predicate Counted(w: World) {
    && (forall t :: 0 <= t < |w.requests| ==> CallsBy(w.calls, t) == if HasCalled(w.requests[t].pc) then 1 else 0)
    && (forall t: nat :: |w.requests| <= t ==> CallsBy(w.calls, t) == 0)
  }

  lemma CallsFollow(w: World, e: Event, t: nat)
    requires Possible(w, e)
    ensures CallsBy(Following(w, e).calls, t) == CallsBy(w.calls, t) + if e.Run? && e.t == t then 1 else 0
  {
    RequestsFollow(w, e);
    if e.Run? {
      assert Following(w, e).calls[..|w.calls|] == w.calls;
    }
  }

  lemma ActorCalls(w: World, e: Event)
    requires Possible(w, e) && Actor(e).Some?
    ensures var (t, n) := (Actor(e).value, Following(w, e));
            HasCalled(n.requests[t].pc) <==> HasCalled(w.requests[t].pc) || e.Run?
    ensures e.Run? ==> !HasCalled(w.requests[Actor(e).value].pc)
  {
  }

  lemma EventKeepsCounted(w: World, e: Event)
    requires Possible(w, e) && Counted(w)
    ensures Counted(Following(w, e))
  {
    var n := Following(w, e);
    RequestsFollow(w, e);
    forall t: nat
      ensures CallsBy(n.calls, t) == if t < |n.requests| && HasCalled(n.requests[t].pc) then 1 else 0
    {
      CallsFollow(w, e, t);
      if Actor(e) == Some(t) {
        ActorCalls(w, e);
      }
    }
  }

  /** Each request calls the runner at most once, and reports a hit exactly when it did not. */
  lemma {:induction false} OneCallEach(trace: seq<Event>, t: nat)
    requires Play(trace).Some? && t < |Play(trace).value.requests|
    ensures var w := Play(trace).value; Counted(w) && CallsBy(w.calls, t) <= 1
    ensures var w := Play(trace).value;
            w.requests[t].pc.Done? ==> (w.requests[t].pc.hit <==> CallsBy(w.calls, t) == 0)
  {
    RunsAreCounted(trace);
  }

  lemma {:induction false} RunsAreCounted(trace: seq<Event>)
    requires Play(trace).Some?
    ensures Counted(Play(trace).value)
  {
    if trace != [] {
      RunsAreCounted(trace[..|trace| - 1]);
      EventKeepsCounted(Play(trace[..|trace| - 1]).value, trace[|trace| - 1]);
    }
  }

  /*** When a waiter is served, and when it calls the runner. ***/

  /** A request turns to the fallback call exactly when its time is up, or when it gives back a lock it had
      only probed. */
  lemma FallsBackIff(w: World, e: Event, t: nat)
    requires Possible(w, e) && t < |w.requests| && !w.requests[t].pc.FallingBack?
    ensures Following(w, e).requests[t].pc.FallingBack? <==> e == Round(t, false) || e == Unprobe(t)
  {
  }

  /** The world an event of the run happened in. */
  ghost predicate Happened(trace: seq<Event>, j: nat, t: nat) {
    j < |trace| && Play(trace[..j]).Some? && t < |Play(trace[..j]).value.requests|
  }

  predicate MeetsFree(w: World, e: Event, t: nat) {
    e == Probe(t) && t < |w.requests| && w.requests[t].Lock() !in w.locks
  }

  predicate MeetsHeld(w: World, e: Event, t: nat) {
    e == Acquire(t) && t < |w.requests| && w.requests[t].Lock() in w.locks
  }

  ghost predicate ProbedFree(trace: seq<Event>, j: nat, t: nat) {
    Happened(trace, j, t) && MeetsFree(Play(trace[..j]).value, trace[j], t)
  }

  ghost predicate LostAt(trace: seq<Event>, j: nat, t: nat) {
    Happened(trace, j, t) && MeetsHeld(Play(trace[..j]).value, trace[j], t)
  }

  /** Some probe of the request found the lock free. */
  ghost predicate FoundFree(trace: seq<Event>, t: nat) {
    exists j: nat :: ProbedFree(trace, j, t)
  }

  /** The time of the request ran out. */
  ghost predicate RanOut(trace: seq<Event>, t: nat) {
    exists j: nat :: j < |trace| && trace[j] == Round(t, false)
  }

  /** The request lost the acquire, and so became a waiter. */
  ghost predicate Waited(trace: seq<Event>, t: nat) {
    exists j: nat :: LostAt(trace, j, t)
  }

  lemma HistoryGrows(trace: seq<Event>, e: Event, t: nat)
    requires Play(trace).Some?
    ensures RanOut(trace + [e], t) <==> RanOut(trace, t) || e == Round(t, false)
    ensures FoundFree(trace + [e], t) <==> FoundFree(trace, t) || MeetsFree(Play(trace).value, e, t)
    ensures Waited(trace + [e], t) <==> Waited(trace, t) || MeetsHeld(Play(trace).value, e, t)
  {
    RunningOutGrows(trace, e, t);
    FindingGrows(trace, e, t);
    WaitingGrows(trace, e, t);
  }

  lemma RunningOutGrows(trace: seq<Event>, e: Event, t: nat)
    ensures RanOut(trace + [e], t) <==> RanOut(trace, t) || e == Round(t, false)
  {
    var longer := trace + [e];
    if RanOut(trace, t) {
      var j: nat :| j < |trace| && trace[j] == Round(t, false);
      assert longer[j] == Round(t, false);
    }
    assert longer[|trace|] == e;
  }

  lemma FindingGrows(trace: seq<Event>, e: Event, t: nat)
    requires Play(trace).Some?
    ensures FoundFree(trace + [e], t) <==> FoundFree(trace, t) || MeetsFree(Play(trace).value, e, t)
  {
    var longer := trace + [e];
    assert longer[..|trace|] == trace && longer[|trace|] == e;
    assert MeetsFree(Play(trace).value, e, t) ==> ProbedFree(longer, |trace|, t);
    forall j: nat | j < |trace|
      ensures ProbedFree(longer, j, t) <==> ProbedFree(trace, j, t)
    {
      assert longer[..j] == trace[..j];
    }
  }

  lemma WaitingGrows(trace: seq<Event>, e: Event, t: nat)
    requires Play(trace).Some?
    ensures Waited(trace + [e], t) <==> Waited(trace, t) || MeetsHeld(Play(trace).value, e, t)
  {
    var longer := trace + [e];
    assert longer[..|trace|] == trace && longer[|trace|] == e;
    assert MeetsHeld(Play(trace).value, e, t) ==> LostAt(longer, |trace|, t);
    forall j: nat | j < |trace|
      ensures LostAt(longer, j, t) <==> LostAt(trace, j, t)
    {
      assert longer[..j] == trace[..j];
    }
  }

  /** What a request's place says of its past: whether it became a waiter, and whether it gave up waiting. */
  predicate Consistent(pc: Pc, waited: bool, gaveUp: bool) {
    match pc
    case Waiting => waited && !gaveUp
    case Polling => waited && !gaveUp
    case Probing => waited && !gaveUp
    case Unprobing => waited && gaveUp
    case FallingBack => waited && gaveUp
    case Judging(_) => waited <==> gaveUp
    case Storing(_, _) => waited <==> gaveUp
    case Errored => waited <==> gaveUp
    case Done(hit, _, _) => if waited then hit <==> !gaveUp else !gaveUp
    case _ => !waited && !gaveUp
  }

  lemma ConsistentStep(w: World, e: Event, t: nat, waited: bool, gaveUp: bool)
    requires Possible(w, e) && t < |w.requests| && Consistent(w.requests[t].pc, waited, gaveUp)
    ensures Consistent(Following(w, e).requests[t].pc, waited || MeetsHeld(w, e, t),
                       gaveUp || e == Round(t, false) || MeetsFree(w, e, t))
  {
    if Actor(e) != Some(t) {
      RequestsFollow(w, e);
    } else if e.Acquire? || e.Probe? || e.Unprobe? || e.Round? {
      WaitingStep(w, e, t, waited, gaveUp);
    } else {
      PlainStep(w, e, t, waited, gaveUp);
    }
  }

  lemma WaitingStep(w: World, e: Event, t: nat, waited: bool, gaveUp: bool)
    requires Possible(w, e) && Actor(e) == Some(t) && (e.Acquire? || e.Probe? || e.Unprobe? || e.Round?)
    requires Consistent(w.requests[t].pc, waited, gaveUp)
    ensures Consistent(Following(w, e).requests[t].pc, waited || MeetsHeld(w, e, t),
                       gaveUp || e == Round(t, false) || MeetsFree(w, e, t))
  {
  }

  lemma PlainStep(w: World, e: Event, t: nat, waited: bool, gaveUp: bool)
    requires Possible(w, e) && Actor(e) == Some(t) && !e.Acquire? && !e.Probe? && !e.Unprobe? && !e.Round?
    requires Consistent(w.requests[t].pc, waited, gaveUp)
    ensures Consistent(Following(w, e).requests[t].pc, waited, gaveUp)
  {
  }

  lemma {:induction false} HistoryIsConsistent(trace: seq<Event>, t: nat)
    requires Play(trace).Some?
    ensures var w := Play(trace).value;
            if t < |w.requests|
            then Consistent(w.requests[t].pc, Waited(trace, t), RanOut(trace, t) || FoundFree(trace, t))
            else !Waited(trace, t) && !RanOut(trace, t) && !FoundFree(trace, t)
  {
    if trace != [] {
      var before, e := trace[..|trace| - 1], trace[|trace| - 1];
      var w := Play(before).value;
      assert trace == before + [e];
      HistoryIsConsistent(before, t);
      HistoryGrows(before, e, t);
      RequestsFollow(w, e);
      if t < |w.requests| {
        ConsistentStep(w, e, t, Waited(before, t), RanOut(before, t) || FoundFree(before, t));
      }
    }
  }

  /** Some look of the waiter's rounds missed. */
  ghost predicate Missed(trace: seq<Event>, t: nat) {
    exists k: nat :: MissedAt(trace, k, t)
  }

  ghost predicate MissedAt(trace: seq<Event>, k: nat, t: nat) {
    && Happened(trace, k, t) && trace[k].Look? && trace[k].t == t
    && var w := Play(trace[..k]).value;
       w.requests[t].pc.Polling? && Seen(w, w.requests[t].key, trace[k].works) == None
  }

  lemma MissesStay(trace: seq<Event>, e: Event, t: nat)
    requires Missed(trace, t)
    ensures Missed(trace + [e], t)
  {
    var k: nat :| MissedAt(trace, k, t);
    assert (trace + [e])[..k] == trace[..k];
    assert MissedAt(trace + [e], k, t);
  }

  /** Before any probe there was a look that missed. */
  lemma {:induction false} ProbersMissed(trace: seq<Event>, t: nat)
    requires Play(trace).Some?
    requires FoundFree(trace, t) || (t < |Play(trace).value.requests| && Play(trace).value.requests[t].pc.Probing?)
    ensures Missed(trace, t)
  {
    var before, e := trace[..|trace| - 1], trace[|trace| - 1];
    var w := Play(before).value;
    assert trace == before + [e];
    FindingGrows(before, e, t);
    RequestsFollow(w, e);
    if FoundFree(before, t) || (t < |w.requests| && w.requests[t].pc.Probing?) {
      ProbersMissed(before, t);
      MissesStay(before, e, t);
    } else {
      assert trace[..|before|] == before;
      assert MissedAt(trace, |before|, t);
    }
  }

  /** In every run, a waiter that is done was served from the cache if and only if its time did not run out and
      no probe of it, made after a look that missed, found the lock free; otherwise it called the runner. */
  lemma WaitersAreServedIff(trace: seq<Event>, t: nat)
    requires Play(trace).Some? && t < |Play(trace).value.requests|
    requires Waited(trace, t) && Play(trace).value.requests[t].pc.Done?
    ensures var w := Play(trace).value;
            && (w.requests[t].pc.hit <==> !RanOut(trace, t) && !FoundFree(trace, t))
            && (CallsBy(w.calls, t) == 1 <==> RanOut(trace, t) || FoundFree(trace, t))
            && (w.requests[t].pc.hit ==> Produced(w.calls, w.requests[t].key, w.requests[t].pc.body))
            && (FoundFree(trace, t) ==> Missed(trace, t))
  {
    HistoryIsConsistent(trace, t);
    OneCallEach(trace, t);
    HitsComeFromTheRunner(trace);
    if FoundFree(trace, t) {
      ProbersMissed(trace, t);
    }
  }

  /*** Two calls for one key. ***/

  lemma Append(trace: seq<Event>, e: Event) returns (longer: seq<Event>)
    requires Play(trace).Some? && Possible(Play(trace).value, e)
    ensures Play(longer) == Some(Following(Play(trace).value, e))
  {
    longer := trace + [e];
    assert longer[..|trace|] == trace;
  }

  /** The run has one request, and leads to this world. */
  predicate Alone(trace: seq<Event>, cache: map<Key, Body>, locks: map<Flight, nat>, calls: seq<Call>, r: Request) {
    && Play(trace).Some? && Play(trace).value.cache == cache && Play(trace).value.locks == locks
    && Play(trace).value.calls == calls && Play(trace).value.requests == [r]
  }

  lemma PaidAsks(process: nat, key: Key, answer: Answer) returns (trace: seq<Event>)
    ensures Alone(trace, map[], map[], [Call(0, key, answer)], Request(process, key, true, Judging(answer)))
  {
    trace := Append([], Arrive(process, key, true));
    trace := Append(trace, Look(0, true));
    assert Alone(trace, map[], map[], [], Request(process, key, true, PaidCalling));
    trace := Append(trace, Run(0, answer));
  }

  lemma FreeLeads(process: nat, key: Key) returns (trace: seq<Event>)
    ensures Alone(trace, map[], map[Flight(process, key) := 0], [], Request(process, key, false, Leading))
  {
    trace := Append([], Arrive(process, key, false));
    trace := Append(trace, Look(0, true));
    trace := Append(trace, Look(0, true));
    assert Alone(trace, map[], map[], [], Request(process, key, false, Locking));
    trace := Append(trace, Acquire(0));
    trace := Append(trace, Look(0, true));
  }

  lemma FreeAsks(process: nat, key: Key, answer: Answer) returns (trace: seq<Event>)
    ensures Alone(trace, map[], map[], [Call(0, key, answer)], Request(process, key, false, Judging(answer)))
  {
    trace := FreeLeads(process, key);
    trace := Append(trace, Run(0, answer));
    trace := Append(trace, Unlock(0));
  }

  /** A request of either endpoint that finds nothing calls the runner; a good answer is stored. */
  lemma FirstStores(process: nat, key: Key, paid: bool, status: nat, body: Body) returns (trace: seq<Event>)
    requires status < 400
    ensures Alone(trace, map[key := body], map[], [Call(0, key, Replied(status, body))],
                  Request(process, key, paid, Done(false, status, body)))
  {
    if paid {
      trace := PaidAsks(process, key, Replied(status, body));
    } else {
      trace := FreeAsks(process, key, Replied(status, body));
    }
    trace := Append(trace, Judge(0));
    trace := Append(trace, Store(0, true));
  }

  /** The next request for the key, of either endpoint and in any process, is served from the cache, without a
      second call. */
  lemma SecondHits(process: nat, key: Key, paid: bool, status: nat, body: Body, other: nat, alsoPaid: bool)
    returns (trace: seq<Event>)
    requires status < 400
    ensures Play(trace).Some?
    ensures Play(trace).value.calls == [Call(0, key, Replied(status, body))]
    ensures Play(trace).value.requests == [Request(process, key, paid, Done(false, status, body)),
                                           Request(other, key, alsoPaid, Done(true, 200, body))]
  {
    trace := FirstStores(process, key, paid, status, body);
    trace := Append(trace, Arrive(other, key, alsoPaid));
    trace := Append(trace, Look(1, true));
  }

  lemma LeaderWithWaiter(key: Key) returns (trace: seq<Event>)
    ensures Play(trace).Some?
    ensures var w := Play(trace).value;
            && w.requests == [Request(0, key, false, Leading), Request(0, key, false, Waiting)]
            && w.cache == map[] && w.calls == [] && w.locks == map[Flight(0, key) := 0]
  {
    trace := [];
    trace := Append(trace, Arrive(0, key, false));
    trace := Append(trace, Look(0, true));
    trace := Append(trace, Look(0, true));
    trace := Append(trace, Acquire(0));
    trace := Append(trace, Look(0, true));
    trace := Append(trace, Arrive(0, key, false));
    trace := Append(trace, Look(1, true));
    trace := Append(trace, Look(1, true));
    trace := Append(trace, Acquire(1));
  }

  /** The waiters of a successful leader are not sure to be served from the cache, as the class comment of
      `SingleFlight` has it: the leader stores its reply only after giving the lock back, so a waiter that
      looks and probes in between calls the runner too, though every cache call works. */
  lemma WaiterCallsToo(key: Key, body: Body) returns (trace: seq<Event>)
    ensures Play(trace).Some?
    ensures var w := Play(trace).value;
            && w.requests == [Request(0, key, false, Done(false, 200, body)),
                              Request(0, key, false, Done(false, 200, body))]
            && w.calls == [Call(0, key, Replied(200, body)), Call(1, key, Replied(200, body))]
  {
    trace := WaiterFallsBack(key, body);
    trace := Append(trace, Run(1, Replied(200, body)));
    trace := Append(trace, Store(0, true));
    trace := Append(trace, Judge(1));
    trace := Append(trace, Store(1, true));
  }

  lemma WaiterFallsBack(key: Key, body: Body) returns (trace: seq<Event>)
    ensures Play(trace).Some?
    ensures var w := Play(trace).value;
            && w.requests == [Request(0, key, false, Storing(200, body)), Request(0, key, false, FallingBack)]
            && w.calls == [Call(0, key, Replied(200, body))]
  {
    trace := LeaderWithWaiter(key);
    trace := Append(trace, Run(0, Replied(200, body)));
    trace := Append(trace, Unlock(0));
    trace := Append(trace, Judge(0));
    trace := Append(trace, Round(1, true));
    trace := Append(trace, Look(1, true));
    trace := Append(trace, Probe(1));
    trace := Append(trace, Unprobe(1));
  }
}
