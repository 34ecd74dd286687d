/** One warm runtime and its child, byte by byte.

    The parent writes a request line to the child's stdin and reads one reply line from its stdout;
    the child serves lines as they become complete. Between any two of their steps the child may die,
    a deadline may pass, and another thread may stop the runtime. The module proves that a result handed
    to a caller is always the child's reply to that caller's own request. */
module PipeProtocol {
  import opened Wrappers
  import opened Streams

  type Bytes = seq<Byte>

  /** The shape of a request: the parent sends JSON objects, `{...}`, dumped without newlines. */
  predicate IsRequest(line: Bytes) {
    |line| >= 2 && line[0] == 123 && line[|line| - 1] == 125 && OneLine(line)
  }

  /** What the child does with a complete line after stripping it: skip, answer PONG, or serve it. */
  predicate IsSpace(b: Byte) {
    9 <= b <= 13 || b == 32 || 28 <= b <= 31
  }

  function StripLeft(s: Bytes): Bytes {
    if s != [] && IsSpace(s[0]) then StripLeft(s[1..]) else s
  }

  function StripRight(s: Bytes): Bytes {
    if s != [] && IsSpace(s[|s| - 1]) then StripRight(s[..|s| - 1]) else s
  }

  function Strip(s: Bytes): Bytes {
    StripRight(StripLeft(s))
  }

  const PING: Bytes := [80, 73, 78, 71]
  const PONG: Bytes := [80, 79, 78, 71]

  /*** State. ***/

  datatype Status = Starting | Ready | Unhealthy | Stopped

  /** A running child: its two pipes, and whether it is alive and has sent its readiness frame. */
  datatype Child = Child(inbox: Bytes, outbox: Bytes, alive: bool, greeted: bool)

  /** What the thread that holds the runtime's lock is doing. `at` is where the log says so. */
  datatype Call =
    | Idle
    | Booting(request: Option<Bytes>, got: Bytes, at: nat)
    | Writing(line: Bytes, sent: nat, at: nat)
    | Reading(line: Bytes, got: Bytes, at: nat)

  /** What happened, in order. */
  datatype Item =
    | Called(line: Bytes)
    | Spawned
    | Killed
    | Served(line: Bytes, reply: Bytes)
    | Returned(result: Bytes)
    | Failed

  datatype State = State(status: Status, restarts: nat, child: Option<Child>, call: Call, log: seq<Item>)

  datatype Event =
    | Start
    | Predict(line: Bytes)
    | ChildGreets(frame: Bytes)
    | ChildServes(reply: Bytes)
    | ChildDies
    | ParentWrites(n: nat)
    | ParentReads(n: nat, wellFormed: bool)
    | Fault
    | OutsideStop

  const MAX_RESTARTS := 3

  /*** Steps. ***/

  /** `stop`: the child is gone and its pipes with it. */
  function Killing(s: State): State {
    match s.child
    case None => s.(status := Stopped)
    case Some(_) => s.(status := Stopped, child := None, log := s.log + [Killed])
  }

  /** `start`, up to waiting for the readiness frame. */
  function Spawning(s: State, request: Option<Bytes>, at: nat): State {
    s.(status := Starting, child := Some(Child([], [], true, false)), call := Booting(request, [], at),
       log := s.log + [Spawned])
  }

  /** The exception path of `start` and `predict`: the child is stopped and the caller gets an error. */
  function Failing(s: State): State {
    var t := Killing(s);
    t.(call := Idle, log := t.log + [Failed])
  }

  /** The start of the exchange proper: too long a request is refused, and the child stopped. */
  function Sending(s: State, line: Bytes, at: nat, limit: nat): State {
    if |line| + 1 > limit then Failing(s) else s.(call := Writing(line, 0, at))
  }

  predicate Enabled(s: State, e: Event, limit: nat) {
    match e
    case Start => s.status.Starting? && s.child.None? && s.call.Idle? && s.log == []
    case Predict(line) => s.call.Idle? && IsRequest(line)
    case ChildGreets(frame) => s.child.Some? && s.child.value.alive && !s.child.value.greeted && OneLine(frame)
    case ChildServes(reply) =>
      && s.child.Some? && s.child.value.alive && s.child.value.greeted
      && !OneLine(s.child.value.inbox) && OneLine(reply)
    case ChildDies => s.child.Some? && s.child.value.alive
    case ParentWrites(n) =>
      && s.call.Writing? && s.child.Some? && s.child.value.alive
      && 1 <= n <= Min(65536, |s.call.line| + 1 - s.call.sent)
    case ParentReads(n, _) =>
      && (s.call.Reading? || s.call.Booting?) && s.child.Some?
      && 1 <= n <= Min(ReadLimit(s.call.got, limit), |s.child.value.outbox|)
    case Fault => !s.call.Idle?
    case OutsideStop => true
  }

  /** The child takes the first complete line from its stdin and answers it. */
  function Serving(s: State, reply: Bytes): State
    requires s.child.Some?
  {
    var c := s.child.value;
    var n := FirstNewline(c.inbox);
    if n == |c.inbox| then s
    else
      var line, rest := c.inbox[..n], c.inbox[n + 1..];
      if Strip(line) == [] then s.(child := Some(c.(inbox := rest)))
      else if Strip(line) == PING then s.(child := Some(c.(inbox := rest, outbox := c.outbox + PONG + [NEWLINE])))
      else
        s.(child := Some(c.(inbox := rest, outbox := c.outbox + reply + [NEWLINE])),
           log := s.log + [Served(line, reply)])
  }

  /** The parent takes `n` bytes from the child's stdout; bytes after a newline are lost. */
  function Receiving(s: State, n: nat, wellFormed: bool, limit: nat): State
    requires (s.call.Reading? || s.call.Booting?) && s.child.Some? && n <= |s.child.value.outbox|
  {
    var c := s.child.value;
    var t := s.(child := Some(c.(outbox := c.outbox[n..])));
    match Accept(s.call.got, c.outbox[..n], limit)
    case TooLong => Failing(t)
    case More(got) => t.(call := s.call.(got := got))
    case Complete(line) =>
      if !wellFormed then Failing(t)
      else if s.call.Reading? then t.(call := Idle, log := t.log + [Returned(line)])
      else
        match s.call.request
        case None => t.(status := Ready, call := Idle)
        case Some(request) => Sending(t.(status := Ready), request, s.call.at, limit)
  }

  function Next(s: State, e: Event, limit: nat): State
    requires Enabled(s, e, limit)
  {
    match e
    case Start => Spawning(s, None, 0)
    case Predict(line) =>
      var t := s.(log := s.log + [Called(line)]);
      if s.status.Ready? && s.child.Some? && s.child.value.alive then
        Sending(t, line, |s.log|, limit)
      else if s.restarts < MAX_RESTARTS then
        Spawning(Killing(t.(restarts := s.restarts + 1)), Some(line), |s.log|)
      else
        t.(status := Unhealthy, log := t.log + [Failed])
    case ChildGreets(frame) =>
      s.(child := Some(s.child.value.(outbox := s.child.value.outbox + frame + [NEWLINE], greeted := true)))
    case ChildServes(reply) => Serving(s, reply)
    case ChildDies => s.(child := Some(s.child.value.(alive := false)))
    case ParentWrites(n) =>
      var c, payload := s.child.value, s.call.line + [NEWLINE];
      var sent := s.call.sent + n;
      var t := s.(child := Some(c.(inbox := c.inbox + payload[s.call.sent..sent])));
      if sent == |payload| then t.(call := Reading(s.call.line, [], s.call.at))
      else t.(call := s.call.(sent := sent))
    case ParentReads(n, wellFormed) => Receiving(s, n, wellFormed, limit)
    case Fault => Failing(s)
    case OutsideStop => Killing(s)
  }

  /*** Reading the log. ***/

  /** The child's answers among some items. */
  function Serves(items: seq<Item>): seq<Item> {
    if items == [] then []
    else Serves(items[..|items| - 1]) + if items[|items| - 1].Served? then [items[|items| - 1]] else []
  }

  /** No caller came or went. */
  predicate Calm(items: seq<Item>) {
    forall i :: 0 <= i < |items| ==> !items[i].Called? && !items[i].Returned? && !items[i].Failed?
  }

  /** The result at `j` answers the call at `at`: since then the child served exactly one line, the line
      of that call, and its reply is the result. */
  predicate Answers(log: seq<Item>, at: nat, j: nat) {
    && at < j < |log| && log[at].Called? && log[j].Returned?
    && Calm(log[at + 1..j])
    && Serves(log[at + 1..j]) == [Served(log[at].line, log[j].result)]
  }

  predicate Answered(log: seq<Item>, j: nat) {
    exists at :: 0 <= at < j && Answers(log, at, j)
  }

  function Spawns(log: seq<Item>): nat {
    if log == [] then 0 else Spawns(log[..|log| - 1]) + if log[|log| - 1].Spawned? then 1 else 0
  }

  /*** What every step keeps. ***/

  /** One line and its newline, and nothing after it. */
  predicate OneFrame(s: Bytes) {
    s != [] && FirstNewline(s) == |s| - 1
  }

  predicate InCall(s: State, line: Bytes, at: nat, serves: seq<Item>) {
    && at < |s.log| && s.log[at] == Called(line) && IsRequest(line)
    && Calm(s.log[at + 1..]) && Serves(s.log[at + 1..]) == serves
  }

  /** The pipes hold what the protocol allows at this point of the call. */
  predicate Synchronised(s: State) {
    match s.call
    case Idle =>
      s.child.Some? ==>
        && (s.child.value.alive ==> s.status.Ready?)
        && s.child.value.greeted && s.child.value.inbox == s.child.value.outbox == []
    case Booting(request, got, at) =>
      && (request.Some? ==> InCall(s, request.value, at, []))
      && (s.child.Some? ==>
            && s.child.value.inbox == []
            && if s.child.value.greeted then OneFrame(got + s.child.value.outbox)
               else got == s.child.value.outbox == [])
    case Writing(line, sent, at) =>
      && InCall(s, line, at, []) && sent <= |line|
      && (s.child.Some? ==>
            && s.status.Ready? && s.child.value.greeted
            && s.child.value.inbox == line[..sent] && s.child.value.outbox == [])
    case Reading(line, got, at) =>
      s.child.Some? ==>
        && s.status.Ready? && s.child.value.greeted
        && (|| (s.child.value.inbox == line + [NEWLINE] && got == s.child.value.outbox == [] && InCall(s, line, at, []))
            || (&& s.child.value.inbox == [] && OneFrame(got + s.child.value.outbox)
                && InCall(s, line, at, [Served(line, Reply(got + s.child.value.outbox))])))
  }

  function Reply(frame: Bytes): Bytes {
    if frame == [] then [] else frame[..|frame| - 1]
  }

  predicate Sound(s: State) {
    && Synchronised(s)
    && (forall j :: 0 <= j < |s.log| && s.log[j].Returned? ==> Answered(s.log, j))
    && s.restarts <= MAX_RESTARTS
    && Spawns(s.log) <= s.restarts + (if s.log == [] then 0 else 1)
    && (s.log != [] && s.log[|s.log| - 1].Failed? ==> s.child.None? || !s.child.value.alive)
  }

  lemma ServesSnoc(items: seq<Item>, item: Item)
    ensures Serves(items + [item]) == Serves(items) + if item.Served? then [item] else []
  {
    assert (items + [item])[..|items|] == items;
  }

  lemma SpawnsSnoc(log: seq<Item>, item: Item)
    ensures Spawns(log + [item]) == Spawns(log) + if item.Spawned? then 1 else 0
  {
    assert (log + [item])[..|log|] == log;
  }

  /** An item that is no boundary extends the call it happens in. */
  lemma CallGoesOn(s: State, line: Bytes, at: nat, serves: seq<Item>, item: Item)
    requires InCall(s, line, at, serves) && !item.Called? && !item.Returned? && !item.Failed?
    ensures InCall(s.(log := s.log + [item]), line, at, serves + if item.Served? then [item] else [])
  {
    assert (s.log + [item])[at + 1..] == s.log[at + 1..] + [item];
    ServesSnoc(s.log[at + 1..], item);
  }

  /** Results already answered stay answered, and a new one is answered if the call says so. */
  lemma AnsweredAppend(log: seq<Item>, item: Item)
    requires forall j :: 0 <= j < |log| && log[j].Returned? ==> Answered(log, j)
    requires item.Returned? ==> Answered(log + [item], |log|)
    ensures forall j :: 0 <= j < |log + [item]| && (log + [item])[j].Returned? ==> Answered(log + [item], j)
  {
    var more := log + [item];
    forall j | 0 <= j < |log| && more[j].Returned?
      ensures Answered(more, j)
    {
      var at :| 0 <= at < j && Answers(log, at, j);
      assert more[at + 1..j] == log[at + 1..j];
      assert Answers(more, at, j);
    }
  }

  /** However a frame is split, the newline is in the last part. */
  lemma SplitFrame(a: Bytes, b: Bytes)
    requires OneFrame(a + b) && b != []
    ensures OneLine(a) && OneFrame(b)
  {
    FirstNewlineOfConcat(a, b);
  }

  /** The last part of a frame ends it; any other part goes on without a newline. */
  lemma LastPart(got: Bytes, outbox: Bytes)
    requires OneFrame(got + outbox) && outbox != []
    ensures FirstNewline(outbox) == |outbox| - 1
    ensures Reply(got + outbox) == got + outbox[..|outbox| - 1]
  {
    SplitFrame(got, outbox);
  }

  lemma EarlyPart(got: Bytes, outbox: Bytes, n: nat)
    requires OneFrame(got + outbox) && 1 <= n < |outbox|
    ensures OneLine(outbox[..n])
    ensures got + outbox[..n] + outbox[n..] == got + outbox
  {
    SplitFrame(got, outbox);
    assert outbox == outbox[..n] + outbox[n..];
    SplitFrame(outbox[..n], outbox[n..]);
  }

  lemma ReceiveFrame(got: Bytes, outbox: Bytes, n: nat, limit: nat)
    requires OneFrame(got + outbox) && 1 <= n <= |outbox|
    ensures match Accept(got, outbox[..n], limit)
            case Complete(line) => outbox[n..] == [] && line == Reply(got + outbox)
            case More(more) => more + outbox[n..] == got + outbox
            case TooLong => true
  {
    if n == |outbox| {
      LastPart(got, outbox);
      assert outbox[..n] == outbox;
    } else {
      EarlyPart(got, outbox, n);
    }
  }

  predicate AllSpace(s: Bytes) {
    forall i :: 0 <= i < |s| ==> IsSpace(s[i])
  }

  lemma {:induction false} StripLeftMeans(s: Bytes) returns (left: Bytes)
    ensures s == left + StripLeft(s) && AllSpace(left)
    ensures StripLeft(s) != [] ==> !IsSpace(StripLeft(s)[0])
  {
    if s != [] && IsSpace(s[0]) {
      left := StripLeftMeans(s[1..]);
      left := [s[0]] + left;
    } else {
      left := [];
    }
  }

  lemma {:induction false} StripRightMeans(s: Bytes) returns (right: Bytes)
    ensures s == StripRight(s) + right && AllSpace(right)
    ensures StripRight(s) != [] ==> !IsSpace(StripRight(s)[|StripRight(s)| - 1])
  {
    if s != [] && IsSpace(s[|s| - 1]) {
      right := StripRightMeans(s[..|s| - 1]);
      right := right + [s[|s| - 1]];
    } else {
      right := [];
    }
  }

  /** Stripping takes off spaces at both ends, and all of them. */
  lemma StripMeans(s: Bytes) returns (left: Bytes, right: Bytes)
    ensures s == left + Strip(s) + right && AllSpace(left) && AllSpace(right)
    ensures Strip(s) != [] ==> !IsSpace(Strip(s)[0]) && !IsSpace(Strip(s)[|Strip(s)| - 1])
  {
    left := StripLeftMeans(s);
    right := StripRightMeans(StripLeft(s));
    assert left + (Strip(s) + right) == left + Strip(s) + right;
    assert Strip(s) != [] ==> StripLeft(s)[0] == Strip(s)[0];
  }

  lemma StripRequest(line: Bytes)
    requires IsRequest(line)
    ensures Strip(line) == line && line != PING
  {
  }

  lemma FramedLine(line: Bytes)
    requires OneLine(line)
    ensures FirstNewline(line + [NEWLINE]) == |line|
  {
    FirstNewlineOfConcat(line, [NEWLINE]);
  }

  lemma PartOfLine(line: Bytes, n: nat)
    requires OneLine(line) && n <= |line|
    ensures OneLine(line[..n])
  {
    assert line == line[..n] + line[n..];
    FirstNewlineOfConcat(line[..n], line[n..]);
  }

  /*** One lemma per kind of step. ***/

  lemma KillingKeepsSound(s: State)
    requires Sound(s)
    ensures Sound(Killing(s))
  {
    if s.child.Some? {
      AnsweredAppend(s.log, Killed);
      SpawnsSnoc(s.log, Killed);
      match s.call
      case Idle =>
      case Booting(request, _, at) =>
        if request.Some? {
          CallGoesOn(s, request.value, at, [], Killed);
        }
      case Writing(line, _, at) => CallGoesOn(s, line, at, [], Killed);
      case Reading(line, _, at) =>
    }
  }

  lemma FailingKeepsSound(s: State)
    requires Sound(s)
    ensures Sound(Failing(s))
  {
    KillingKeepsSound(s);
    GivingUpKeepsSound(Killing(s));
  }

  lemma GivingUpKeepsSound(t: State)
    requires Sound(t) && t.child.None?
    ensures Sound(t.(call := Idle, log := t.log + [Failed]))
  {
    AnsweredAppend(t.log, Failed);
    SpawnsSnoc(t.log, Failed);
  }

  /** Beginning the exchange on a synchronised idle runtime. */
  lemma SendingKeepsSound(s: State, line: Bytes, at: nat, limit: nat)
    requires Sound(s) && s.call.Idle? && s.status.Ready? && s.child.Some? && InCall(s, line, at, [])
    ensures Sound(Sending(s, line, at, limit))
  {
    if |line| + 1 > limit {
      FailingKeepsSound(s);
    }
  }

  lemma PredictKeepsSound(s: State, line: Bytes, limit: nat)
    requires Sound(s) && Enabled(s, Predict(line), limit)
    ensures Sound(Next(s, Predict(line), limit))
  {
    var t := s.(log := s.log + [Called(line)]);
    AnsweredAppend(s.log, Called(line));
    SpawnsSnoc(s.log, Called(line));
    assert t.log[|s.log| + 1..] == [];
    assert InCall(t, line, |s.log|, []);
    if s.status.Ready? && s.child.Some? && s.child.value.alive {
      SendingKeepsSound(t, line, |s.log|, limit);
    } else if s.restarts < MAX_RESTARTS {
      RestartKeepsSound(t, line, |s.log|);
    } else {
      AnsweredAppend(t.log, Failed);
      SpawnsSnoc(t.log, Failed);
    }
  }

  lemma RestartKeepsSound(t: State, line: Bytes, at: nat)
    requires Sound(t) && t.call.Idle? && t.restarts < MAX_RESTARTS && InCall(t, line, at, [])
    ensures Sound(Spawning(Killing(t.(restarts := t.restarts + 1)), Some(line), at))
  {
    var more := t.(restarts := t.restarts + 1);
    var k := Killing(more);
    KillingKeepsSound(more);
    if t.child.Some? {
      CallGoesOn(t, line, at, [], Killed);
      SpawnsSnoc(t.log, Killed);
    }
    SpawningKeepsSound(k, line, at);
  }

  lemma SpawningKeepsSound(k: State, line: Bytes, at: nat)
    requires Sound(k) && k.call.Idle? && k.child.None? && InCall(k, line, at, []) && Spawns(k.log) <= k.restarts
    ensures Sound(Spawning(k, Some(line), at))
  {
    CallGoesOn(k, line, at, [], Spawned);
    AnsweredAppend(k.log, Spawned);
    SpawnsSnoc(k.log, Spawned);
  }

  /** Only a call that is waiting for its reply has a complete line in the child's stdin: its own. */
  lemma OnlyTheRequest(s: State)
    requires Synchronised(s) && s.child.Some? && s.child.value.greeted && !OneLine(s.child.value.inbox)
    ensures s.call.Reading? && s.child.value.inbox == s.call.line + [NEWLINE]
    ensures s.call.got == s.child.value.outbox == [] && InCall(s, s.call.line, s.call.at, [])
  {
    if s.call.Writing? {
      PartOfLine(s.call.line, s.call.sent);
    }
  }

  lemma ServingTheRequest(s: State, reply: Bytes, line: Bytes)
    requires s.child.Some? && s.child.value.inbox == line + [NEWLINE] && s.child.value.outbox == [] && IsRequest(line)
    ensures Serving(s, reply)
            == s.(child := Some(s.child.value.(inbox := [], outbox := reply + [NEWLINE])),
                  log := s.log + [Served(line, reply)])
  {
    var inbox := line + [NEWLINE];
    FramedLine(line);
    StripRequest(line);
    assert inbox[..|line|] == line && inbox[|line| + 1..] == [];
    assert [] + reply + [NEWLINE] == reply + [NEWLINE];
  }

  /** The child's loop takes one line at a time: a blank one is skipped, PING is answered by PONG, and any other is
      served, whatever comes after it. */
  lemma ServingALine(s: State, reply: Bytes, line: Bytes, rest: Bytes)
    requires s.child.Some? && s.child.value.inbox == line + [NEWLINE] + rest && OneLine(line)
    ensures var (c, n) := (s.child.value, Serving(s, reply));
            && n.child.Some? && n.child.value.inbox == rest && n.call == s.call && n.status == s.status
            && n.child.value.outbox
               == c.outbox + (if Strip(line) == [] then [] else if Strip(line) == PING then [80, 79, 78, 71, NEWLINE]
                              else reply + [NEWLINE])
            && n.log == if Strip(line) == [] || Strip(line) == PING then s.log else s.log + [Served(line, reply)]
  {
    var inbox := s.child.value.inbox;
    FramedLine(line);
    FirstNewlineOfConcat(line + [NEWLINE], rest);
    assert inbox[..|line|] == line && inbox[|line| + 1..] == rest;
    assert s.child.value.outbox + PONG + [NEWLINE] == s.child.value.outbox + [80, 79, 78, 71, NEWLINE];
    assert s.child.value.outbox + reply + [NEWLINE] == s.child.value.outbox + (reply + [NEWLINE]);
  }

  lemma ReplyIsOneFrame(reply: Bytes)
    requires OneLine(reply)
    ensures OneFrame([] + (reply + [NEWLINE])) && Reply([] + (reply + [NEWLINE])) == reply
  {
    FramedLine(reply);
    assert [] + (reply + [NEWLINE]) == reply + [NEWLINE];
  }

  lemma ServingKeepsSound(s: State, reply: Bytes, limit: nat)
    requires Sound(s) && Enabled(s, ChildServes(reply), limit)
    ensures Sound(Next(s, ChildServes(reply), limit))
  {
    OnlyTheRequest(s);
    ServingTheRequest(s, reply, s.call.line);
    ReplyIsOneFrame(reply);
    var item := Served(s.call.line, reply);
    CallGoesOn(s, s.call.line, s.call.at, [], item);
    AnsweredAppend(s.log, item);
    SpawnsSnoc(s.log, item);
  }

  /** The parent has the whole reply: the child served this call, and its pipes are empty again. */
  lemma ReturningKeepsSound(s: State, idle: State, result: Bytes)
    requires Sound(s) && s.call.Reading? && s.child.Some? && s.child.value.outbox != []
    requires result == Reply(s.call.got + s.child.value.outbox)
    requires idle == s.(child := Some(s.child.value.(outbox := [])), call := Idle, log := s.log + [Returned(result)])
    ensures Sound(idle)
  {
    var at := s.call.at;
    assert InCall(s, s.call.line, at, [Served(s.call.line, result)]);
    assert idle.log[at + 1..|s.log|] == s.log[at + 1..];
    assert Answers(idle.log, at, |s.log|);
    AnsweredAppend(s.log, Returned(result));
    SpawnsSnoc(s.log, Returned(result));
  }

  /** The parent has part of a frame. */
  lemma MoreKeepsSound(s: State, got: Bytes, outbox: Bytes)
    requires Sound(s) && (s.call.Reading? || s.call.Booting?) && s.child.Some? && s.child.value.outbox != []
    requires got + outbox == s.call.got + s.child.value.outbox
    ensures Sound(s.(child := Some(s.child.value.(outbox := outbox)), call := s.call.(got := got)))
  {
  }

  lemma ReceivingKeepsSound(s: State, n: nat, wellFormed: bool, limit: nat)
    requires Sound(s) && Enabled(s, ParentReads(n, wellFormed), limit)
    ensures Sound(Next(s, ParentReads(n, wellFormed), limit))
  {
    var c := s.child.value;
    var t := s.(child := Some(c.(outbox := c.outbox[n..])));
    assert Failing(t) == Failing(s);
    FailingKeepsSound(s);
    assert c.greeted && OneFrame(s.call.got + c.outbox);
    ReceiveFrame(s.call.got, c.outbox, n, limit);
    match Accept(s.call.got, c.outbox[..n], limit)
    case TooLong =>
    case More(got) => MoreKeepsSound(s, got, c.outbox[n..]);
    case Complete(result) =>
      if !wellFormed {
      } else if s.call.Reading? {
        ReturningKeepsSound(s, t.(call := Idle, log := t.log + [Returned(result)]), result);
      } else if s.call.request.Some? {
        SendingKeepsSound(t.(status := Ready, call := Idle), s.call.request.value, s.call.at, limit);
      }
  }

  lemma GreetingKeepsSound(s: State, frame: Bytes, limit: nat)
    requires Sound(s) && Enabled(s, ChildGreets(frame), limit)
    ensures Sound(Next(s, ChildGreets(frame), limit))
  {
    ReplyIsOneFrame(frame);
    assert s.child.value.outbox == [] && [] + frame + [NEWLINE] == frame + [NEWLINE];
  }

  lemma WritingKeepsSound(s: State, n: nat, limit: nat)
    requires Sound(s) && Enabled(s, ParentWrites(n), limit)
    ensures Sound(Next(s, ParentWrites(n), limit))
  {
    var line, sent := s.call.line, s.call.sent;
    var payload := line + [NEWLINE];
    assert line[..sent] + payload[sent..sent + n] == payload[..sent + n];
    if sent + n == |payload| {
      assert payload[..sent + n] == payload;
    } else {
      assert payload[..sent + n] == line[..sent + n];
    }
  }

  lemma StartKeepsSound(s: State, limit: nat)
    requires Sound(s) && Enabled(s, Start, limit)
    ensures Sound(Next(s, Start, limit))
  {
    SpawnsSnoc(s.log, Spawned);
  }

  lemma DyingKeepsSound(s: State, limit: nat)
    requires Sound(s) && Enabled(s, ChildDies, limit)
    ensures Sound(Next(s, ChildDies, limit))
  {
  }

  lemma StepKeepsSound(s: State, e: Event, limit: nat)
    requires Sound(s) && Enabled(s, e, limit)
    ensures Sound(Next(s, e, limit))
  {
    match e
    case Start => StartKeepsSound(s, limit);
    case Predict(line) => PredictKeepsSound(s, line, limit);
    case ChildGreets(frame) =>
      GreetingKeepsSound(s, frame, limit);
    case ChildServes(reply) => ServingKeepsSound(s, reply, limit);
    case ChildDies => DyingKeepsSound(s, limit);
    case ParentWrites(n) => WritingKeepsSound(s, n, limit);
    case ParentReads(n, wellFormed) => ReceivingKeepsSound(s, n, wellFormed, limit);
    case Fault => FailingKeepsSound(s);
    case OutsideStop => KillingKeepsSound(s);
  }

  /*** Every run. ***/

  function Run(events: seq<Event>, limit: nat): Option<State> {
    if events == [] then Some(State(Starting, 0, None, Idle, []))
    else
      var s := Run(events[..|events| - 1], limit);
      if s.Some? && Enabled(s.value, events[|events| - 1], limit) then
        Some(Next(s.value, events[|events| - 1], limit)) else None
  }

  lemma {:induction false} RunsAreSound(events: seq<Event>, limit: nat)
    requires Run(events, limit).Some?
    ensures Sound(Run(events, limit).value)
  {
    if events != [] {
      RunsAreSound(events[..|events| - 1], limit);
      StepKeepsSound(Run(events[..|events| - 1], limit).value, events[|events| - 1], limit);
    }
  }

  /** Reply integrity: in every run, a returned result is the reply the child gave to the line of that very
      call, served after the call began, and the child served nothing else in between. */
  lemma ReplyIntegrity(events: seq<Event>, limit: nat, j: nat)
    requires Run(events, limit).Some?
    requires j < |Run(events, limit).value.log| && Run(events, limit).value.log[j].Returned?
    ensures exists at :: 0 <= at < j && Answers(Run(events, limit).value.log, at, j)
  {
    RunsAreSound(events, limit);
    assert Answered(Run(events, limit).value.log, j);
  }

  /** Between calls a child's pipes are empty, so there is no stale reply to deliver; any failed call has
      left no live child behind. */
  lemma IdlePipesAreEmpty(events: seq<Event>, limit: nat)
    requires Run(events, limit).Some? && Run(events, limit).value.call.Idle?
    ensures var s := Run(events, limit).value;
            && (s.child.Some? ==> s.child.value.inbox == s.child.value.outbox == [])
            && (s.child.Some? && s.child.value.alive ==> s.status.Ready?)
            && (s.log != [] && s.log[|s.log| - 1].Failed? && s.child.Some? ==> !s.child.value.alive)
  {
    RunsAreSound(events, limit);
  }

  /** A runtime starts at most one child and restarts it at most three times. */
  lemma FewSpawns(events: seq<Event>, limit: nat)
    requires Run(events, limit).Some?
    ensures Spawns(Run(events, limit).value.log) <= 1 + 3
  {
    RunsAreSound(events, limit);
  }

  function Kills(log: seq<Item>): nat {
    if log == [] then 0 else Kills(log[..|log| - 1]) + if log[|log| - 1].Killed? then 1 else 0
  }

  lemma KillsSnoc(log: seq<Item>, item: Item)
    ensures Kills(log + [item]) == Kills(log) + if item.Killed? then 1 else 0
  {
    assert (log + [item])[..|log|] == log;
  }

  /** Every child ever started but the present one was killed. */
  predicate Tallied(s: State) {
    Spawns(s.log) == Kills(s.log) + if s.child.Some? then 1 else 0
  }

  lemma KillingKeepsTallied(s: State)
    requires Tallied(s)
    ensures Tallied(Killing(s))
  {
    SpawnsSnoc(s.log, Killed);
    KillsSnoc(s.log, Killed);
  }

  lemma FailingKeepsTallied(s: State)
    requires Tallied(s)
    ensures Tallied(Failing(s))
  {
    KillingKeepsTallied(s);
    OtherKeepsTallied(Killing(s), Failed);
  }

  lemma OtherKeepsTallied(s: State, item: Item)
    requires Tallied(s) && !item.Spawned? && !item.Killed?
    ensures Tallied(s.(log := s.log + [item]))
  {
    SpawnsSnoc(s.log, item);
    KillsSnoc(s.log, item);
  }

  lemma SpawningKeepsTallied(s: State, request: Option<Bytes>, at: nat)
    requires Tallied(s) && s.child.None?
    ensures Tallied(Spawning(s, request, at))
  {
    SpawnsSnoc(s.log, Spawned);
    KillsSnoc(s.log, Spawned);
  }

  lemma PredictKeepsTallied(s: State, line: Bytes, limit: nat)
    requires Tallied(s) && Enabled(s, Predict(line), limit)
    ensures Tallied(Next(s, Predict(line), limit))
  {
    var t := s.(log := s.log + [Called(line)]);
    OtherKeepsTallied(s, Called(line));
    if s.status.Ready? && s.child.Some? && s.child.value.alive {
      FailingKeepsTallied(t);
    } else if s.restarts < MAX_RESTARTS {
      KillingKeepsTallied(t.(restarts := s.restarts + 1));
      SpawningKeepsTallied(Killing(t.(restarts := s.restarts + 1)), Some(line), |s.log|);
    } else {
      SpawnsSnoc(t.log, Failed);
      KillsSnoc(t.log, Failed);
    }
  }

  lemma ReceivingKeepsTallied(s: State, n: nat, wellFormed: bool, limit: nat)
    requires Tallied(s) && Enabled(s, ParentReads(n, wellFormed), limit)
    ensures Tallied(Next(s, ParentReads(n, wellFormed), limit))
  {
    var t := s.(child := Some(s.child.value.(outbox := s.child.value.outbox[n..])));
    FailingKeepsTallied(t);
    FailingKeepsTallied(t.(status := Ready));
    match Accept(s.call.got, s.child.value.outbox[..n], limit)
    case Complete(line) => OtherKeepsTallied(t.(call := Idle), Returned(line));
    case _ =>
  }

  lemma StepKeepsTallied(s: State, e: Event, limit: nat)
    requires Tallied(s) && Enabled(s, e, limit)
    ensures Tallied(Next(s, e, limit))
  {
    match e
    case Start => SpawningKeepsTallied(s, None, 0);
    case Predict(line) => PredictKeepsTallied(s, line, limit);
    case ChildServes(reply) =>
      var inbox := s.child.value.inbox;
      OtherKeepsTallied(s, Served(inbox[..FirstNewline(inbox)], reply));
    case ParentReads(n, wellFormed) => ReceivingKeepsTallied(s, n, wellFormed, limit);
    case Fault => FailingKeepsTallied(s);
    case OutsideStop => KillingKeepsTallied(s);
    case _ =>
  }

  /** Every child is killed in the end: over every run, all children started but the present one were, and a stop
      from outside, possible at any point, leaves no child at all. */
  lemma {:induction false} EveryChildIsKilled(events: seq<Event>, limit: nat)
    requires Run(events, limit).Some?
    ensures Tallied(Run(events, limit).value)
    ensures var s := Run(events + [OutsideStop], limit);
            s.Some? && s.value.status.Stopped? && s.value.child.None? && Spawns(s.value.log) == Kills(s.value.log)
  {
    if events != [] {
      var before, e := events[..|events| - 1], events[|events| - 1];
      EveryChildIsKilled(before, limit);
      StepKeepsTallied(Run(before, limit).value, e, limit);
    }
    assert (events + [OutsideStop])[..|events|] == events;
    KillingKeepsTallied(Run(events, limit).value);
  }

  /** At every point of every run a live child may die, and a call may run into a fault, which ends it without a live
      child. */
  lemma TroubleAnytime(events: seq<Event>, limit: nat)
    requires Run(events, limit).Some?
    ensures var s := Run(events, limit).value;
            && (Run(events + [ChildDies], limit)
                == if s.child.Some? && s.child.value.alive then Some(s.(child := Some(s.child.value.(alive := false))))
                   else None)
            && (Run(events + [Fault], limit).Some? <==> !s.call.Idle?)
            && (!s.call.Idle? ==>
                  var t := Run(events + [Fault], limit).value;
                  t.call.Idle? && t.status.Stopped? && t.child.None? && s.log < t.log && t.log[|t.log| - 1] == Failed)
  {
    assert (events + [ChildDies])[..|events|] == events && (events + [Fault])[..|events|] == events;
  }

  /*** When a call ends, and how. ***/

  /** What the call has read, once this read is done. */
  function GotBy(s: State, n: nat): Bytes
    requires (s.call.Reading? || s.call.Booting?) && s.child.Some? && n <= |s.child.value.outbox|
  {
    s.call.got + s.child.value.outbox[..n]
  }

  /** The events that make a call fail: any fault; a request too long, or without a live child or a restart left; a
      frame too long, or malformed, or a readiness frame for a request too long. */
  predicate Breaks(s: State, e: Event, limit: nat)
    requires Enabled(s, e, limit)
  {
    match e
    case Fault => true
    case Predict(line) =>
      if s.child.Some? && s.child.value.alive then |line| + 1 > limit else s.restarts == MAX_RESTARTS
    case ParentReads(n, wellFormed) =>
      || FirstNewline(GotBy(s, n)) > limit
      || (!OneLine(GotBy(s, n))
          && (!wellFormed || (s.call.Booting? && s.call.request.Some? && |s.call.request.value| + 1 > limit)))
    case _ => false
  }

  predicate Ends(s: State, n: State, item: Item) {
    n.call.Idle? && |s.log| < |n.log| && n.log[|n.log| - 1] == item
  }

  lemma ReadBreaksIff(s: State, n: nat, wellFormed: bool, limit: nat)
    requires Sound(s) && Enabled(s, ParentReads(n, wellFormed), limit)
    ensures OneLine(s.call.got)
    ensures FirstNewline(GotBy(s, n)) > limit <==> Accept(s.call.got, s.child.value.outbox[..n], limit).TooLong?
    ensures FirstNewline(GotBy(s, n)) <= limit ==>
              (OneLine(GotBy(s, n)) <==> Accept(s.call.got, s.child.value.outbox[..n], limit).More?)
    ensures FirstNewline(GotBy(s, n)) <= limit && !OneLine(GotBy(s, n)) ==>
              Accept(s.call.got, s.child.value.outbox[..n], limit)
              == Complete(GotBy(s, n)[..FirstNewline(GotBy(s, n))])
  {
    var got, outbox := s.call.got, s.child.value.outbox;
    assert OneFrame(got + outbox);
    SplitFrame(got, outbox);
    FirstNewlineOfConcat(got, outbox[..n]);
    var k := FirstNewline(outbox[..n]);
    assert (got + outbox[..n])[..|got| + k] == got + outbox[..n][..k];
  }

  /** Every step of every run: the call fails, and leaves no live child, exactly for the events that break it; it
      returns exactly when a well-formed reply within the limit is complete, and with that reply. */
  lemma CallEndsIff(events: seq<Event>, e: Event, limit: nat)
    requires Run(events, limit).Some? && Enabled(Run(events, limit).value, e, limit)
    ensures var s := Run(events, limit).value; var n := Next(s, e, limit);
            && (Ends(s, n, Failed) <==> Breaks(s, e, limit))
            && (Ends(s, n, Failed) ==> n.child.None? || !n.child.value.alive)
            && (s.call.Reading? && e.ParentReads? && !OneLine(GotBy(s, e.n)) && !Breaks(s, e, limit) <==>
                  exists reply :: Ends(s, n, Returned(reply)))
            && (s.call.Reading? && e.ParentReads? && !OneLine(GotBy(s, e.n)) && !Breaks(s, e, limit) ==>
                  Ends(s, n, Returned(GotBy(s, e.n)[..FirstNewline(GotBy(s, e.n))])))
  {
    var s := Run(events, limit).value;
    RunsAreSound(events, limit);
    if e.ParentReads? {
      ReadBreaksIff(s, e.n, e.wellFormed, limit);
      ReadEndsIff(s, e.n, e.wellFormed, limit);
    } else {
      OtherEndsIff(s, e, limit);
    }
  }

  lemma ReadEndsIff(s: State, n: nat, wellFormed: bool, limit: nat)
    requires Sound(s) && Enabled(s, ParentReads(n, wellFormed), limit)
    ensures var m := Next(s, ParentReads(n, wellFormed), limit);
            var read := Accept(s.call.got, s.child.value.outbox[..n], limit);
            var long := s.call.Booting? && s.call.request.Some? && |s.call.request.value| + 1 > limit;
            && (read.More? ==> !m.call.Idle?)
            && (read.TooLong? || (read.Complete? && (!wellFormed || long)) ==> Ends(s, m, Failed) && m.child.None?)
            && (read.Complete? && wellFormed && s.call.Reading? ==> Ends(s, m, Returned(read.line)))
            && (read.Complete? && wellFormed && s.call.Booting? && !long ==> m.log == s.log)
  {
  }

  lemma OtherEndsIff(s: State, e: Event, limit: nat)
    requires Sound(s) && Enabled(s, e, limit) && !e.ParentReads?
    ensures var n := Next(s, e, limit);
            && (Ends(s, n, Failed) <==> Breaks(s, e, limit))
            && (Ends(s, n, Failed) ==> n.child.None? || !n.child.value.alive)
            && !exists reply :: Ends(s, n, Returned(reply))
  {
    if e.ChildServes? {
      OnlyTheRequest(s);
    }
  }

  /*** An exchange can complete. ***/

  /** The state some events lead to; None when one of them was not enabled. */
  function Go(s: State, events: seq<Event>, limit: nat): Option<State>
    decreases |events|
  {
    if events == [] then Some(s)
    else if Enabled(s, events[0], limit) then Go(Next(s, events[0], limit), events[1..], limit)
    else None
  }

  lemma {:induction false} GoOn(s: State, events: seq<Event>, more: seq<Event>, limit: nat)
    requires Go(s, events, limit).Some?
    ensures Go(s, events + more, limit) == Go(Go(s, events, limit).value, more, limit)
    decreases |events|
  {
    if events == [] {
      assert events + more == more;
    } else {
      GoOn(Next(s, events[0], limit), events[1..], more, limit);
      assert (events + more)[1..] == events[1..] + more;
    }
  }

  lemma GoOnce(s: State, e: Event, limit: nat)
    requires Enabled(s, e, limit)
    ensures Go(s, [e], limit) == Some(Next(s, e, limit))
  {
    assert [e][1..] == [];
  }

  /** Writing can go on until the whole line and its newline are in the child's stdin. */
  lemma {:induction false} WritesEnd(s: State, limit: nat) returns (events: seq<Event>)
    requires s.call.Writing? && s.child.Some? && s.child.value.alive && s.call.sent <= |s.call.line|
    requires s.child.value.inbox == s.call.line[..s.call.sent]
    ensures Go(s, events, limit) == Some(s.(child := Some(s.child.value.(inbox := s.call.line + [NEWLINE])),
                                            call := Reading(s.call.line, [], s.call.at)))
    decreases |s.call.line| - s.call.sent
  {
    var payload := s.call.line + [NEWLINE];
    var n := Min(65536, |payload| - s.call.sent);
    var t := Next(s, ParentWrites(n), limit);
    assert s.child.value.inbox + payload[s.call.sent..s.call.sent + n] == payload[..s.call.sent + n];
    GoOnce(s, ParentWrites(n), limit);
    events := [ParentWrites(n)];
    if s.call.sent + n == |payload| {
      assert payload[..|payload|] == payload;
    } else {
      assert payload[..s.call.sent + n] == s.call.line[..s.call.sent + n];
      var rest := WritesEnd(t, limit);
      GoOn(s, events, rest, limit);
      events := events + rest;
    }
  }

  /** What the call makes of a whole well-formed frame: a reply is returned; a readiness frame makes the runtime READY,
      and a request that waits for it is sent. */
  function Framed(s: State, line: Bytes, limit: nat): State
    requires s.call.Reading? || s.call.Booting?
    requires s.child.Some?
  {
    var t := s.(child := Some(s.child.value.(outbox := [])));
    if s.call.Reading? then t.(call := Idle, log := s.log + [Returned(line)])
    else
      match s.call.request
      case None => t.(status := Ready, call := Idle)
      case Some(request) => Sending(t.(status := Ready), request, s.call.at, limit)
  }

  /** Reading can go on until a frame is complete, if it is not too long. */
  lemma {:induction false} ReadsEnd(s: State, limit: nat) returns (events: seq<Event>)
    requires (s.call.Reading? || s.call.Booting?) && s.child.Some? && s.child.value.outbox != []
    requires OneFrame(s.call.got + s.child.value.outbox) && |s.call.got + s.child.value.outbox| <= limit + 1
    ensures Go(s, events, limit) == Some(Framed(s, Reply(s.call.got + s.child.value.outbox), limit))
    decreases |s.child.value.outbox|
  {
    var c := s.child.value;
    var n := Min(ReadLimit(s.call.got, limit), |c.outbox|);
    var e := ParentReads(n, true);
    ReceiveFrame(s.call.got, c.outbox, n, limit);
    ReadFits(s.call.got, c.outbox, n, limit);
    GoOnce(s, e, limit);
    events := [e];
    if Accept(s.call.got, c.outbox[..n], limit).More? {
      var rest := ReadsEnd(Next(s, e, limit), limit);
      GoOn(s, events, rest, limit);
      events := events + rest;
    }
  }

  lemma ReadFits(got: Bytes, outbox: Bytes, n: nat, limit: nat)
    requires OneFrame(got + outbox) && 1 <= n <= |outbox| && |got + outbox| <= limit + 1
    ensures !Accept(got, outbox[..n], limit).TooLong?
    ensures Accept(got, outbox[..n], limit).More? ==> outbox[n..] != []
  {
    if n < |outbox| {
      EarlyPart(got, outbox, n);
    } else {
      LastPart(got, outbox);
      assert outbox[..n] == outbox;
    }
  }

  /** A started child that sends a readiness frame within the limit makes the runtime READY. */
  lemma Boots(s: State, frame: Bytes, limit: nat) returns (reading: seq<Event>)
    requires s.call.Booting? && s.call.got == [] && s.child == Some(Child([], [], true, false))
    requires OneLine(frame) && |frame| <= limit
    ensures Go(s, [ChildGreets(frame)] + reading, limit)
         == Some(Framed(s.(child := Some(Child([], [], true, true))), frame, limit))
  {
    GoOnce(s, ChildGreets(frame), limit);
    var greeted := Next(s, ChildGreets(frame), limit);
    assert [] + frame + [NEWLINE] == frame + [NEWLINE];
    ReplyIsOneFrame(frame);
    reading := ReadsEnd(greeted, limit);
    GoOn(s, [ChildGreets(frame)], reading, limit);
  }

  /** From the very beginning, a child whose readiness frame is within the limit makes the runtime READY and idle. */
  lemma BootCompletes(frame: Bytes, limit: nat) returns (reading: seq<Event>)
    requires OneLine(frame) && |frame| <= limit
    ensures Go(State(Starting, 0, None, Idle, []), [Start, ChildGreets(frame)] + reading, limit)
         == Some(State(Ready, 0, Some(Child([], [], true, true)), Idle, [Spawned]))
  {
    var s := State(Starting, 0, None, Idle, []);
    var booting := Next(s, Start, limit);
    GoOnce(s, Start, limit);
    reading := Boots(booting, frame, limit);
    GoOn(s, [Start], [ChildGreets(frame)] + reading, limit);
    assert [Start] + ([ChildGreets(frame)] + reading) == [Start, ChildGreets(frame)] + reading;
    assert [] + [Spawned] == [Spawned];
  }

  /** The request goes through, from the moment it is to be sent. */
  lemma SentCompletes(s: State, line: Bytes, reply: Bytes, limit: nat) returns (events: seq<Event>)
    requires s.call.Writing? && s.call.line == line && s.call.sent == 0
    requires s.child == Some(Child([], [], true, true)) && s.status.Ready?
    requires IsRequest(line) && |line| + 1 <= limit && OneLine(reply) && |reply| <= limit
    ensures Go(s, events, limit) == Some(s.(call := Idle, log := s.log + [Served(line, reply), Returned(reply)]))
  {
    var writing := WritesEnd(s, limit);
    var asked := Go(s, writing, limit).value;
    FramedLine(line);
    ServingTheRequest(asked, reply, line);
    GoOnce(asked, ChildServes(reply), limit);
    var answered := Next(asked, ChildServes(reply), limit);
    ReplyIsOneFrame(reply);
    var reading := ReadsEnd(answered, limit);
    GoOn(asked, [ChildServes(reply)], reading, limit);
    GoOn(s, writing, [ChildServes(reply)] + reading, limit);
    events := writing + ([ChildServes(reply)] + reading);
    assert s.log + [Served(line, reply)] + [Returned(reply)] == s.log + [Served(line, reply), Returned(reply)];
  }

  /** On an idle runtime whose child is alive, any request and reply within the limit can go through: the call
      returns that reply, and leaves the runtime idle with the same child. */
  lemma ExchangeCompletes(s: State, line: Bytes, reply: Bytes, limit: nat) returns (events: seq<Event>)
    requires Sound(s) && s.call.Idle? && s.child.Some? && s.child.value.alive
    requires IsRequest(line) && |line| + 1 <= limit && OneLine(reply) && |reply| <= limit
    ensures Go(s, [Predict(line)] + events, limit)
         == Some(s.(log := s.log + [Called(line), Served(line, reply), Returned(reply)]))
  {
    var called := Next(s, Predict(line), limit);
    GoOnce(s, Predict(line), limit);
    events := SentCompletes(called, line, reply, limit);
    GoOn(s, [Predict(line)], events, limit);
    assert s.log + [Called(line)] + [Served(line, reply), Returned(reply)]
           == s.log + [Called(line), Served(line, reply), Returned(reply)];
  }

  /** What a restart adds to the log before the request is served. */
  function Restarted(s: State, line: Bytes): seq<Item> {
    [Called(line)] + (if s.child.Some? then [Killed] else []) + [Spawned]
  }

  /** On an idle runtime without a live child, the call kills what is left of the old child, starts a new one, and
      goes through, as long as a restart is left; without one, it fails and starts nothing. */
  lemma RestartCompletes(s: State, frame: Bytes, line: Bytes, reply: Bytes, limit: nat) returns (events: seq<Event>)
    requires Sound(s) && s.call.Idle? && !(s.child.Some? && s.child.value.alive) && IsRequest(line)
    ensures s.restarts >= 3 ==>
              Go(s, [Predict(line)], limit)
              == Some(s.(status := Unhealthy, log := s.log + [Called(line)] + [Failed]))
    ensures s.restarts < 3 && |line| + 1 <= limit && OneLine(reply) && |reply| <= limit
            && OneLine(frame) && |frame| <= limit ==>
              Go(s, [Predict(line), ChildGreets(frame)] + events, limit)
              == Some(State(Ready, s.restarts + 1, Some(Child([], [], true, true)), Idle,
                            s.log + Restarted(s, line) + [Served(line, reply), Returned(reply)]))
  {
    events := [];
    GoOnce(s, Predict(line), limit);
    if s.restarts < MAX_RESTARTS && |line| + 1 <= limit && OneLine(reply) && |reply| <= limit
       && OneLine(frame) && |frame| <= limit {
      var booting := Next(s, Predict(line), limit);
      assert booting.log == s.log + Restarted(s, line);
      var reading := Boots(booting, frame, limit);
      var writing := Go(booting, [ChildGreets(frame)] + reading, limit).value;
      var rest := SentCompletes(writing, line, reply, limit);
      GoOn(booting, [ChildGreets(frame)] + reading, rest, limit);
      GoOn(s, [Predict(line)], [ChildGreets(frame)] + reading + rest, limit);
      events := reading + rest;
      assert [Predict(line)] + ([ChildGreets(frame)] + reading + rest) == [Predict(line), ChildGreets(frame)] + events;
    }
  }
}
