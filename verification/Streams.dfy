/** The bounded byte loops of the runner: reading one line from a child, writing one request to it,
    keeping the tail of its stderr, and pumping a whole command.

    What the operating system decides (how many bytes a read or write moves, when a deadline passes) is
    a parameter, so every statement holds for every schedule. */
module Streams {
  import opened Wrappers

  type Byte = b: int | 0 <= b < 256

  const NEWLINE: Byte := 10

  function Min(a: int, b: int): int {
    if a < b then a else b
  }

  /** The position of the first newline, or the length when there is none (bytearray.find). */
  function FirstNewline(s: seq<Byte>): (n: nat)
    ensures n <= |s|
    ensures forall i :: 0 <= i < n ==> s[i] != NEWLINE
    ensures n < |s| ==> s[n] == NEWLINE
  {
    if s == [] || s[0] == NEWLINE then 0 else 1 + FirstNewline(s[1..])
  }

  lemma {:induction false} FirstNewlineOfConcat(a: seq<Byte>, b: seq<Byte>)
    ensures FirstNewline(a + b) == if FirstNewline(a) < |a| then FirstNewline(a) else |a| + FirstNewline(b)
  {
    if a == [] {
      assert a + b == b;
    } else {
      assert (a + b)[1..] == a[1..] + b;
      FirstNewlineOfConcat(a[1..], b);
    }
  }

  /*** Reading one line. ***/

  /** What one read adds to the line read so far. */
  datatype Progress =
    | More(line: seq<Byte>)
    | Complete(line: seq<Byte>)
    | TooLong

  function Accept(line: seq<Byte>, chunk: seq<Byte>, maxBytes: nat): Progress {
    var newline := FirstNewline(chunk);
    if newline == |chunk| then
      if |line + chunk| <= maxBytes then More(line + chunk) else TooLong
    else if |line| + newline > maxBytes then TooLong
    else Complete(line + chunk[..newline])
  }

  /** The most one read asks for. */
  function ReadLimit(line: seq<Byte>, maxBytes: nat): int {
    Min(4096, maxBytes + 1 - |line|)
  }

  datatype ReadResult =
    | Line(line: seq<Byte>)
    | Overflow
    | Closed
    | TimedOut

  /** What there is to read, without any notion of chunks. */
  function LineOf(stream: seq<Byte>, maxBytes: nat): ReadResult {
    var n := FirstNewline(stream);
    if n > maxBytes then Overflow
    else if n < |stream| then Line(stream[..n])
    else Closed
  }

  /** How many bytes the first `k` reads get, as long as they hold no newline. */
  function Gathered(total: nat, arrivals: seq<nat>, k: nat, maxBytes: nat): (n: nat)
    requires k <= |arrivals|
    ensures n <= total && n <= maxBytes + 1
  {
    if k == 0 then 0
    else
      var n := Gathered(total, arrivals, k - 1, maxBytes);
      n + Min(arrivals[k - 1], Min(4096, Min(maxBytes + 1 - n, total - n)))
  }

  lemma {:induction false} GatheredGrows(total: nat, arrivals: seq<nat>, j: nat, k: nat, maxBytes: nat)
    requires j <= k <= |arrivals|
    ensures Gathered(total, arrivals, j, maxBytes) <= Gathered(total, arrivals, k, maxBytes)
  {
    if j < k {
      GatheredGrows(total, arrivals, j, k - 1, maxBytes);
    }
  }

  /** Reads of 4096 bytes each, as long as there are as many. */
  lemma {:induction false} GatheredInFull(total: nat, arrivals: seq<nat>, k: nat, maxBytes: nat)
    requires k <= |arrivals| && forall i :: 0 <= i < k ==> arrivals[i] >= 4096
    ensures Gathered(total, arrivals, k, maxBytes) == Min(4096 * k, Min(maxBytes + 1, total))
  {
    if k > 0 {
      GatheredInFull(total, arrivals, k - 1, maxBytes);
    }
  }

  /** Every read finds something, and all of it is within the limit and holds no newline. */
  predicate NeverEnough(stream: seq<Byte>, arrivals: seq<nat>, maxBytes: nat) {
    var n := Gathered(|stream|, arrivals, |arrivals|, maxBytes);
    && n <= maxBytes && OneLine(stream[..n])
    && (arrivals != [] ==> Gathered(|stream|, arrivals, |arrivals| - 1, maxBytes) < |stream|)
  }

  /** A line without its newline. */
  predicate OneLine(s: seq<Byte>) {
    FirstNewline(s) == |s|
  }

  lemma StartsOneLine(stream: seq<Byte>, n: nat, m: nat)
    requires n <= m <= |stream| && OneLine(stream[..m])
    ensures OneLine(stream[..n])
  {
    assert stream[..m] == stream[..n] + stream[n..m];
    FirstNewlineOfConcat(stream[..n], stream[n..m]);
  }

  /** What is read at any time is then within the limit, without a newline, and not everything. */
  lemma NotEnoughSoFar(stream: seq<Byte>, arrivals: seq<nat>, k: nat, maxBytes: nat)
    requires NeverEnough(stream, arrivals, maxBytes) && k <= |arrivals|
    ensures Gathered(|stream|, arrivals, k, maxBytes) <= maxBytes
    ensures OneLine(stream[..Gathered(|stream|, arrivals, k, maxBytes)])
    ensures k < |arrivals| ==> Gathered(|stream|, arrivals, k, maxBytes) < |stream|
  {
    GatheredGrows(|stream|, arrivals, k, |arrivals|, maxBytes);
    StartsOneLine(stream, Gathered(|stream|, arrivals, k, maxBytes),
                  Gathered(|stream|, arrivals, |arrivals|, maxBytes));
    if k < |arrivals| {
      GatheredGrows(|stream|, arrivals, k, |arrivals| - 1, maxBytes);
    }
  }

  /** A read that shows the answer shows it for the whole schedule. */
  lemma ShownBy(stream: seq<Byte>, arrivals: seq<nat>, k: nat, n: nat, maxBytes: nat)
    requires k <= |arrivals| && n == Gathered(|stream|, arrivals, k, maxBytes)
    requires n > maxBytes || !OneLine(stream[..n]) || (n == |stream| && k < |arrivals|)
    ensures !NeverEnough(stream, arrivals, maxBytes)
  {
    if NeverEnough(stream, arrivals, maxBytes) {
      NotEnoughSoFar(stream, arrivals, k, maxBytes);
    }
  }

  /** What the whole schedule comes to. */
  function Answer(stream: seq<Byte>, arrivals: seq<nat>, maxBytes: nat): ReadResult {
    if NeverEnough(stream, arrivals, maxBytes) then TimedOut else LineOf(stream, maxBytes)
  }

  predicate IsRest(stream: seq<Byte>, left: seq<Byte>) {
    |left| <= |stream| && stream[|stream| - |left|..] == left
  }

  /** After `i` reads: `line` was read and holds no newline, `left` was not. */
  predicate ReadSoFar(stream: seq<Byte>, line: seq<Byte>, left: seq<Byte>, arrivals: seq<nat>, i: nat, maxBytes: nat) {
    && i <= |arrivals| && |line| == Gathered(|stream|, arrivals, i, maxBytes)
    && stream == line + left && OneLine(line)
    && (i > 0 ==> Gathered(|stream|, arrivals, i - 1, maxBytes) < |stream|)
  }

  lemma ReadEnds(stream: seq<Byte>, line: seq<Byte>, left: seq<Byte>, arrivals: seq<nat>, i: nat, maxBytes: nat)
    requires ReadSoFar(stream, line, left, arrivals, i, maxBytes)
    ensures |line| > maxBytes ==> Answer(stream, arrivals, maxBytes) == Overflow
    ensures |line| <= maxBytes && i == |arrivals| ==> Answer(stream, arrivals, maxBytes) == TimedOut
  {
    assert stream[..|line|] == line;
    if |line| > maxBytes {
      FirstNewlineOfConcat(line, left);
      ShownBy(stream, arrivals, i, |line|, maxBytes);
    }
  }

  lemma RestOf(line: seq<Byte>, left: seq<Byte>)
    ensures IsRest(line + left, left)
  {
  }

  /** How much is read after the next read, which gets `chunk`. */
  lemma ReadGrows(total: nat, line: seq<Byte>, chunk: seq<Byte>, arrivals: seq<nat>, i: nat, maxBytes: nat)
    requires i < |arrivals| && |line| == Gathered(total, arrivals, i, maxBytes) <= maxBytes && arrivals[i] > 0
    requires |chunk| == Min(arrivals[i], Min(ReadLimit(line, maxBytes), total - |line|))
    ensures |line| + |chunk| == Gathered(total, arrivals, i + 1, maxBytes) <= maxBytes + 1
    ensures chunk == [] <==> |line| == total
  {
  }

  /** The next read gets nothing. */
  lemma ReadCloses(stream: seq<Byte>, line: seq<Byte>, arrivals: seq<nat>, i: nat, maxBytes: nat)
    requires i < |arrivals| && |line| <= maxBytes && ReadSoFar(stream, line, [], arrivals, i, maxBytes)
    ensures Answer(stream, arrivals, maxBytes) == Closed
  {
    assert line + [] == line && stream[..|line|] == line;
    ShownBy(stream, arrivals, i, |line|, maxBytes);
  }

  lemma Starts(line: seq<Byte>, chunk: seq<Byte>, rest: seq<Byte>, n: nat)
    requires n <= |chunk|
    ensures (line + chunk + rest)[..|line| + n] == line + chunk[..n]
  {
  }

  /** The next read gets a newline. */
  lemma ReadCompletes(stream: seq<Byte>, line: seq<Byte>, chunk: seq<Byte>, rest: seq<Byte>, arrivals: seq<nat>,
                      i: nat, maxBytes: nat)
    requires i <= |arrivals| && stream == line + chunk + rest && OneLine(line) && !OneLine(chunk)
    requires |line| + |chunk| == Gathered(|stream|, arrivals, i, maxBytes)
    ensures |line| + FirstNewline(chunk) <= maxBytes
    ensures Answer(stream, arrivals, maxBytes) == Line(line + chunk[..FirstNewline(chunk)])
  {
    FirstNewlineOfConcat(line, chunk);
    FirstNewlineOfConcat(line + chunk, rest);
    Starts(line, chunk, rest, FirstNewline(chunk));
    Starts(line, chunk, rest, |chunk|);
    assert chunk[..|chunk|] == chunk;
    ShownBy(stream, arrivals, i, |line| + |chunk|, maxBytes);
  }

  /** The next read gets `chunk`, which holds no newline, and `rest` is left. */
  lemma ReadGoesOn(stream: seq<Byte>, line: seq<Byte>, chunk: seq<Byte>, rest: seq<Byte>, arrivals: seq<nat>, i: nat,
                   maxBytes: nat)
    requires i < |arrivals| && stream == line + chunk + rest && OneLine(line) && OneLine(chunk) && chunk != []
    requires |line| == Gathered(|stream|, arrivals, i, maxBytes)
    requires |line| + |chunk| == Gathered(|stream|, arrivals, i + 1, maxBytes)
    ensures ReadSoFar(stream, line + chunk, rest, arrivals, i + 1, maxBytes)
  {
    FirstNewlineOfConcat(line, chunk);
  }

  /** What the next read, which gets `chunk` and leaves `rest`, comes to. */
  lemma ReadRound(stream: seq<Byte>, line: seq<Byte>, chunk: seq<Byte>, rest: seq<Byte>, arrivals: seq<nat>, i: nat,
                  maxBytes: nat)
    requires ReadSoFar(stream, line, chunk + rest, arrivals, i, maxBytes) && i < |arrivals| && |line| <= maxBytes
    requires arrivals[i] > 0 && |chunk| == Min(arrivals[i], Min(ReadLimit(line, maxBytes), |chunk + rest|))
    ensures stream == line + chunk + rest
    ensures chunk == [] ==> Answer(stream, arrivals, maxBytes) == Closed
    ensures !OneLine(chunk) ==> |line| + FirstNewline(chunk) <= maxBytes
                                && Answer(stream, arrivals, maxBytes) == Line(line + chunk[..FirstNewline(chunk)])
    ensures chunk != [] && OneLine(chunk) ==> ReadSoFar(stream, line + chunk, rest, arrivals, i + 1, maxBytes)
  {
    assert line + (chunk + rest) == line + chunk + rest;
    ReadGrows(|stream|, line, chunk, arrivals, i, maxBytes);
    if chunk == [] {
      assert chunk + rest == [];
      ReadCloses(stream, line, arrivals, i, maxBytes);
    } else if OneLine(chunk) {
      ReadGoesOn(stream, line, chunk, rest, arrivals, i, maxBytes);
    } else {
      ReadCompletes(stream, line, chunk, rest, arrivals, i + 1, maxBytes);
    }
  }

  /** `stream` is everything the child writes before it closes its stdout; `arrivals[i]` is how many bytes
      the i-th read would get if it asked for enough, and the deadline passes after the last arrival.
      `left` is what was not read; bytes read after the newline are dropped. */
  method ReadlineBounded(stream: seq<Byte>, arrivals: seq<nat>, maxBytes: nat)
    returns (r: ReadResult, left: seq<Byte>, innerCheckFired: bool)
    requires forall i :: 0 <= i < |arrivals| ==> arrivals[i] > 0
    ensures r == if NeverEnough(stream, arrivals, maxBytes) then TimedOut else LineOf(stream, maxBytes)
    ensures |left| <= |stream| && stream[|stream| - |left|..] == left
    ensures r.TimedOut? ==> |stream| - |left| == Gathered(|stream|, arrivals, |arrivals|, maxBytes)
    ensures r.Line? ==> |r.line| < |stream| - |left|
    ensures !innerCheckFired
  {
    left, innerCheckFired := stream, false;
    var line: seq<Byte>, i := [], 0;
    assert [] + stream == stream;
    while |line| <= maxBytes
      invariant 0 <= i <= |arrivals| && ReadSoFar(stream, line, left, arrivals, i, maxBytes)
      invariant !innerCheckFired
      decreases |arrivals| - i
    {
      if i == |arrivals| {
        RestOf(line, left);
        ReadEnds(stream, line, left, arrivals, i, maxBytes);
        return TimedOut, left, innerCheckFired;
      }
      var want := Min(arrivals[i], Min(ReadLimit(line, maxBytes), |left|));
      var chunk, rest := left[..want], left[want..];
      assert left == chunk + rest;
      ReadRound(stream, line, chunk, rest, arrivals, i, maxBytes);
      RestOf(line + chunk, rest);
      left, i := rest, i + 1;
      if chunk == [] {
        return Closed, left, innerCheckFired;
      }
      var newline := FirstNewline(chunk);
      if newline < |chunk| {
        if |line| + newline > maxBytes {
          innerCheckFired := true;
          return Overflow, left, innerCheckFired;
        }
        line := line + chunk[..newline];
        return Line(line), left, innerCheckFired;
      }
      line := line + chunk;
    }
    RestOf(line, left);
    ReadEnds(stream, line, left, arrivals, i, maxBytes);
    return Overflow, left, innerCheckFired;
  }

  /*** Writing one request. ***/

  /** How many bytes the first `k` writes move. */
  function Moved(total: nat, room: seq<nat>, k: nat): (n: nat)
    requires k <= |room|
    ensures n <= total
  {
    if k == 0 then 0
    else
      var n := Moved(total, room, k - 1);
      n + Min(room[k - 1], Min(65536, total - n))
  }

  lemma {:induction false} MovedStays(total: nat, room: seq<nat>, k: nat)
    requires k <= |room| && Moved(total, room, k) == total
    ensures Moved(total, room, |room|) == total
    decreases |room| - k
  {
    if k < |room| {
      MovedStays(total, room, k + 1);
    }
  }

  /** Writes of 65536 bytes each, as long as there are as many. */
  lemma {:induction false} MovedInFull(total: nat, room: seq<nat>, k: nat)
    requires k <= |room| && forall i :: 0 <= i < k ==> room[i] >= 65536
    ensures Moved(total, room, k) == Min(65536 * k, total)
  {
    if k > 0 {
      MovedInFull(total, room, k - 1);
    }
  }

  /** A deadline that leaves as many writes as there are bytes leaves enough. */
  lemma {:induction false} MovedAtLeast(total: nat, room: seq<nat>, k: nat)
    requires k <= |room| && forall i :: 0 <= i < |room| ==> room[i] > 0
    ensures Moved(total, room, k) >= Min(k, total)
  {
    if k > 0 {
      MovedAtLeast(total, room, k - 1);
    }
  }

  /** `room[i]` is how many bytes the i-th write moves if that many are left; the deadline passes after the last. */
  method WriteBounded(payload: seq<Byte>, room: seq<nat>) returns (sent: seq<Byte>, done: bool)
    ensures sent == payload[..Moved(|payload|, room, |room|)]
    ensures done <==> Moved(|payload|, room, |room|) == |payload|
    ensures (forall i :: 0 <= i < |room| ==> room[i] > 0) && |room| >= |payload| ==> done
  {
    sent := [];
    var i := 0;
    while |sent| != |payload|
      invariant 0 <= i <= |room| && |sent| == Moved(|payload|, room, i) && sent == payload[..|sent|]
      decreases |room| - i
    {
      if i == |room| {
        MovedIfMany(payload, room);
        return sent, false;
      }
      var written := Min(room[i], Min(65536, |payload| - |sent|));
      sent, i := payload[..|sent| + written], i + 1;
    }
    MovedStays(|payload|, room, i);
    done := true;
  }

  lemma MovedIfMany(payload: seq<Byte>, room: seq<nat>)
    ensures (forall i :: 0 <= i < |room| ==> room[i] > 0) && |room| >= |payload| ==>
              Moved(|payload|, room, |room|) == |payload|
  {
    if forall i :: 0 <= i < |room| ==> room[i] > 0 {
      MovedAtLeast(|payload|, room, |room|);
    }
  }

  /*** The stderr tail. ***/

  function Join(chunks: seq<seq<Byte>>): seq<Byte> {
    if chunks == [] then [] else Join(chunks[..|chunks| - 1]) + chunks[|chunks| - 1]
  }

  function Last(s: seq<Byte>, cap: nat): seq<Byte> {
    if |s| <= cap then s else s[|s| - cap..]
  }

  lemma LastIsTheEnd(s: seq<Byte>, cap: nat)
    ensures |Last(s, cap)| == Min(cap, |s|) && IsRest(s, Last(s, cap))
  {
  }

  /** Reads until the pipe is empty-handed; `chunks` are the reads before that. With a positive cap the
      tail is the end of everything read; a cap of zero trims nothing, because tail[:-0] is empty. */
  method DrainStderr(chunks: seq<seq<Byte>>, cap: nat) returns (tail: seq<Byte>)
    requires forall i :: 0 <= i < |chunks| ==> chunks[i] != []
    ensures cap > 0 ==> tail == Last(Join(chunks), cap)
    ensures cap == 0 ==> tail == Join(chunks)
    ensures IsRest(Join(chunks), tail) && |tail| == if cap > 0 then Min(cap, |Join(chunks)|) else |Join(chunks)|
  {
    tail := [];
    for i := 0 to |chunks|
      invariant cap > 0 ==> tail == Last(Join(chunks[..i]), cap)
      invariant cap == 0 ==> tail == Join(chunks[..i])
    {
      assert chunks[..i + 1][..i] == chunks[..i];
      tail := tail + chunks[i];
      if |tail| > cap && cap > 0 {
        tail := tail[|tail| - cap..];
      }
    }
    assert chunks[..|chunks|] == chunks;
    LastIsTheEnd(Join(chunks), cap);
  }

  /** The tail is bounded by the cap, whatever the child writes, exactly when the cap is positive. */
  lemma TailBoundedIffPositive(cap: nat)
    ensures cap > 0 <==>
            forall chunks: seq<seq<Byte>> :: |if cap > 0 then Last(Join(chunks), cap) else Join(chunks)| <= cap
  {
    if cap == 0 {
      var one: seq<seq<Byte>> := [[65]];
      assert one[..0] == [];
      assert Join(one) == [65];
    }
  }

  /*** Running a whole command. ***/

  datatype Write = NotWritable | Wrote(bytes: nat) | Blocked | Broken

  /** One round of the select loop: what the write did, what the two reads got, whether the child had exited. */
  datatype Tick = Tick(write: Write, out: seq<Byte>, err: seq<Byte>, exited: bool)

  /** What is kept of a stream, and the byte count the loop keeps beside it. */
  datatype Kept = Kept(data: seq<Byte>, count: nat)

  /** One read: a chunk that does not fit is dropped and answered with the marker text, and so is every
      later one. */
  function Keep(k: Kept, raw: seq<Byte>, cap: nat, marker: seq<Byte>): Kept {
    if raw == [] then k
    else if k.count + |raw| > cap then Kept(k.data + marker, cap)
    else Kept(k.data + raw, k.count + |raw|)
  }

  function Capture(chunks: seq<seq<Byte>>, cap: nat, marker: seq<Byte>): Kept {
    if chunks == [] then Kept([], 0)
    else Keep(Capture(chunks[..|chunks| - 1], cap, marker), chunks[|chunks| - 1], cap, marker)
  }

  function Outs(ticks: seq<Tick>): (r: seq<seq<Byte>>)
    ensures |r| == |ticks| && forall i :: 0 <= i < |r| ==> r[i] == ticks[i].out
  {
    seq(|ticks|, i requires 0 <= i < |ticks| => ticks[i].out)
  }

  function Errs(ticks: seq<Tick>): (r: seq<seq<Byte>>)
    ensures |r| == |ticks| && forall i :: 0 <= i < |r| ==> r[i] == ticks[i].err
  {
    seq(|ticks|, i requires 0 <= i < |ticks| => ticks[i].err)
  }

  /** The child's stdin: what went in, what is left, whether the pipe broke. */
  datatype Stdin = Stdin(sent: seq<Byte>, pending: seq<Byte>, broken: bool) {
    predicate Intact(input: seq<Byte>) {
      if broken then sent <= input && pending == [] else sent + pending == input
    }
  }

  function Fed(stdin: Stdin, write: Write): Stdin {
    match write
    case Wrote(n) =>
      var took := Min(n, Min(65536, |stdin.pending|));
      Stdin(stdin.sent + stdin.pending[..took], stdin.pending[took..], stdin.broken)
    case Broken => Stdin(stdin.sent, [], true)
    case _ => stdin
  }

  /** What the loop keeps between rounds. */
  datatype Pumped = Pumped(stdin: Stdin, out: Kept, err: Kept)

  /** One round: a child that still wants input is fed, and what it wrote is taken. */
  function Round(p: Pumped, tick: Tick, cap: nat, marker: seq<Byte>): Pumped {
    Pumped(if p.stdin.pending == [] || tick.write.NotWritable? then p.stdin else Fed(p.stdin, tick.write),
           Keep(p.out, tick.out, cap, marker), Keep(p.err, tick.err, cap, marker))
  }

  /** What the first `i` rounds come to. */
  function PumpedFor(input: seq<Byte>, ticks: seq<Tick>, i: nat, cap: nat, marker: seq<Byte>): Pumped
    requires i <= |ticks|
  {
    if i == 0 then Pumped(Stdin([], input, false), Kept([], 0), Kept([], 0))
    else Round(PumpedFor(input, ticks, i - 1, cap, marker), ticks[i - 1], cap, marker)
  }

  lemma TakenIsMoved(sent: seq<Byte>, pending: seq<Byte>, took: nat)
    requires took <= |pending|
    ensures sent + pending[..took] + pending[took..] == sent + pending
  {
  }

  lemma FedStaysIntact(stdin: Stdin, write: Write, input: seq<Byte>)
    requires stdin.Intact(input) && stdin.pending != []
    ensures Fed(stdin, write).Intact(input)
  {
    if write.Wrote? {
      TakenIsMoved(stdin.sent, stdin.pending, Min(write.bytes, Min(65536, |stdin.pending|)));
    }
  }

  lemma {:induction false} StdinStaysIntact(input: seq<Byte>, ticks: seq<Tick>, i: nat, cap: nat, marker: seq<Byte>)
    requires i <= |ticks|
    ensures PumpedFor(input, ticks, i, cap, marker).stdin.Intact(input)
  {
    if i > 0 {
      StdinStaysIntact(input, ticks, i - 1, cap, marker);
      var before := PumpedFor(input, ticks, i - 1, cap, marker).stdin;
      if before.pending != [] {
        FedStaysIntact(before, ticks[i - 1].write, input);
      }
    }
  }

  lemma {:induction false} OutputsAreCaptured(input: seq<Byte>, ticks: seq<Tick>, i: nat, cap: nat, marker: seq<Byte>)
    requires i <= |ticks|
    ensures PumpedFor(input, ticks, i, cap, marker).out == Capture(Outs(ticks[..i]), cap, marker)
    ensures PumpedFor(input, ticks, i, cap, marker).err == Capture(Errs(ticks[..i]), cap, marker)
  {
    if i > 0 {
      OutputsAreCaptured(input, ticks, i - 1, cap, marker);
      assert Outs(ticks[..i])[..i - 1] == Outs(ticks[..i - 1]) && Errs(ticks[..i])[..i - 1] == Errs(ticks[..i - 1]);
    }
  }

  /** A child that takes something at every round, as long as there is something to take, gets its whole input
      in as many rounds as there are bytes. */
  lemma {:induction false} FedInTime(input: seq<Byte>, ticks: seq<Tick>, i: nat, cap: nat, marker: seq<Byte>)
    requires i <= |ticks|
    requires forall j :: 0 <= j < i ==> ticks[j].write.Wrote? && ticks[j].write.bytes > 0
    ensures var stdin := PumpedFor(input, ticks, i, cap, marker).stdin;
            && !stdin.broken && (|stdin.sent| >= i || stdin.sent == input)
  {
    StdinStaysIntact(input, ticks, i, cap, marker);
    if i > 0 {
      FedInTime(input, ticks, i - 1, cap, marker);
      StdinStaysIntact(input, ticks, i - 1, cap, marker);
    }
  }

  lemma {:induction false} FedInFull(input: seq<Byte>, ticks: seq<Tick>, i: nat, cap: nat, marker: seq<Byte>)
    requires i <= |ticks|
    requires forall j :: 0 <= j < i ==> ticks[j].write.Wrote? && ticks[j].write.bytes >= 65536
    ensures var stdin := PumpedFor(input, ticks, i, cap, marker).stdin;
            !stdin.broken && |stdin.sent| == Min(65536 * i, |input|)
  {
    StdinStaysIntact(input, ticks, i, cap, marker);
    if i > 0 {
      FedInFull(input, ticks, i - 1, cap, marker);
      StdinStaysIntact(input, ticks, i - 1, cap, marker);
    }
  }

  /** A broken pipe is given up: what was not sent by then is dropped, and never sent. */
  lemma {:induction false} BrokenForGood(input: seq<Byte>, ticks: seq<Tick>, i: nat, j: nat, cap: nat,
                                         marker: seq<Byte>)
    requires i < j <= |ticks| && ticks[i].write.Broken? && PumpedFor(input, ticks, i, cap, marker).stdin.pending != []
    ensures PumpedFor(input, ticks, j, cap, marker).stdin
         == Stdin(PumpedFor(input, ticks, i, cap, marker).stdin.sent, [], true)
  {
    if i + 1 < j {
      BrokenForGood(input, ticks, i, j - 1, cap, marker);
    }
  }

  /** One round of the loop: feed the child, then take what it wrote. */
  method Pump(tick: Tick, p: Pumped, stdinOpen: bool, cap: nat, marker: seq<Byte>) returns (n: Pumped, open: bool)
    requires stdinOpen <==> p.stdin.pending != []
    ensures n == Round(p, tick, cap, marker) && (open <==> n.stdin.pending != [])
  {
    n, open := p, stdinOpen;
    if stdinOpen && !tick.write.NotWritable? {
      n := n.(stdin := Fed(p.stdin, tick.write));
      if n.stdin.pending == [] {
        open := false;
      }
    }
    n := n.(out := Keep(p.out, tick.out, cap, marker), err := Keep(p.err, tick.err, cap, marker));
  }

  /** `input` is None when the child inherits stdin; the deadline passes after the last tick. */
  method RunBounded(input: Option<seq<Byte>>, ticks: seq<Tick>, cap: nat, marker: seq<Byte>)
    returns (stdin: Stdin, closedEarly: bool, stdout: seq<Byte>, stderr: seq<Byte>, rounds: nat, timedOut: bool)
    ensures rounds <= |ticks| && (timedOut <==> forall i :: 0 <= i < |ticks| ==> !ticks[i].exited)
    ensures timedOut ==> rounds == |ticks|
    ensures !timedOut ==> rounds > 0 && ticks[rounds - 1].exited
                          && forall i :: 0 <= i < rounds - 1 ==> !ticks[i].exited
    ensures stdin == PumpedFor(GetOr(input, []), ticks, rounds, cap, marker).stdin && stdin.Intact(GetOr(input, []))
    ensures closedEarly <==> input.Some? && stdin.pending == []
    ensures stdout == Capture(Outs(ticks[..rounds]), cap, marker).data
    ensures stderr == Capture(Errs(ticks[..rounds]), cap, marker).data
  {
    var p, stdinOpen := Pumped(Stdin([], GetOr(input, []), false), Kept([], 0), Kept([], 0)), GetOr(input, []) != [];
    rounds, timedOut := 0, true;
    while rounds < |ticks|
      invariant 0 <= rounds <= |ticks| && timedOut
      invariant forall j :: 0 <= j < rounds ==> !ticks[j].exited
      invariant stdinOpen <==> p.stdin.pending != []
      invariant p == PumpedFor(GetOr(input, []), ticks, rounds, cap, marker)
    {
      p, stdinOpen := Pump(ticks[rounds], p, stdinOpen, cap, marker);
      rounds := rounds + 1;
      if ticks[rounds - 1].exited {
        timedOut := false;
        break;
      }
    }
    StdinStaysIntact(GetOr(input, []), ticks, rounds, cap, marker);
    OutputsAreCaptured(GetOr(input, []), ticks, rounds, cap, marker);
    stdin, closedEarly, stdout, stderr := p.stdin, input.Some? && !stdinOpen, p.out.data, p.err.data;
  }

  function Markers(n: nat, marker: seq<Byte>): seq<Byte> {
    if n == 0 then [] else Markers(n - 1, marker) + marker
  }

  /** How many non-empty chunks there are. */
  function Filled(chunks: seq<seq<Byte>>): nat {
    if chunks == [] then 0
    else Filled(chunks[..|chunks| - 1]) + if chunks[|chunks| - 1] == [] then 0 else 1
  }

  /** What is kept is a prefix of the child's stream of at most `cap` bytes, cut where the first chunk
      that does not fit begins, followed by one marker for every non-empty chunk from there on. */
  lemma {:induction false} CaptureSplits(chunks: seq<seq<Byte>>, cap: nat, marker: seq<Byte>)
    returns (kept: seq<seq<Byte>>, dropped: seq<seq<Byte>>)
    ensures chunks == kept + dropped && |Join(kept)| <= cap
    ensures dropped != [] ==> dropped[0] != [] && |Join(kept)| + |dropped[0]| > cap
    ensures Capture(chunks, cap, marker)
            == Kept(Join(kept) + Markers(Filled(dropped), marker), if dropped == [] then |Join(kept)| else cap)
  {
    if chunks == [] {
      kept, dropped := [], [];
    } else {
      var before, c := chunks[..|chunks| - 1], chunks[|chunks| - 1];
      var k, d := CaptureSplits(before, cap, marker);
      assert chunks == before + [c];
      if d == [] && |Join(k)| + |c| <= cap {
        assert k == before;
        kept, dropped := chunks, [];
      } else {
        kept, dropped := k, d + [c];
        FilledSnoc(d, c);
        KeepOneMore(Kept(Join(k), |Join(k)|), d, c, cap, marker);
      }
    }
  }

  lemma KeepOneMore(k: Kept, dropped: seq<seq<Byte>>, c: seq<Byte>, cap: nat, marker: seq<Byte>)
    requires k.count <= cap && (dropped == [] ==> k.count + |c| > cap)
    ensures Keep(Kept(k.data + Markers(Filled(dropped), marker), if dropped == [] then k.count else cap),
                 c, cap, marker)
            == Kept(k.data + Markers(Filled(dropped) + if c == [] then 0 else 1, marker), cap)
  {
    var m := Markers(Filled(dropped), marker);
    assert k.data + m + marker == k.data + (m + marker);
  }

  lemma FilledSnoc(chunks: seq<seq<Byte>>, c: seq<Byte>)
    ensures Filled(chunks + [c]) == Filled(chunks) + if c == [] then 0 else 1
  {
    assert (chunks + [c])[..|chunks|] == chunks;
  }

  lemma JoinedInTurn(a: seq<Byte>, b: seq<Byte>, c: seq<Byte>)
    ensures a + b + c == a + (b + c)
  {
  }

  lemma {:induction false} JoinConcat(a: seq<seq<Byte>>, b: seq<seq<Byte>>)
    ensures Join(a + b) == Join(a) + Join(b)
  {
    if b == [] {
      assert a + b == a;
    } else {
      var last := |b| - 1;
      JoinConcat(a, b[..last]);
      assert (a + b)[..|a + b| - 1] == a + b[..last];
      JoinedInTurn(Join(a), Join(b[..last]), b[last]);
    }
  }

  lemma {:induction false} MarkersLength(n: nat, marker: seq<Byte>)
    ensures |Markers(n, marker)| == |marker| * n
  {
    if n > 0 {
      MarkersLength(n - 1, marker);
      assert |marker| * n == |marker| * (n - 1) + |marker|;
    }
  }

  /** An output that fits the cap is kept as it is; of any other, the chunks up to the first that does not fit, and
      one marker for every non-empty chunk from there on. That is the output itself only if what was dropped reads
      exactly like the markers put in its place. */
  lemma KeptWholeIff(chunks: seq<seq<Byte>>, cap: nat, marker: seq<Byte>)
    returns (kept: seq<seq<Byte>>, dropped: seq<seq<Byte>>)
    ensures chunks == kept + dropped && |Join(kept)| <= cap
    ensures dropped == [] <==> |Join(chunks)| <= cap
    ensures Capture(chunks, cap, marker).data == Join(kept) + Markers(Filled(dropped), marker)
    ensures Capture(chunks, cap, marker).data == Join(chunks) <==> Markers(Filled(dropped), marker) == Join(dropped)
    ensures dropped != [] ==> Filled(dropped) > 0
    ensures |Capture(chunks, cap, marker).data| == |Join(kept)| + |marker| * Filled(dropped)
  {
    kept, dropped := CaptureSplits(chunks, cap, marker);
    JoinConcat(kept, dropped);
    SameEnd(Join(kept), Markers(Filled(dropped), marker), Join(dropped));
    MarkersLength(Filled(dropped), marker);
    if dropped == [] {
      assert kept == chunks && Markers(0, marker) == [];
    } else {
      JoinConcat([dropped[0]], dropped[1..]);
      assert dropped == [dropped[0]] + dropped[1..];
      JoinOne(dropped[0]);
      FilledConcat([dropped[0]], dropped[1..]);
      FilledSnoc([], dropped[0]);
    }
  }

  lemma SameEnd(a: seq<Byte>, b: seq<Byte>, c: seq<Byte>)
    ensures a + b == a + c <==> b == c
  {
    if a + b == a + c {
      assert b == (a + b)[|a|..] && c == (a + c)[|a|..];
    }
  }

  lemma JoinOne(chunk: seq<Byte>)
    ensures Join([chunk]) == chunk
  {
    var one: seq<seq<Byte>> := [chunk];
    assert one[..0] == [] && Join([]) + chunk == chunk;
  }

  lemma {:induction false} FilledConcat(a: seq<seq<Byte>>, b: seq<seq<Byte>>)
    ensures Filled(a + b) == Filled(a) + Filled(b)
  {
    if b == [] {
      assert a + b == a;
    } else {
      var last := |b| - 1;
      FilledConcat(a, b[..last]);
      assert (a + b)[..|a + b| - 1] == a + b[..last];
    }
  }

  function Letters(n: nat): seq<seq<Byte>> {
    if n == 0 then [] else Letters(n - 1) + [[65]]
  }

  lemma CaptureOneMore(chunks: seq<seq<Byte>>, c: seq<Byte>, cap: nat, marker: seq<Byte>)
    ensures Capture(chunks + [c], cap, marker) == Keep(Capture(chunks, cap, marker), c, cap, marker)
  {
    assert (chunks + [c])[..|chunks|] == chunks;
  }

  lemma KeepTooMany(k: Kept, c: seq<Byte>, cap: nat, marker: seq<Byte>)
    requires k.count == cap && c != []
    ensures Keep(k, c, cap, marker).count == cap && |Keep(k, c, cap, marker).data| == |k.data| + |marker|
  {
  }

  /** What is kept of more letters than fit: those that do, and a marker for each of the others. */
  lemma {:induction false} LettersOverflow(m: nat, cap: nat, marker: seq<Byte>)
    requires cap <= m
    ensures Capture(Letters(m), cap, marker).count == cap
    ensures |Capture(Letters(m), cap, marker).data| == cap + |Markers(m - cap, marker)|
  {
    if m == cap {
      LettersFit(m, cap, marker);
    } else {
      var before := Letters(m - 1);
      LettersOverflow(m - 1, cap, marker);
      CaptureOneMore(before, [65], cap, marker);
      KeepTooMany(Capture(before, cap, marker), [65], cap, marker);
      assert |Markers(m - cap, marker)| == |Markers(m - 1 - cap, marker)| + |marker|;
    }
  }

  /** No fixed budget bounds what is kept, although the function's documentation promises one, whatever the cap:
      once it is reached, a child that keeps writing is answered with ever more markers, which are not counted. */
  lemma NoFixedBudget(cap: nat, n: nat, marker: seq<Byte>)
    requires marker != []
    ensures Capture(Letters(cap + n), cap, marker).count == cap
    ensures |Capture(Letters(cap + n), cap, marker).data| == cap + |marker| * n >= cap + n
  {
    LettersOverflow(cap + n, cap, marker);
    MarkersLength(n, marker);
    MarkersGrow(n, marker);
  }

  lemma {:induction false} MarkersGrow(n: nat, marker: seq<Byte>)
    requires marker != []
    ensures |Markers(n, marker)| >= n
  {
    if n > 0 {
      MarkersGrow(n - 1, marker);
    }
  }

  lemma {:induction false} LettersFit(n: nat, cap: nat, marker: seq<Byte>)
    requires n <= cap
    ensures Capture(Letters(n), cap, marker).count == n == |Capture(Letters(n), cap, marker).data|
  {
    if n > 0 {
      LettersFit(n - 1, cap, marker);
      CaptureOneMore(Letters(n - 1), [65], cap, marker);
    }
  }
}
