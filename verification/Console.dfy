/** The console's bounded buffer of numbered lines, and clients that poll it. */
module Console {
  type Text = string

  /** A console line; numbers start at 1. */
  datatype Line = Line(number: nat, ts: int, text: Text)

  /** What the container printed, line by line. */
  datatype Printed = Printed(ts: int, text: Text)

  datatype Response = Response(epoch: string, next: nat, lines: seq<Line>, truncated: bool)

  /** The unbounded log: everything printed, numbered. */
  function Numbered(log: seq<Printed>): seq<Line> {
    seq(|log|, i requires 0 <= i < |log| => Line(i + 1, log[i].ts, log[i].text))
  }

  lemma NumberedAppend(log: seq<Printed>, p: Printed)
    ensures Numbered(log + [p]) == Numbered(log) + [Line(|log| + 1, p.ts, p.text)]
  {
  }

  function Last<T>(s: seq<T>, n: nat): seq<T> { if |s| > n then s[|s| - n..] else s }

  /** What the buffer holds: the newest lines, at most `cap`. */
  function Kept(log: seq<Printed>, cap: nat): seq<Line> { Last(Numbered(log), cap) }

  lemma KeptAppend(log: seq<Printed>, p: Printed, cap: nat)
    ensures Kept(log + [p], cap) == Last(Kept(log, cap) + [Line(|log| + 1, p.ts, p.text)], cap)
  {
    NumberedAppend(log, p);
  }

  /** The lines numbered above `after`. */
  function Above(lines: seq<Line>, after: int): seq<Line> {
    if lines == [] || lines[0].number > after then lines else Above(lines[1..], after)
  }

  /** The answer to a poll by a client of the buffer's own epoch. */
  function Poll(log: seq<Printed>, cap: nat, epoch: string, after: int, limit: nat): Response {
    var kept := Kept(log, cap);
    var selected := Above(kept, after);
    Response(epoch, |log|, Last(selected, limit),
             |selected| > limit || (kept != [] && after > 0 && kept[0].number > after + 1))
  }

  /** The latest time of a printed line, or 0. */
  ghost predicate IsLatest(ts: int, log: seq<Printed>) {
    (forall p :: p in log ==> p.ts <= ts) && (ts == 0 || exists p :: p in log && p.ts == ts)
  }

  lemma LatestAppend(ts: int, log: seq<Printed>, p: Printed)
    requires IsLatest(ts, log)
    ensures IsLatest(if p.ts > ts then p.ts else ts, log + [p])
  {
    assert forall q :: q in log + [p] <==> q in log || q == p;
  }

  class Ring {
    const cap: nat
    const epoch: string
    var lines: seq<Line>
    var next: nat
    var last: int
    ghost var log: seq<Printed>

    ghost predicate Valid()
      reads this
    {
      lines == Kept(log, cap) && next == |log| + 1 && IsLatest(last, log)
    }

    constructor (capacity: nat, epoch: string)
      ensures Valid() && cap == capacity && this.epoch == epoch && log == []
    {
      cap, this.epoch := capacity, epoch;
      lines, next, last, log := [], 1, 0, [];
    }

    method Append(ts: int, text: Text)
      requires Valid()
      modifies this
      ensures Valid() && log == old(log) + [Printed(ts, text)]
    {
      KeptAppend(log, Printed(ts, text), cap);
      LatestAppend(last, log, Printed(ts, text));
      lines := lines + [Line(next, ts, text)];
      next := next + 1;
      if ts > last { last := ts; }
      var over := |lines| - cap;
      if over > 0 { lines := lines[over..]; }
      assert lines == Last(old(lines) + [Line(old(next), ts, text)], cap);
      log := log + [Printed(ts, text)];
    }

    method StartAbove(from: int) returns (start: nat)
      ensures start <= |lines| && lines[start..] == Above(lines, from)
    {
      start := 0;
      while start < |lines| && lines[start].number <= from
        invariant 0 <= start <= |lines|
        invariant Above(lines[start..], from) == Above(lines, from)
      {
        assert lines[start..][1..] == lines[start + 1..];
        start := start + 1;
      }
    }

    /** The lines numbered above `after`, at most `limit`, newest last. A client of another epoch is
        answered as a new one. */
    method Since(epoch: string, after: int, limit: nat) returns (r: Response)
      requires Valid()
      ensures r == Poll(log, cap, this.epoch, if epoch == this.epoch then after else 0, limit)
      ensures r.next == Newest(log)
    {
      var from := if epoch == this.epoch then after else 0;
      var start := StartAbove(from);
      var truncated := |lines| > 0 && from > 0 && lines[0].number > from + 1;
      var selected := lines[start..];
      if |selected| > limit {
        selected := selected[|selected| - limit..];
        truncated := true;
      }
      r := Response(this.epoch, next - 1, selected, truncated);
    }
  }

  // ---------- what a poll says ----------

  /** The number of the newest line printed, 0 when there is none. */
  function Newest(log: seq<Printed>): (n: nat)
    ensures forall l :: l in Numbered(log) ==> l.number <= n
    ensures log != [] ==> exists l :: l in Numbered(log) && l.number == n
  {
    if log == [] then 0
    else
      assert Numbered(log)[|log| - 1] in Numbered(log);
      Numbered(log)[|log| - 1].number
  }

  /** Next is that number, whatever was asked: no line printed so far is above it, and every later one is. */
  lemma NextIsNewest(log: seq<Printed>, cap: nat, epoch: string, after: int, limit: nat)
    ensures Poll(log, cap, epoch, after, limit).next == Newest(log)
    ensures forall more, l :: l in Numbered(log + more) && l !in Numbered(log) ==>
              l.number > Poll(log, cap, epoch, after, limit).next
  {
    forall more: seq<Printed>, l | l in Numbered(log + more) && l !in Numbered(log)
      ensures l.number > |log|
    {
      assert forall k :: 0 <= k < |log| ==> Numbered(log + more)[k] == Numbered(log)[k] && Numbered(log)[k] in Numbered(log);
    }
  }

  /** Leaving out the lines up to `after` from the log's end leaves a shorter end. */
  lemma {:induction false} AboveIsEnd(log: seq<Printed>, from: nat, after: int)
    requires from <= |log|
    ensures var start := if after <= from then from else if after >= |log| then |log| else after;
            Above(Numbered(log)[from..], after) == Numbered(log)[start..]
    decreases |log| - from
  {
    if from < |log| {
      assert Numbered(log)[from..][0] == Numbered(log)[from];
      assert Numbered(log)[from..][1..] == Numbered(log)[from + 1..];
      if from + 1 <= after { AboveIsEnd(log, from + 1, after); }
    }
  }

  /** How many lines a poll returns. */
  function Returned(log: seq<Printed>, cap: nat, after: int, limit: nat): nat {
    var kept := if |log| > cap then cap else |log|;
    var above := if after <= |log| - kept then kept else if after >= |log| then 0 else |log| - after;
    if above > limit then limit else above
  }

  lemma LastOfEnd(log: seq<Printed>, from: nat, n: nat)
    requires from <= |log|
    ensures Last(Numbered(log)[from..], n) == Numbered(log)[if |log| - from > n then |log| - n else from..]
  {
  }

  /** The lines a poll returns are the newest of the log, whole and in order. */
  lemma PollReturns(log: seq<Printed>, cap: nat, epoch: string, after: int, limit: nat)
    ensures Poll(log, cap, epoch, after, limit).lines == Numbered(log)[|log| - Returned(log, cap, after, limit)..]
    ensures |Poll(log, cap, epoch, after, limit).lines| == Returned(log, cap, after, limit)
  {
    var from := if |log| > cap then |log| - cap else 0;
    assert Numbered(log) == Numbered(log)[0..];
    LastOfEnd(log, 0, cap);
    AboveIsEnd(log, from, after);
    LastOfEnd(log, if after <= from then from else if after >= |log| then |log| else after, limit);
  }

  /** When a poll says that its answer is cut. */
  lemma PollTruncates(log: seq<Printed>, cap: nat, epoch: string, after: int, limit: nat)
    ensures var kept := if |log| > cap then cap else |log|;
            var above := if after <= |log| - kept then kept else if after >= |log| then 0 else |log| - after;
            Poll(log, cap, epoch, after, limit).truncated <==> above > limit || (kept > 0 && after > 0 && |log| - kept > after)
  {
    var from := if |log| > cap then |log| - cap else 0;
    assert Numbered(log) == Numbered(log)[0..];
    LastOfEnd(log, 0, cap);
    AboveIsEnd(log, from, after);
  }

  /** Some line numbered above `after` isn't returned. */
  ghost predicate Misses(log: seq<Printed>, r: Response, after: int) {
    exists l :: l in Numbered(log) && l.number > after && l !in r.lines
  }

  /** An answer that holds the last `n` lines misses one exactly when it starts after `after` + 1. */
  lemma EndMisses(log: seq<Printed>, r: Response, n: nat, after: int)
    requires n <= |log| && r.lines == Numbered(log)[|log| - n..]
    ensures Misses(log, r, after) <==> n < |log| && after < |log| - n
  {
    var dropped := |log| - n;
    if dropped > 0 && after < dropped {
      var l := Numbered(log)[dropped - 1];
      assert l.number == dropped && l in Numbered(log);
      assert forall k :: 0 <= k < n ==> r.lines[k].number == dropped + k + 1;
    }
    forall l | l in Numbered(log) && l.number > dropped
      ensures l in r.lines
    {
      assert l == Numbered(log)[l.number - 1];
      assert r.lines[l.number - 1 - dropped] == l;
    }
  }

  lemma MissesByCount(log: seq<Printed>, cap: nat, epoch: string, after: int, limit: nat)
    ensures var n := Returned(log, cap, after, limit);
            Misses(log, Poll(log, cap, epoch, after, limit), after) <==> n < |log| && after < |log| - n
  {
    PollReturns(log, cap, epoch, after, limit);
    EndMisses(log, Poll(log, cap, epoch, after, limit), Returned(log, cap, after, limit), after);
  }

  /** A poll's Truncated says that a line above `after` is missing from its answer, exactly when `after`
      is above 0, or no line has left the buffer, or the answer is cut to the limit. */
  lemma TruncatedExactly(log: seq<Printed>, cap: nat, epoch: string, after: int, limit: nat)
    requires cap > 0
    ensures var r := Poll(log, cap, epoch, after, limit);
            (r.truncated <==> Misses(log, r, after)) <==> after > 0 || |log| <= cap || limit < cap
  {
    MissesByCount(log, cap, epoch, after, limit);
    PollReturns(log, cap, epoch, after, limit);
    PollTruncates(log, cap, epoch, after, limit);
  }

  /** The case it leaves out: a client whose first poll found an empty buffer asks on with 0, and is not
      told when lines have come and gone since. */
  lemma EmptyFirstPollMisses(epoch: string, a: Printed, b: Printed)
    ensures var first := Poll([], 1, epoch, 0, 10);
            var second := Poll([a, b], 1, epoch, first.next, 10);
            !second.truncated && Misses([a, b], second, first.next)
  {
    TruncatedExactly([a, b], 1, epoch, 0, 10);
    PollTruncates([a, b], 1, epoch, 0, 10);
  }

  /** The log at each of a client's polls: it only grows. */
  ghost predicate Grows(logs: seq<seq<Printed>>) {
    forall i, k :: 0 <= i <= k < |logs| ==> logs[i] <= logs[k]
  }

  /** The answer to a client's last poll: the first one asks from `after`, every other from the Next of the
      answer before. */
  function Answer(logs: seq<seq<Printed>>, cap: nat, epoch: string, limit: nat, after: int): Response
    requires logs != []
  {
    var from := if |logs| == 1 then after else Answer(logs[..|logs| - 1], cap, epoch, limit, after).next;
    Poll(logs[|logs| - 1], cap, epoch, from, limit)
  }

  /** All lines of a client's answers. */
  function Received(logs: seq<seq<Printed>>, cap: nat, epoch: string, limit: nat, after: int): seq<Line>
    requires logs != []
  {
    (if |logs| == 1 then [] else Received(logs[..|logs| - 1], cap, epoch, limit, after))
    + Answer(logs, cap, epoch, limit, after).lines
  }

  /** No poll after the first one is told that its answer is cut. */
  predicate NeverTruncated(logs: seq<seq<Printed>>, cap: nat, epoch: string, limit: nat, after: int) {
    |logs| > 1 ==>
      && NeverTruncated(logs[..|logs| - 1], cap, epoch, limit, after)
      && !Answer(logs, cap, epoch, limit, after).truncated
  }

  /** Where what the client got first starts. */
  function Start(log: seq<Printed>, cap: nat, after: int, limit: nat): nat { |log| - Returned(log, cap, after, limit) }

  /** Some poll that still asked from 0, because nothing had been printed, found more than the buffer holds. */
  predicate Outrun(logs: seq<seq<Printed>>, cap: nat) {
    |logs| > 1 && (Outrun(logs[..|logs| - 1], cap) || (logs[|logs| - 2] == [] && |logs[|logs| - 1]| > cap))
  }

  lemma OneMorePoll(before: seq<Printed>, now: seq<Printed>, cap: nat, epoch: string, limit: nat, from: nat, next: nat)
    requires cap > 0 && before <= now && from <= |before| && next == Newest(before)
    requires !Poll(now, cap, epoch, next, limit).truncated
    ensures var lines := Poll(now, cap, epoch, next, limit).lines;
            && |lines| <= |now| - |before|
            && (if before == [] && |now| > cap then |lines| < |now| - |before|
                else Numbered(before)[from..] + lines == Numbered(now)[from..])
  {
    PollReturns(now, cap, epoch, next, limit);
    PollTruncates(now, cap, epoch, next, limit);
    assert Numbered(before) == Numbered(now)[..|before|];
  }

  lemma {:induction false} PollsReceive(logs: seq<seq<Printed>>, cap: nat, epoch: string, limit: nat, after: int)
    requires cap > 0 && logs != [] && Grows(logs) && NeverTruncated(logs, cap, epoch, limit, after)
    ensures var got, from := Received(logs, cap, epoch, limit, after), Start(logs[0], cap, after, limit);
            var end := logs[|logs| - 1];
            && from <= |logs[0]| <= |end| && |got| <= |end| - from
            && (if Outrun(logs, cap) then |got| < |end| - from else got == Numbered(end)[from..])
  {
    if |logs| == 1 {
      PollReturns(logs[0], cap, epoch, after, limit);
    } else {
      var init := logs[..|logs| - 1];
      PollsReceive(init, cap, epoch, limit, after);
      var prior := Answer(init, cap, epoch, limit, after);
      NextIsNewest(init[|init| - 1], cap, epoch, if |init| == 1 then after else Answer(init[..|init| - 1], cap, epoch, limit, after).next, limit);
      OneMorePoll(init[|init| - 1], logs[|logs| - 1], cap, epoch, limit, Start(logs[0], cap, after, limit), prior.next);
    }
  }

  lemma {:induction false} NotOutrun(logs: seq<seq<Printed>>, cap: nat)
    requires logs != [] && Grows(logs) && logs[0] != []
    ensures !Outrun(logs, cap)
  {
    if |logs| > 1 {
      NotOutrun(logs[..|logs| - 1], cap);
      assert logs[0] <= logs[|logs| - 2];
    }
  }

  /** A client polling with Next that never sees Truncated after its first poll misses no line and
      repeats none, so that what it has is the end of the log from where its first answer starts, exactly
      when the log never outran it while it still asked from 0; it never does once the first poll found
      something printed. */
  lemma PollingMissesNothing(logs: seq<seq<Printed>>, cap: nat, epoch: string, limit: nat, after: int)
    requires cap > 0 && logs != [] && Grows(logs) && NeverTruncated(logs, cap, epoch, limit, after)
    ensures var from, end := Start(logs[0], cap, after, limit), logs[|logs| - 1];
            && from <= |end|
            && (Received(logs, cap, epoch, limit, after) == Numbered(end)[from..] <==> !Outrun(logs, cap))
    ensures logs[0] != [] ==> !Outrun(logs, cap)
  {
    PollsReceive(logs, cap, epoch, limit, after);
    if logs[0] != [] { NotOutrun(logs, cap); }
  }
}
