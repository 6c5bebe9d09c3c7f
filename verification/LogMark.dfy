/** How far the follower has read a container run's log, and which of the lines Docker sends again are
    new. */
module LogMark {
  /** A log line; a timestamp of 0 is none. */
  datatype Line = Line(ts: nat, raw: string)

  datatype Mark = Mark(container: string, run: nat, ts: nat, raw: set<string>)

  /** The mark after a line, and whether the line is new. */
  datatype Note = Note(mark: Mark, isNew: bool)

  function Noted(m: Mark, container: string, run: nat, l: Line): Note {
    var m := if m.container != container || m.run != run then Mark(container, run, 0, {}) else m;
    if l.ts == 0 then Note(m, true)
    else if l.ts < m.ts then Note(m, false)
    else
      var m := if l.ts > m.ts then m.(ts := l.ts, raw := {}) else m;
      if l.raw in m.raw then Note(m, false) else Note(m.(raw := m.raw + {l.raw}), true)
  }

  /** The mark after reading `lines`. */
  function MarkAfter(m: Mark, container: string, run: nat, lines: seq<Line>): Mark
    decreases |lines|
  {
    if lines == [] then m else MarkAfter(Noted(m, container, run, lines[0]).mark, container, run, lines[1..])
  }

  /** The new ones of `lines`. */
  function Taken(m: Mark, container: string, run: nat, lines: seq<Line>): seq<Line>
    decreases |lines|
  {
    if lines == [] then []
    else
      var noted := Noted(m, container, run, lines[0]);
      (if noted.isNew then [lines[0]] else []) + Taken(noted.mark, container, run, lines[1..])
  }

  class Follower {
    var container: string
    var run: nat
    var ts: nat
    /** The lines read at `ts`. */
    var raw: set<string>

    function State(): Mark
      reads this
    {
      Mark(container, run, ts, raw)
    }

    constructor ()
      ensures State() == Mark("", 0, 0, {})
    {
      container, run, ts, raw := "", 0, 0, {};
    }

    method Next(container: string, run: nat, l: Line) returns (isNew: bool)
      modifies this
      ensures Note(State(), isNew) == Noted(old(State()), container, run, l)
    {
      if this.container != container || this.run != run {
        this.container, this.run, ts, raw := container, run, 0, {};
      }
      if l.ts == 0 { return true; }
      if l.ts < ts { return false; }
      if l.ts > ts { ts, raw := l.ts, {}; }
      if l.raw in raw { return false; }
      raw := raw + {l.raw};
      return true;
    }

    /** Reads what one attach to the log sends, and takes in the new lines. */
    method Attach(container: string, run: nat, lines: seq<Line>) returns (taken: seq<Line>)
      modifies this
      ensures State() == MarkAfter(old(State()), container, run, lines)
      ensures taken == Taken(old(State()), container, run, lines)
    {
      taken := [];
      ghost var n := |lines|;
      assert lines[0..n] == lines;
      for i := 0 to |lines|
        invariant MarkAfter(State(), container, run, lines[i..n]) == MarkAfter(old(State()), container, run, lines)
        invariant taken + Taken(State(), container, run, lines[i..n]) == Taken(old(State()), container, run, lines)
      {
        ghost var noted := Noted(State(), container, run, lines[i]);
        OneLine(State(), container, run, lines, i, n);
        Associates(taken, if noted.isNew then [lines[i]] else [], Taken(noted.mark, container, run, lines[i + 1..n]));
        var isNew := Next(container, run, lines[i]);
        if isNew { taken := taken + [lines[i]]; }
      }
    }
  }

  // ---------- one run's log, attached to again and again ----------

  ghost predicate Dated(log: seq<Line>) {
    && (forall i :: 0 <= i < |log| ==> log[i].ts > 0)
    && (forall i, k :: 0 <= i < k < |log| ==> log[i].ts <= log[k].ts)
  }

  /** The lines of `log` without repeats, where they come first. */
  function Distinct(log: seq<Line>): seq<Line> {
    if log == [] then []
    else
      var rest := Distinct(log[..|log| - 1]);
      var last := log[|log| - 1];
      if last in log[..|log| - 1] then rest else rest + [last]
  }

  /** Every line is kept, once, in the order of first appearance. */
  lemma {:induction false} DistinctKeepsAll(log: seq<Line>)
    ensures forall l :: l in log <==> l in Distinct(log)
    ensures forall i, k :: 0 <= i < k < |Distinct(log)| ==> Distinct(log)[i] != Distinct(log)[k]
    ensures forall i, k :: 0 <= i < k < |Distinct(log)| ==> ComesFirst(log, Distinct(log)[i], Distinct(log)[k])
  {
    if log != [] {
      var init, last := log[..|log| - 1], log[|log| - 1];
      DistinctKeepsAll(init);
      assert log == init + [last];
      assert forall l :: l in log <==> l in init || l == last;
      forall i, k | 0 <= i < k < |Distinct(log)|
        ensures ComesFirst(log, Distinct(log)[i], Distinct(log)[k])
      {
        if k < |Distinct(init)| {
          FirstStays(init, last, Distinct(init)[i], Distinct(init)[k]);
        } else {
          assert Distinct(init)[i] in init;
          FirstBeforeNew(init, last, Distinct(init)[i]);
        }
      }
    }
  }

  lemma FirstStays(log: seq<Line>, l: Line, a: Line, b: Line)
    requires ComesFirst(log, a, b)
    ensures ComesFirst(log + [l], a, b)
  {
    var n :| 0 <= n < |log| && log[n] == a && forall m :: 0 <= m <= n ==> log[m] != b;
    assert (log + [l])[n] == a;
  }

  lemma FirstBeforeNew(log: seq<Line>, l: Line, a: Line)
    requires a in log && l !in log
    ensures ComesFirst(log + [l], a, l)
  {
    var n :| 0 <= n < |log| && log[n] == a;
    assert (log + [l])[n] == a && forall m :: 0 <= m <= n ==> (log + [l])[m] == log[m] && log[m] in log;
  }

  /** Some `a` comes before every `b`. */
  ghost predicate ComesFirst(log: seq<Line>, a: Line, b: Line) {
    exists n :: 0 <= n < |log| && log[n] == a && forall m :: 0 <= m <= n ==> log[m] != b
  }

  /** The mark of a follower that has read the first `n` lines of the run's log. */
  ghost predicate ReadTo(m: Mark, container: string, run: nat, log: seq<Line>, n: nat) {
    if n == 0 then m.container != container || m.run != run || (m.ts == 0 && m.raw == {})
    else
      && n <= |log| && m.container == container && m.run == run && m.ts == log[n - 1].ts
      && (forall r :: r in m.raw <==> Line(m.ts, r) in log[..n])
  }

  lemma OldLineRefused(m: Mark, container: string, run: nat, log: seq<Line>, n: nat, k: nat)
    requires Dated(log) && ReadTo(m, container, run, log, n) && k < n
    ensures Noted(m, container, run, log[k]) == Note(m, false)
  {
    assert log[k] in log[..n];
  }

  lemma NewLineNoted(m: Mark, container: string, run: nat, log: seq<Line>, n: nat)
    requires Dated(log) && ReadTo(m, container, run, log, n) && n < |log|
    ensures var noted := Noted(m, container, run, log[n]);
            ReadTo(noted.mark, container, run, log, n + 1) && (noted.isNew <==> log[n] !in log[..n])
  {
    assert log[..n + 1] == log[..n] + [log[n]];
    if n > 0 && log[n].ts > log[n - 1].ts {
      assert forall l :: l in log[..n] ==> l.ts <= log[n - 1].ts;
    }
  }

  lemma DistinctOneMore(log: seq<Line>, n: nat)
    requires n < |log|
    ensures Distinct(log[..n + 1]) == Distinct(log[..n]) + if log[n] in log[..n] then [] else [log[n]]
  {
    assert log[..n + 1][..n] == log[..n];
  }

  lemma Associates(a: seq<Line>, b: seq<Line>, c: seq<Line>)
    ensures a + (b + c) == a + b + c
  {
  }

  lemma OneLine(m: Mark, container: string, run: nat, log: seq<Line>, at: nat, upTo: nat)
    requires at < upTo <= |log|
    ensures var noted := Noted(m, container, run, log[at]);
            && MarkAfter(m, container, run, log[at..upTo]) == MarkAfter(noted.mark, container, run, log[at + 1..upTo])
            && Taken(m, container, run, log[at..upTo])
               == (if noted.isNew then [log[at]] else []) + Taken(noted.mark, container, run, log[at + 1..upTo])
  {
    var lines := log[at..upTo];
    assert lines[0] == log[at] && lines[1..] == log[at + 1..upTo];
  }

  /** Lines the follower has not read yet. */
  lemma {:induction false} NewLinesTaken(m: Mark, container: string, run: nat, log: seq<Line>, n: nat, upTo: nat)
    requires Dated(log) && n <= upTo <= |log| && ReadTo(m, container, run, log, n)
    ensures ReadTo(MarkAfter(m, container, run, log[n..upTo]), container, run, log, upTo)
    ensures Distinct(log[..upTo]) == Distinct(log[..n]) + Taken(m, container, run, log[n..upTo])
    decreases upTo - n
  {
    if n == upTo {
      assert log[n..upTo] == [];
    } else {
      OneLine(m, container, run, log, n, upTo);
      NewLineNoted(m, container, run, log, n);
      DistinctOneMore(log, n);
      var noted := Noted(m, container, run, log[n]);
      NewLinesTaken(noted.mark, container, run, log, n + 1, upTo);
      Associates(Distinct(log[..n]), if noted.isNew then [log[n]] else [],
                 Taken(noted.mark, container, run, log[n + 1..upTo]));
    }
  }

  /** Lines the follower has read leave no trace. */
  lemma {:induction false} OldLinesRefused(m: Mark, container: string, run: nat, log: seq<Line>, n: nat, at: nat, upTo: nat)
    requires Dated(log) && n <= |log| && ReadTo(m, container, run, log, n) && at <= n && at <= upTo <= |log|
    ensures var start := if n < upTo then n else upTo;
            && MarkAfter(m, container, run, log[at..upTo]) == MarkAfter(m, container, run, log[start..upTo])
            && Taken(m, container, run, log[at..upTo]) == Taken(m, container, run, log[start..upTo])
    decreases n - at
  {
    if at < n && at < upTo {
      OneLine(m, container, run, log, at, upTo);
      OldLineRefused(m, container, run, log, n, at);
      OldLinesRefused(m, container, run, log, n, at + 1, upTo);
    }
  }

  /** An attach that sends the lines from index `at` on, none of them after a gap. */
  lemma AttachTakesNew(m: Mark, container: string, run: nat, log: seq<Line>, n: nat, at: nat, upTo: nat)
    requires Dated(log) && ReadTo(m, container, run, log, n) && n <= |log| && at <= n && at <= upTo <= |log|
    ensures var far := if upTo > n then upTo else n;
            && ReadTo(MarkAfter(m, container, run, log[at..upTo]), container, run, log, far)
            && Distinct(log[..far]) == Distinct(log[..n]) + Taken(m, container, run, log[at..upTo])
  {
    OldLinesRefused(m, container, run, log, n, at, upTo);
    if n < upTo { NewLinesTaken(m, container, run, log, n, upTo); }
    else { assert log[upTo..upTo] == []; }
  }

  /** The first line dated at or after `since`, which is where Docker starts sending. */
  function FirstSince(log: seq<Line>, since: nat): nat {
    if log == [] || log[0].ts >= since then 0 else 1 + FirstSince(log[1..], since)
  }

  lemma {:induction false} FirstSinceIs(log: seq<Line>, since: nat)
    requires Dated(log)
    ensures var at := FirstSince(log, since);
            && at <= |log|
            && (forall k :: 0 <= k < at ==> log[k].ts < since)
            && (forall k :: at <= k < |log| ==> log[k].ts >= since)
  {
    if log != [] && log[0].ts < since { FirstSinceIs(log[1..], since); }
  }

  /** Asked from `since`, Docker starts at or before the first line that is not among the `n` read. */
  predicate InTime(log: seq<Line>, n: nat, since: nat) {
    n <= |log| && (n == |log| || since <= log[n].ts)
  }

  /** An attach passes over no line if and only if it asks from at or before the next line's date. */
  lemma InTimeExactly(log: seq<Line>, since: nat, n: nat)
    requires Dated(log) && n <= |log|
    ensures FirstSince(log, since) <= n <==> InTime(log, n, since)
  {
    FirstSinceIs(log, since);
  }

  /** One attach: Docker sends the lines dated from `since` on, up to index `upTo`. */
  datatype Look = Look(since: nat, upTo: nat)

  function Sent(log: seq<Line>, look: Look): seq<Line>
    requires look.upTo <= |log|
  {
    var at := FirstSince(log, look.since);
    if at <= look.upTo then log[at..look.upTo] else []
  }

  /** Where the follower has got after a look, when it had got to `n`; one that sends nothing leaves it
      there. */
  function Furthest(log: seq<Line>, n: nat, look: Look): nat {
    if FirstSince(log, look.since) < look.upTo && look.upTo > n then look.upTo else n
  }

  /** The look starts after a gap with a line in it that was not read before. */
  ghost predicate Loses(log: seq<Line>, n: nat, look: Look)
    requires n <= |log| && look.upTo <= |log|
  {
    var at := FirstSince(log, look.since);
    n < at < look.upTo && exists k :: n <= k < at && log[k] !in log[..n]
  }

  /** Every look stays within the log. */
  predicate Within(log: seq<Line>, looks: seq<Look>) { forall look :: look in looks ==> look.upTo <= |log| }

  /** All lines taken over a sequence of looks. */
  function TakenOver(m: Mark, container: string, run: nat, log: seq<Line>, looks: seq<Look>): seq<Line>
    requires Within(log, looks)
    decreases |looks|
  {
    if looks == [] then []
    else
      var sent := Sent(log, looks[0]);
      Taken(m, container, run, sent) + TakenOver(MarkAfter(m, container, run, sent), container, run, log, looks[1..])
  }

  /** How far a sequence of looks gets. */
  function SeenBy(log: seq<Line>, n: nat, looks: seq<Look>): nat
    decreases |looks|
  {
    if looks == [] then n else SeenBy(log, Furthest(log, n, looks[0]), looks[1..])
  }

  /** No look of the sequence loses a line. */
  ghost predicate NoneLoses(log: seq<Line>, n: nat, looks: seq<Look>)
    requires n <= |log| && Within(log, looks)
    decreases |looks|
  {
    looks != [] ==> !Loses(log, n, looks[0]) && NoneLoses(log, Furthest(log, n, looks[0]), looks[1..])
  }

  /** Every look asks in time. */
  ghost predicate Replays(log: seq<Line>, n: nat, looks: seq<Look>)
    decreases |looks|
  {
    looks != [] ==> InTime(log, n, looks[0].since) && Replays(log, Furthest(log, n, looks[0]), looks[1..])
  }

  /** More lines bring no new one exactly when each was there before. */
  lemma {:induction false} DistinctGrows(log: seq<Line>, n: nat, at: nat)
    requires n <= at <= |log|
    ensures |Distinct(log[..n])| <= |Distinct(log[..at])|
    ensures |Distinct(log[..n])| == |Distinct(log[..at])| <==> forall k :: n <= k < at ==> log[k] in log[..n]
    ensures |Distinct(log[..n])| == |Distinct(log[..at])| ==> Distinct(log[..n]) == Distinct(log[..at])
    decreases at
  {
    if n < at {
      DistinctGrows(log, n, at - 1);
      DistinctOneMore(log, at - 1);
      if forall k :: n <= k < at - 1 ==> log[k] in log[..n] {
        assert log[at - 1] in log[..at - 1] <==> log[at - 1] in log[..n];
      }
    }
  }

  /** An attach that starts after a gap takes what follows the gap, as if the gap had been read. */
  lemma SkipTakesRest(m: Mark, container: string, run: nat, log: seq<Line>, n: nat, at: nat, upTo: nat)
    requires Dated(log) && n < at < upTo <= |log| && ReadTo(m, container, run, log, n) && log[at - 1].ts < log[at].ts
    ensures ReadTo(MarkAfter(m, container, run, log[at..upTo]), container, run, log, upTo)
    ensures Distinct(log[..upTo]) == Distinct(log[..at]) + Taken(m, container, run, log[at..upTo])
  {
    NewLinesTaken(m, container, run, log, n, at);
    var read := MarkAfter(m, container, run, log[n..at]);
    NewLinesTaken(read, container, run, log, at, upTo);
    assert Noted(m, container, run, log[at]) == Noted(read, container, run, log[at]);
    OneLine(m, container, run, log, at, upTo);
    OneLine(read, container, run, log, at, upTo);
  }

  /** One look takes every line up to where it gets that was not read before, or loses one for good. */
  lemma LookTakesNew(m: Mark, container: string, run: nat, log: seq<Line>, n: nat, look: Look)
    requires Dated(log) && n <= |log| && look.upTo <= |log| && ReadTo(m, container, run, log, n)
    ensures var taken, far := Taken(m, container, run, Sent(log, look)), Furthest(log, n, look);
            && ReadTo(MarkAfter(m, container, run, Sent(log, look)), container, run, log, far)
            && (!Loses(log, n, look) ==> Distinct(log[..far]) == Distinct(log[..n]) + taken)
            && (Loses(log, n, look) ==> |Distinct(log[..far])| > |Distinct(log[..n])| + |taken|)
  {
    var at := FirstSince(log, look.since);
    FirstSinceIs(log, look.since);
    if at >= look.upTo {
      assert Sent(log, look) == [];
    } else if at <= n {
      AttachTakesNew(m, container, run, log, n, at, look.upTo);
    } else {
      SkipTakesRest(m, container, run, log, n, at, look.upTo);
      DistinctGrows(log, n, at);
    }
  }

  /** Over any looks at one run's log, wherever they start and break off: every distinct line up to where
      they get is taken exactly once, in log order, if and only if no look loses one. A look that loses
      one starts after a gap with a line in it that was not read before; no later look makes up for it. */
  lemma {:induction false} EveryLineOnceExactly(m: Mark, container: string, run: nat, log: seq<Line>, n: nat, looks: seq<Look>)
    requires Dated(log) && n <= |log| && ReadTo(m, container, run, log, n) && Within(log, looks)
    ensures n <= SeenBy(log, n, looks) <= |log|
    ensures var taken, seen := TakenOver(m, container, run, log, looks), SeenBy(log, n, looks);
            && (Distinct(log[..n]) + taken == Distinct(log[..seen]) <==> NoneLoses(log, n, looks))
            && (!NoneLoses(log, n, looks) ==> |Distinct(log[..n])| + |taken| < |Distinct(log[..seen])|)
    decreases |looks|
  {
    if looks != [] {
      var look := looks[0];
      LookTakesNew(m, container, run, log, n, look);
      var sent := Sent(log, look);
      var next := MarkAfter(m, container, run, sent);
      EveryLineOnceExactly(next, container, run, log, Furthest(log, n, look), looks[1..]);
      Associates(Distinct(log[..n]), Taken(m, container, run, sent), TakenOver(next, container, run, log, looks[1..]));
    }
  }

  /** Looks that ask in time lose nothing. */
  lemma {:induction false} EveryLineOnce(m: Mark, container: string, run: nat, log: seq<Line>, n: nat, looks: seq<Look>)
    requires Dated(log) && n <= |log| && ReadTo(m, container, run, log, n) && Within(log, looks) && Replays(log, n, looks)
    ensures NoneLoses(log, n, looks) && SeenBy(log, n, looks) <= |log|
    ensures Distinct(log[..n]) + TakenOver(m, container, run, log, looks) == Distinct(log[..SeenBy(log, n, looks)])
    decreases |looks|
  {
    if looks != [] {
      InTimeExactly(log, looks[0].since, n);
      LookTakesNew(m, container, run, log, n, looks[0]);
      EveryLineOnce(MarkAfter(m, container, run, Sent(log, looks[0])), container, run, log,
                    Furthest(log, n, looks[0]), looks[1..]);
    }
    EveryLineOnceExactly(m, container, run, log, n, looks);
  }

  // ---------- lines without a date ----------

  /** The lines that have a date, or those that don't. */
  function Pick(lines: seq<Line>, dated: bool): seq<Line> {
    if lines == [] then []
    else (if (lines[0].ts > 0) == dated then [lines[0]] else []) + Pick(lines[1..], dated)
  }

  /** A mark of another run says no more than an empty one. */
  function ForRun(m: Mark, container: string, run: nat): Mark {
    if m.container != container || m.run != run then Mark(container, run, 0, {}) else m
  }

  lemma {:induction false} ForRunTakesSame(m: Mark, container: string, run: nat, lines: seq<Line>)
    ensures Taken(ForRun(m, container, run), container, run, lines) == Taken(m, container, run, lines)
    ensures lines != [] ==> MarkAfter(ForRun(m, container, run), container, run, lines) == MarkAfter(m, container, run, lines)
  {
    if lines != [] {
      assert Noted(ForRun(m, container, run), container, run, lines[0]) == Noted(m, container, run, lines[0]);
    }
  }

  lemma PickFirst(l: Line, rest: seq<Line>, dated: bool)
    ensures Pick([l] + rest, dated) == if (l.ts > 0) == dated then [l] + Pick(rest, dated) else Pick(rest, dated)
  {
    assert ([l] + rest)[1..] == rest;
  }

  /** Every line without a date is new, and of the others it changes nothing: those are taken as if it
      weren't there. */
  lemma {:induction false} UndatedAlwaysTaken(m: Mark, container: string, run: nat, lines: seq<Line>)
    ensures var taken := Taken(m, container, run, lines);
            Pick(taken, false) == Pick(lines, false) && Pick(taken, true) == Taken(m, container, run, Pick(lines, true))
    decreases |lines|
  {
    if lines != [] {
      var l, rest := lines[0], lines[1..];
      var noted := Noted(m, container, run, l);
      UndatedAlwaysTaken(noted.mark, container, run, rest);
      var after := Taken(noted.mark, container, run, rest);
      assert Taken(m, container, run, lines) == if noted.isNew then [l] + after else after;
      PickFirst(l, after, false);
      PickFirst(l, after, true);
      assert [l] + rest == lines;
      PickFirst(l, rest, false);
      PickFirst(l, rest, true);
      if l.ts == 0 {
        ForRunTakesSame(m, container, run, Pick(rest, true));
      } else {
        assert Pick(lines, true)[1..] == Pick(rest, true);
      }
    }
  }

  // ---------- where an attach asks from ----------

  /** The stored cursor: a container, and the time of the last line read of it. */
  datatype Cursor = Cursor(container: string, ts: nat)

  /** Where the follower asks to start: at the cursor, or, on the first attach to a run, at the run's
      start if that is earlier. A run start of 0 is unknown. */
  function AskFrom(cur: Cursor, container: string, runStart: nat, first: bool): nat {
    var since := if cur.container == container then cur.ts else 0;
    if first && 0 < runStart < since then runStart else since
  }

  /** The attach the code makes passes over no line if and only if it is the first one to a run with a
      known start, the cursor is another container's, everything has been read, or the cursor is not past
      the next line. */
  lemma AsksInTimeExactly(log: seq<Line>, n: nat, cur: Cursor, container: string, runStart: nat, first: bool)
    requires Dated(log) && n <= |log|
    requires forall l :: l in log ==> runStart <= l.ts
    ensures FirstSince(log, AskFrom(cur, container, runStart, first)) <= n <==>
              || (first && runStart > 0)
              || cur.container != container
              || n == |log|
              || cur.ts <= log[n].ts
  {
    InTimeExactly(log, AskFrom(cur, container, runStart, first), n);
    if n < |log| { assert log[n] in log; }
  }

  /** When the replay of a restarted agent breaks off after its first line, the cursor is still where the
      agent before it had got, and the next attach passes over the line in between for good. */
  lemma BrokenFirstAttachSkips(container: string, run: nat, a: string, b: string, c: string)
    requires run > 0
    ensures var log := [Line(run, a), Line(run + 1, b), Line(run + 2, c)];
            var cur := Cursor(container, run + 2);
            && Sent(log, Look(AskFrom(cur, container, run, true), 1)) == log[..1]
            && Sent(log, Look(AskFrom(cur, container, run, false), 3)) == log[2..]
            && FirstSince(log, AskFrom(cur, container, run, false)) > 1
            && Loses(log, 1, Look(AskFrom(cur, container, run, false), 3))
  {
    var log := [Line(run, a), Line(run + 1, b), Line(run + 2, c)];
    var tail := log[1..];
    assert tail[0] == Line(run + 1, b) && tail[1..][0] == Line(run + 2, c);
    assert FirstSince(log, run) == 0 && FirstSince(tail[1..], run + 2) == 0;
    assert FirstSince(tail, run + 2) == 1;
    assert log[1] !in log[..1];
  }
}
