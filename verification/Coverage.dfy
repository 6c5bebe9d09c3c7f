/** How much of a stretch of time the samples cover, and the chart's buckets.

    Times are whole nanoseconds from the zero time on, which no sample comes before. */
module Coverage {
  import opened Options
  import opened Sets

  ghost predicate Sorted(ts: seq<nat>) { forall i, k :: 0 <= i < k < |ts| ==> ts[i] <= ts[k] }

  /** `t` lies within one interval after one of the first `n` samples. */
  ghost predicate Near(ts: seq<nat>, n: nat, interval: int, t: int)
    requires n <= |ts|
  {
    exists i :: 0 <= i < n && ts[i] <= t < ts[i] + interval
  }

  /** The instants of [from, to) within one interval after one of the first `n` samples. */
  ghost function CoveredBy(ts: seq<nat>, n: nat, from: int, to: int, interval: int): (c: set<int>)
    requires n <= |ts|
    ensures forall t :: t in c <==> from <= t < to && Near(ts, n, interval, t)
  {
    set t | from <= t < to && Near(ts, n, interval, t)
  }

  /** The instants of [from, to) within one interval after some sample. */
  ghost function Covered(ts: seq<nat>, from: int, to: int, interval: int): set<int> {
    CoveredBy(ts, |ts|, from, to, interval)
  }

  ghost function Share(ts: seq<nat>, from: int, to: int, interval: int): real {
    if to <= from then 0.0 else |Covered(ts, from, to, interval)| as real / (to - from) as real
  }

  /** The instants of [lo, hi). */
  ghost function Range(lo: int, hi: int): (r: set<int>)
    ensures forall t :: t in r <==> lo <= t < hi
    ensures |r| == if lo < hi then hi - lo else 0
    decreases hi - lo
  {
    if lo < hi then Range(lo, hi - 1) + {hi - 1} else {}
  }

  /** The first sample at or after `bound`, by halving. */
  method Search(ts: seq<nat>, bound: int) returns (i: nat)
    requires Sorted(ts)
    ensures i <= |ts|
    ensures forall k :: 0 <= k < i ==> ts[k] < bound
    ensures forall k :: i <= k < |ts| ==> ts[k] >= bound
  {
    i := 0;
    var j := |ts|;
    while i < j
      invariant 0 <= i <= j <= |ts|
      invariant forall k :: 0 <= k < i ==> ts[k] < bound
      invariant forall k :: j <= k < |ts| ==> ts[k] >= bound
    {
      var h := (i + j) / 2;
      if ts[h] < bound { i := h + 1; } else { j := h; }
    }
  }

  /** What sample `i` adds to a sweep that has reached `reach`. */
  lemma SweepStep(ts: seq<nat>, i: nat, from: int, to: int, interval: int, reach: int)
    requires Sorted(ts) && i < |ts| && 0 <= from
    requires forall t :: t in CoveredBy(ts, i, from, to, interval) ==> t < reach
    requires forall t :: from <= t < reach && t < to && ts[i] <= t ==> t in CoveredBy(ts, i, from, to, interval)
    ensures var more := Range(Max(Max(ts[i], from), reach), Min(ts[i] + interval, to));
            var before := CoveredBy(ts, i, from, to, interval);
            CoveredBy(ts, i + 1, from, to, interval) == before + more && before !! more
  {
    var before, after := CoveredBy(ts, i, from, to, interval), CoveredBy(ts, i + 1, from, to, interval);
    var more := Range(Max(Max(ts[i], from), reach), Min(ts[i] + interval, to));
    forall t
      ensures t in after <==> t in before || t in more
    {
      NearOneMore(ts, i, interval, t);
    }
  }

  lemma NearOneMore(ts: seq<nat>, i: nat, interval: int, t: int)
    requires i < |ts|
    ensures Near(ts, i + 1, interval, t) <==> Near(ts, i, interval, t) || ts[i] <= t < ts[i] + interval
  {
  }

  function Max(a: int, b: int): int { if a > b then a else b }

  function Min(a: int, b: int): int { if a < b then a else b }

  /** How far the sweep over the first `i` samples has got. */
  ghost predicate Swept(ts: seq<nat>, i: nat, from: int, to: int, interval: int, covered: int, reach: int) {
    && i <= |ts| && 0 <= reach <= to
    && covered == |CoveredBy(ts, i, from, to, interval)|
    && Reached(ts, i, from, to, interval, reach)
  }

  /** Whether the sweep covers everything between the next sample and where it has reached. */
  ghost predicate Reached(ts: seq<nat>, i: nat, from: int, to: int, interval: int, reach: int)
    requires i <= |ts|
  {
    && (forall t :: t in CoveredBy(ts, i, from, to, interval) ==> t < reach)
    && (i < |ts| ==> forall t :: from <= t < reach && ts[i] <= t ==> t in CoveredBy(ts, i, from, to, interval))
  }

  lemma ReachedOne(ts: seq<nat>, i: nat, from: int, to: int, interval: int, reach: int)
    requires Sorted(ts) && 0 <= from && i < |ts| && reach <= to && Reached(ts, i, from, to, interval, reach)
    ensures var low := Max(Max(ts[i], from), reach);
            var high := Min(ts[i] + interval, to);
            Reached(ts, i + 1, from, to, interval, if high > low then high else reach)
  {
    var low, high := Max(Max(ts[i], from), reach), Min(ts[i] + interval, to);
    var next := if high > low then high else reach;
    var after := CoveredBy(ts, i + 1, from, to, interval);
    forall t | t in after
      ensures t < next
    {
      NearOneMore(ts, i, interval, t);
      assert t in CoveredBy(ts, i, from, to, interval) || ts[i] <= t < ts[i] + interval;
    }
    if i + 1 < |ts| {
      var gap := Range(Max(from, ts[i + 1]), next);
      forall t | t in gap
        ensures t in after
      {
        NearOneMore(ts, i, interval, t);
        assert t in CoveredBy(ts, i, from, to, interval) || t < high;
      }
      assert forall t :: from <= t < next && ts[i + 1] <= t ==> t in gap;
    }
  }

  lemma SweptOne(ts: seq<nat>, i: nat, from: int, to: int, interval: int, covered: int, reach: int)
    requires Sorted(ts) && 0 <= from && i < |ts| && Swept(ts, i, from, to, interval, covered, reach)
    ensures var low := Max(Max(ts[i], from), reach);
            var high := Min(ts[i] + interval, to);
            if high > low then Swept(ts, i + 1, from, to, interval, covered + (high - low), high)
            else Swept(ts, i + 1, from, to, interval, covered, reach)
  {
    SweepStep(ts, i, from, to, interval, reach);
    ReachedOne(ts, i, from, to, interval, reach);
    DisjointSize(CoveredBy(ts, i, from, to, interval),
                 Range(Max(Max(ts[i], from), reach), Min(ts[i] + interval, to)));
  }

  /** Adds up the covered time, sample by sample. */
  method Sweep(ts: seq<nat>, from: int, to: int, interval: int) returns (covered: int)
    requires Sorted(ts) && 0 <= from < to
    ensures covered == |Covered(ts, from, to, interval)|
  {
    var i := Search(ts, from - interval);
    assert CoveredBy(ts, i, from, to, interval) == {};
    var reach := 0;
    covered := 0;
    while i < |ts| && ts[i] < to
      invariant Swept(ts, i, from, to, interval, covered, reach)
    {
      SweptOne(ts, i, from, to, interval, covered, reach);
      var lo, hi := ts[i] as int, ts[i] + interval;
      if lo < from { lo := from; }
      if lo < reach { lo := reach; }
      if hi > to { hi := to; }
      if hi > lo {
        covered := covered + (hi - lo);
        reach := hi;
      }
      i := i + 1;
    }
    LaterSamplesIdle(ts, i, from, to, interval);
  }

  /** The share of [from, to) that samples cover. */
  method CoveredFraction(ts: seq<nat>, from: int, to: int, interval: int) returns (share: real)
    requires Sorted(ts) && 0 <= from
    ensures share == Share(ts, from, to, interval)
    ensures 0.0 <= share <= 1.0
  {
    var total := to - from;
    if total <= 0 { return 0.0; }
    var covered := Sweep(ts, from, to, interval);
    SubsetSize(Covered(ts, from, to, interval), Range(from, to));
    ShareAtMostOne(covered, total);
    share := covered as real / total as real;
    if share > 1.0 { share := 1.0; }
  }

  lemma ShareAtMostOne(part: int, whole: int)
    requires 0 <= part <= whole && whole > 0
    ensures 0.0 <= part as real / whole as real <= 1.0
  {
  }

  /** Samples at or after the end of the stretch cover nothing of it. */
  lemma LaterSamplesIdle(ts: seq<nat>, i: nat, from: int, to: int, interval: int)
    requires Sorted(ts) && i <= |ts| && (i < |ts| ==> ts[i] >= to)
    ensures CoveredBy(ts, i, from, to, interval) == Covered(ts, from, to, interval)
  {
    forall t | from <= t < to
      ensures Near(ts, |ts|, interval, t) <==> Near(ts, i, interval, t)
    {
    }
  }

  /** A bucket needs only its own samples and the one before them: with `first` samples before the
      bucket and those from `last` on after it, the slice covers what the whole list does. */
  lemma OneSampleBeforeSuffices(ts: seq<nat>, first: nat, last: nat, from: int, to: int, interval: int)
    requires Sorted(ts) && first <= last <= |ts|
    requires forall k :: 0 <= k < first ==> ts[k] < from
    requires forall k :: last <= k < |ts| ==> ts[k] >= to
    ensures var lead := if first == 0 then 0 else first - 1;
            Covered(ts[lead..last], from, to, interval) == Covered(ts, from, to, interval)
  {
    var lead := if first == 0 then 0 else first - 1;
    forall t | from <= t < to
      ensures Near(ts, |ts|, interval, t) <==> Near(ts[lead..last], last - lead, interval, t)
    {
      if Near(ts, |ts|, interval, t) {
        var k :| 0 <= k < |ts| && ts[k] <= t < ts[k] + interval;
        var m := if k < lead then lead else k;
        assert ts[m] <= t < ts[m] + interval;
        assert ts[lead..last][m - lead] == ts[m];
      }
      if Near(ts[lead..last], last - lead, interval, t) {
        var k :| 0 <= k < last - lead && ts[lead..last][k] <= t < ts[lead..last][k] + interval;
        assert ts[lead + k] == ts[lead..last][k];
      }
    }
  }

  // ---------- the chart's buckets ----------

  datatype Sample = Sample(ts: nat, online: bool, players: Option<nat>)

  datatype State = NotCollected | NoData | Online | Offline

  datatype Bucket = Bucket(start: int, state: State, playersMax: Option<nat>, coverage: real)

  function Times(samples: seq<Sample>): seq<nat> { seq(|samples|, i requires 0 <= i < |samples| => samples[i].ts) }

  predicate InBucket(s: Sample, start: int, end: int) { start <= s.ts < end }

  /** The most players of the online samples within the bucket, 0 without any. */
  ghost predicate IsMostPlayers(samples: seq<Sample>, start: int, end: int, most: nat) {
    && (forall s :: s in samples && InBucket(s, start, end) && s.online && s.players.Some? ==> s.players.value <= most)
    && (most == 0 || exists s :: s in samples && InBucket(s, start, end) && s.online && s.players == Some(most))
  }

  /** What a bucket says, looked up in the whole sample list. */
  ghost predicate Describes(b: Bucket, samples: seq<Sample>, size: int, interval: int, since: Option<nat>, now: nat) {
    var end := b.start + size;
    var any := exists s :: s in samples && InBucket(s, b.start, end);
    var online := exists s :: s in samples && InBucket(s, b.start, end) && s.online;
    && b.state == (if since.None? || end <= since.value then NotCollected
                   else if !any then NoData else if online then Online else Offline)
    && (b.state == Online ==> b.playersMax.Some? && IsMostPlayers(samples, b.start, end, b.playersMax.value))
    && (b.state != Online ==> b.playersMax.None?)
    && b.coverage == Share(Times(samples), if since.Some? then Max(since.value, b.start) else b.start, Min(now, end), interval)
  }

  /** What the samples before the cursor `i` say about the bucket [start, end). */
  ghost predicate Counted(samples: seq<Sample>, i: nat, start: int, end: int, n: nat, onlineN: nat, most: nat) {
    && i <= |samples|
    && (n > 0 <==> exists s :: s in samples[..i] && InBucket(s, start, end))
    && (onlineN > 0 <==> exists s :: s in samples[..i] && InBucket(s, start, end) && s.online)
    && IsMostPlayers(samples[..i], start, end, most)
  }

  lemma CountedOne(samples: seq<Sample>, i: nat, start: int, end: int, n: nat, onlineN: nat, most: nat)
    requires i < |samples| && Counted(samples, i, start, end, n, onlineN, most)
    ensures var s := samples[i];
            var in_ := InBucket(s, start, end);
            Counted(samples, i + 1, start, end,
                    if in_ then n + 1 else n,
                    if in_ && s.online then onlineN + 1 else onlineN,
                    if in_ && s.online && s.players.Some? && s.players.value > most then s.players.value else most)
  {
    assert forall s :: s in samples[..i + 1] <==> s in samples[..i] || s == samples[i];
  }

  /** Samples from `i` on lie after the bucket. */
  lemma CountedAll(samples: seq<Sample>, i: nat, start: int, end: int, n: nat, onlineN: nat, most: nat)
    requires Counted(samples, i, start, end, n, onlineN, most)
    requires forall k :: i <= k < |samples| ==> samples[k].ts >= end
    ensures Counted(samples, |samples|, start, end, n, onlineN, most)
  {
    assert samples[..|samples|] == samples;
    forall s | s in samples && InBucket(s, start, end)
      ensures s in samples[..i]
    {
      var k :| 0 <= k < |samples| && samples[k] == s;
      assert k < i && samples[..i][k] == s;
    }
  }

  /** Reads the samples of one bucket, from the cursor on. */
  method ReadBucket(samples: seq<Sample>, first: nat, start: int, end: int) returns (i: nat, n: nat, onlineN: nat, most: nat)
    requires first <= |samples| && start < end && Sorted(Times(samples))
    requires forall k :: 0 <= k < first ==> samples[k].ts < start
    ensures first <= i <= |samples|
    ensures forall k :: 0 <= k < i ==> samples[k].ts < end
    ensures forall k :: i <= k < |samples| ==> samples[k].ts >= end
    ensures Counted(samples, |samples|, start, end, n, onlineN, most)
  {
    i, n, onlineN, most := first, 0, 0, 0;
    while i < |samples| && samples[i].ts < end
      invariant first <= i <= |samples|
      invariant forall k :: 0 <= k < i ==> samples[k].ts < end
      invariant Counted(samples, i, start, end, n, onlineN, most)
    {
      CountedOne(samples, i, start, end, n, onlineN, most);
      var s := samples[i];
      i := i + 1;
      if s.ts < start { continue; }
      n := n + 1;
      if s.online {
        onlineN := onlineN + 1;
        if s.players.Some? && s.players.value > most { most := s.players.value; }
      }
    }
    forall k | i <= k < |samples|
      ensures samples[k].ts >= end
    {
      assert Times(samples)[i] <= Times(samples)[k];
    }
    CountedAll(samples, i, start, end, n, onlineN, most);
  }

  /** The coverage of a bucket, from its own samples and the one before them. */
  method CoverageOf(samples: seq<Sample>, first: nat, last: nat, start: int, end: int, from: int, to: int, interval: int)
    returns (coverage: real)
    requires first <= last <= |samples| && Sorted(Times(samples)) && 0 <= start <= from && to <= end
    requires forall k :: 0 <= k < first ==> samples[k].ts < start
    requires forall k :: last <= k < |samples| ==> samples[k].ts >= end
    ensures coverage == Share(Times(samples), from, to, interval)
  {
    coverage := 0.0;
    if to > from {
      var lead := if first == 0 then 0 else first - 1;
      OneSampleBeforeSuffices(Times(samples), first, last, from, to, interval);
      assert Times(samples[lead..last]) == Times(samples)[lead..last];
      coverage := CoveredFraction(Times(samples[lead..last]), from, to, interval);
    }
  }

  /** Cuts [from, to) into buckets with one pass over the samples. Every bucket says what the whole list
      says about it. */
  method Bucketize(samples: seq<Sample>, from: nat, to: nat, size: nat, interval: int, since: Option<nat>, now: nat)
    returns (out: seq<Bucket>)
    requires size > 0 && Sorted(Times(samples))
    ensures forall k :: 0 <= k < |out| ==> out[k].start == from + k * size && out[k].start < to
    ensures from + |out| * size >= to
    ensures forall k :: 0 <= k < |out| ==> Describes(out[k], samples, size, interval, since, now)
  {
    out := [];
    var i, start := 0, from;
    while start < to
      invariant start == from + |out| * size && 0 <= i <= |samples|
      invariant forall k :: 0 <= k < i ==> samples[k].ts < start
      invariant forall k :: 0 <= k < |out| ==> out[k].start == from + k * size && out[k].start < to
      invariant forall k :: 0 <= k < |out| ==> Describes(out[k], samples, size, interval, since, now)
      decreases (to - start)
    {
      var b, last := OneBucket(samples, i, start, size, interval, since, now);
      out := out + [b];
      i := last;
      start := start + size;
      NextStart(from, |out|, size);
    }
  }

  lemma NextStart(from: nat, n: nat, size: nat)
    requires n > 0
    ensures from + n * size == from + (n - 1) * size + size
  {
  }

  /** The bucket that the counts of a pass make. */
  function BucketOf(start: nat, end: int, n: nat, onlineN: nat, most: nat, coverage: real, since: Option<nat>): Bucket {
    if since.None? || end <= since.value then Bucket(start, NotCollected, None, coverage)
    else if n == 0 then Bucket(start, NoData, None, coverage)
    else if onlineN > 0 then Bucket(start, Online, Some(most), coverage)
    else Bucket(start, Offline, None, coverage)
  }

  lemma BucketDescribes(samples: seq<Sample>, start: nat, size: nat, n: nat, onlineN: nat, most: nat, coverage: real,
                        interval: int, since: Option<nat>, now: nat)
    requires Counted(samples, |samples|, start, start + size, n, onlineN, most)
    requires var from := if since.Some? then Max(since.value, start) else start;
             coverage == Share(Times(samples), from, Min(now, start + size), interval)
    ensures var b := BucketOf(start, start + size, n, onlineN, most, coverage, since);
            Describes(b, samples, size, interval, since, now)
  {
    assert samples[..|samples|] == samples;
  }

  method OneBucket(samples: seq<Sample>, first: nat, start: nat, size: nat, interval: int, since: Option<nat>, now: nat)
    returns (b: Bucket, last: nat)
    requires first <= |samples| && size > 0 && Sorted(Times(samples))
    requires forall k :: 0 <= k < first ==> samples[k].ts < start
    ensures last <= |samples| && forall k :: 0 <= k < last ==> samples[k].ts < start + size
    ensures b.start == start && Describes(b, samples, size, interval, since, now)
  {
    var end := start + size;
    var n, onlineN, most;
    last, n, onlineN, most := ReadBucket(samples, first, start, end);
    var effStart := if since.Some? && since.value > start then since.value else start;
    var effEnd := if now < end then now else end;
    var coverage := CoverageOf(samples, first, last, start, end, effStart, effEnd, interval);
    b := BucketOf(start, end, n, onlineN, most, coverage, since);
    BucketDescribes(samples, start, size, n, onlineN, most, coverage, interval, since, now);
  }
}
