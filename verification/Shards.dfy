/** Splitting the templates to check into shards of about the same weight: heaviest first, each to the
    lightest shard so far. */
module Shards {
  // ---------- loads of an assignment ----------

  /** What each of `n` shards holds once the first `m` items of weights `ws` went where `a` says. */
  function Tally(a: seq<nat>, ws: seq<nat>, m: nat, n: nat): (t: seq<nat>)
    requires m <= |a| && m <= |ws| && forall i :: 0 <= i < m ==> a[i] < n
    ensures |t| == n
    decreases m
  {
    if m == 0 then seq(n, _ => 0)
    else
      var t := Tally(a, ws, m - 1, n);
      t[a[m - 1] := t[a[m - 1]] + ws[m - 1]]
  }

  function Sum(s: seq<nat>): nat { if s == [] then 0 else Sum(s[..|s| - 1]) + s[|s| - 1] }

  /** How many items each shard holds. */
  function Counts(a: seq<nat>, m: nat, n: nat): seq<nat>
    requires m <= |a| && forall i :: 0 <= i < m ==> a[i] < n
  {
    Tally(a, seq(m, _ => 1), m, n)
  }

  /** The first of the lightest shards. */
  function Lightest(loads: seq<nat>): (s: nat)
    requires loads != []
    ensures s < |loads| && (forall k :: 0 <= k < |loads| ==> loads[s] <= loads[k]) && (forall k :: 0 <= k < s ==> loads[s] < loads[k])
  {
    if |loads| == 1 then 0
    else
      var s := Lightest(loads[..|loads| - 1]);
      if loads[|loads| - 1] < loads[s] then |loads| - 1 else s
  }

  /** Where the first `m` items go, each to the lightest shard so far. */
  function Greedy(ws: seq<nat>, m: nat, n: nat): (a: seq<nat>)
    requires m <= |ws| && n > 0
    ensures |a| == m && forall i :: 0 <= i < m ==> a[i] < n
    decreases m
  {
    if m == 0 then []
    else
      var before := Greedy(ws, m - 1, n);
      before + [Lightest(Tally(before, ws, m - 1, n))]
  }

  function Loads(ws: seq<nat>, m: nat, n: nat): (t: seq<nat>)
    requires m <= |ws| && n > 0
    ensures |t| == n
  {
    Tally(Greedy(ws, m, n), ws, m, n)
  }

  lemma {:induction false} TallyPrefix(a: seq<nat>, b: seq<nat>, ws: seq<nat>, m: nat, n: nat)
    requires m <= |a| && m <= |b| && m <= |ws| && a[..m] == b[..m] && forall i :: 0 <= i < m ==> a[i] < n
    ensures (forall i :: 0 <= i < m ==> b[i] < n) && Tally(a, ws, m, n) == Tally(b, ws, m, n)
    decreases m
  {
    assert forall i :: 0 <= i < m ==> a[..m][i] == b[..m][i] == a[i] == b[i];
    if m > 0 {
      assert a[..m - 1] == a[..m][..m - 1] && b[..m - 1] == b[..m][..m - 1];
      TallyPrefix(a, b, ws, m - 1, n);
    }
  }

  /** One more item goes to the lightest shard. */
  lemma LoadsOneMore(ws: seq<nat>, m: nat, n: nat)
    requires m < |ws| && n > 0
    ensures var t := Loads(ws, m, n);
            Greedy(ws, m + 1, n) == Greedy(ws, m, n) + [Lightest(t)]
            && Loads(ws, m + 1, n) == t[Lightest(t) := t[Lightest(t)] + ws[m]]
  {
    var a, b := Greedy(ws, m + 1, n), Greedy(ws, m, n);
    assert a[..m] == b[..m];
    TallyPrefix(a, b, ws, m, n);
  }

  // ---------- the spread of the shards ----------

  ghost predicate AtMost(ws: seq<nat>, most: nat) { forall i :: 0 <= i < |ws| ==> ws[i] <= most }

  /** The heaviest and the lightest shard differ by at most the heaviest item. */
  lemma {:induction false} SpreadAtMostHeaviest(ws: seq<nat>, m: nat, n: nat, most: nat)
    requires m <= |ws| && n > 0 && AtMost(ws, most)
    ensures forall i, k :: 0 <= i < n && 0 <= k < n ==> Loads(ws, m, n)[i] <= Loads(ws, m, n)[k] + most
    decreases m
  {
    if m > 0 {
      SpreadAtMostHeaviest(ws, m - 1, n, most);
      LoadsOneMore(ws, m - 1, n);
    }
  }

  lemma {:induction false} SumUpdate(s: seq<nat>, k: nat, d: nat)
    requires k < |s|
    ensures Sum(s[k := s[k] + d]) == Sum(s) + d
  {
    var t := s[k := s[k] + d];
    if k == |s| - 1 {
      assert t[..|t| - 1] == s[..|s| - 1];
    } else {
      assert t[..|t| - 1] == s[..|s| - 1][k := s[k] + d];
      SumUpdate(s[..|s| - 1], k, d);
    }
  }

  lemma {:induction false} SumZeros(n: nat)
    ensures Sum(seq(n, _ => 0)) == 0
  {
    if n > 0 {
      assert seq(n, _ => 0)[..n - 1] == seq(n - 1, _ => 0);
      SumZeros(n - 1);
    }
  }

  /** Whatever the assignment, the shards hold all items' weight. */
  lemma {:induction false} TallySum(a: seq<nat>, ws: seq<nat>, m: nat, n: nat)
    requires m <= |a| && m <= |ws| && forall i :: 0 <= i < m ==> a[i] < n
    ensures Sum(Tally(a, ws, m, n)) == Sum(ws[..m])
    decreases m
  {
    if m == 0 {
      SumZeros(n);
    } else {
      TallySum(a, ws, m - 1, n);
      SumUpdate(Tally(a, ws, m - 1, n), a[m - 1], ws[m - 1]);
      assert ws[..m][..m - 1] == ws[..m - 1];
    }
  }

  lemma {:induction false} SumAtLeast(s: seq<nat>, n: nat, low: int)
    requires |s| == n && forall k :: 0 <= k < n ==> low <= s[k]
    ensures n * low <= Sum(s)
    decreases n
  {
    if n > 0 {
      SumAtLeast(s[..n - 1], n - 1, low);
      Distributes(n - 1, low);
    }
  }

  lemma {:induction false} SumAtMost(s: seq<nat>, n: nat, high: int)
    requires |s| == n && forall k :: 0 <= k < n ==> s[k] <= high
    ensures Sum(s) <= n * high
    decreases n
  {
    if n > 0 {
      SumAtMost(s[..n - 1], n - 1, high);
      Distributes(n - 1, high);
    }
  }

  lemma Distributes(n: int, x: int)
    ensures (n + 1) * x == n * x + x
  {
  }

  lemma EvenShare(loads: seq<nat>, n: nat, most: nat, k: nat)
    requires |loads| == n && k < n && forall i :: 0 <= i < n ==> loads[k] <= loads[i] + most
    ensures n * (loads[k] - most) <= Sum(loads)
  {
    SumAtLeast(loads, n, loads[k] - most);
  }

  lemma LoadsSum(ws: seq<nat>, m: nat, n: nat)
    requires m <= |ws| && n > 0
    ensures Sum(Loads(ws, m, n)) == Sum(ws[..m])
  {
    TallySum(Greedy(ws, m, n), ws, m, n);
  }

  /** No shard holds more than an even share and the heaviest item. */
  lemma LoadAtMostShare(ws: seq<nat>, m: nat, n: nat, most: nat, k: nat)
    requires m <= |ws| && k < n && AtMost(ws, most)
    ensures n * (Loads(ws, m, n)[k] - most) <= Sum(ws[..m])
  {
    var loads := Loads(ws, m, n);
    LoadsSum(ws, m, n);
    assert forall i :: 0 <= i < n ==> loads[k] <= loads[i] + most by {
      SpreadAtMostHeaviest(ws, m, n, most);
    }
    EvenShare(loads, n, most, k);
  }

  // ---------- Graham's bound ----------

  ghost predicate Descending(ws: seq<nat>) { forall i, k :: 0 <= i < k < |ws| ==> ws[i] >= ws[k] }

  /** `a` splits all items so that no shard holds more than `c`. */
  ghost predicate Splits(a: seq<nat>, ws: seq<nat>, n: nat, c: nat) {
    && |a| == |ws| && (forall i :: 0 <= i < |a| ==> a[i] < n)
    && forall k :: 0 <= k < n ==> Tally(a, ws, |ws|, n)[k] <= c
  }

  lemma {:induction false} TallyGrows(a: seq<nat>, ws: seq<nat>, m: nat, p: nat, n: nat, k: nat)
    requires m <= p <= |a| && p <= |ws| && k < n && forall i :: 0 <= i < p ==> a[i] < n
    ensures Tally(a, ws, m, n)[k] <= Tally(a, ws, p, n)[k]
    decreases p - m
  {
    if m < p { TallyGrows(a, ws, m, p - 1, n, k); }
  }

  lemma CountsOneMore(a: seq<nat>, m: nat, n: nat)
    requires m < |a| && forall i :: 0 <= i <= m ==> a[i] < n
    ensures var c := Counts(a, m, n); Counts(a, m + 1, n) == c[a[m] := c[a[m]] + 1]
  {
    OnesPrefix(a, m, m + 1, n);
  }

  lemma {:induction false} OnesPrefix(a: seq<nat>, m: nat, p: nat, n: nat)
    requires m <= p && m <= |a| && forall i :: 0 <= i < m ==> a[i] < n
    ensures Tally(a, seq(p, _ => 1), m, n) == Counts(a, m, n)
    decreases m
  {
    if m > 0 {
      OnesPrefix(a, m - 1, p, n);
      OnesPrefix(a, m - 1, m, n);
    }
  }

  /** A shard with an item holds it, and at least `w` for each other one. */
  lemma {:induction false} LoadByCount(a: seq<nat>, ws: seq<nat>, m: nat, n: nat, k: nat, w: nat)
    requires m <= |a| && m <= |ws| && k < n && forall i :: 0 <= i < m ==> a[i] < n && ws[i] >= w
    ensures Tally(a, ws, m, n)[k] >= w * Counts(a, m, n)[k]
    ensures forall x :: 0 <= x < m && a[x] == k ==>
              Counts(a, m, n)[k] >= 1 && Tally(a, ws, m, n)[k] >= ws[x] + w * (Counts(a, m, n)[k] - 1)
    decreases m
  {
    if m > 0 {
      LoadByCount(a, ws, m - 1, n, k, w);
      CountsOneMore(a, m - 1, n);
      var c: int := Counts(a, m - 1, n)[k];
      Distributes(c, w);
      Distributes(c - 1, w);
      Commutes(c + 1, w);
      Commutes(c, w);
      Commutes(c - 1, w);
    }
  }

  lemma Commutes(x: int, y: int)
    ensures x * y == y * x
  {
  }

  /** The last item of a shard. */
  function LastOf(a: seq<nat>, m: nat, n: nat, k: nat): (x: nat)
    requires m <= |a| && k < n && (forall i :: 0 <= i < m ==> a[i] < n) && Counts(a, m, n)[k] >= 1
    ensures x < m && a[x] == k
    decreases m
  {
    CountsOneMore(a, m - 1, n);
    if a[m - 1] == k then m - 1 else LastOf(a, m - 1, n, k)
  }

  /** A shard with one item holds just that. */
  lemma {:induction false} SingleLoad(a: seq<nat>, ws: seq<nat>, m: nat, n: nat, k: nat)
    requires m <= |a| && m <= |ws| && k < n && (forall i :: 0 <= i < m ==> a[i] < n) && Counts(a, m, n)[k] <= 1
    ensures Tally(a, ws, m, n)[k] == if Counts(a, m, n)[k] == 0 then 0 else ws[LastOf(a, m, n, k)]
    decreases m
  {
    if m > 0 {
      CountsOneMore(a, m - 1, n);
      SingleLoad(a, ws, m - 1, n, k);
    }
  }

  ghost function Singles(c: seq<nat>): set<nat> { set k | 0 <= k < |c| && c[k] <= 1 }

  lemma SinglesOneMore(c: seq<nat>)
    requires c != []
    ensures var init := c[..|c| - 1];
            Singles(c) == Singles(init) + if c[|c| - 1] <= 1 then {|c| - 1} else {}
    ensures |Singles(c)| == |Singles(c[..|c| - 1])| + if c[|c| - 1] <= 1 then 1 else 0
  {
  }

  lemma {:induction false} SumWithSingles(c: seq<nat>)
    ensures (forall k :: 0 <= k < |c| ==> c[k] >= 1) ==> Sum(c) >= 2 * |c| - |Singles(c)|
    ensures (forall k :: 0 <= k < |c| ==> c[k] <= 2) ==> Sum(c) <= 2 * |c| - |Singles(c)|
  {
    if c == [] {
      assert Singles(c) == {};
    } else {
      SumWithSingles(c[..|c| - 1]);
      SinglesOneMore(c);
    }
  }

  lemma {:induction false} CountsSum(a: seq<nat>, m: nat, n: nat)
    requires m <= |a| && forall i :: 0 <= i < m ==> a[i] < n
    ensures Sum(Counts(a, m, n)) == m
    decreases m
  {
    if m == 0 {
      SumZeros(n);
    } else {
      CountsSum(a, m - 1, n);
      CountsOneMore(a, m - 1, n);
      SumUpdate(Counts(a, m - 1, n), a[m - 1], 1);
    }
  }

  /** A set maps one to one into another that is no smaller. */
  lemma {:induction false} InjectionSize(f: map<nat, nat>, b: set<nat>)
    requires forall x :: x in f ==> f[x] in b
    requires forall x, y :: x in f && y in f && x != y ==> f[x] != f[y]
    ensures |f.Keys| <= |b|
    decreases |f.Keys|
  {
    if f.Keys != {} {
      var x :| x in f.Keys;
      var g := f - {x};
      assert g.Keys == f.Keys - {x};
      InjectionSize(g, b - {f[x]});
    }
  }

  /** The items of shards holding one, by shard, in the shards of another split. */
  ghost function Hosts(a: seq<nat>, b: seq<nat>, m: nat, n: nat): map<nat, nat>
    requires m <= |a| && m <= |b| && (forall i :: 0 <= i < m ==> a[i] < n && b[i] < n)
    requires forall k :: 0 <= k < n ==> Counts(b, m, n)[k] >= 1
  {
    map k | k in Singles(Counts(b, m, n)) :: a[LastOf(b, m, n, k)]
  }

  lemma AtLeastThree(w: nat, count: nat)
    requires count >= 3
    ensures w * count >= 3 * w
  {
  }

  /** Two items in one shard count as two. */
  lemma {:induction false} TwoItems(a: seq<nat>, m: nat, n: nat, x: nat, y: nat)
    requires m <= |a| && x < m && y < m && x != y && (forall i :: 0 <= i < m ==> a[i] < n) && a[x] == a[y]
    ensures Counts(a, m, n)[a[x]] >= 2
    decreases m
  {
    CountsOneMore(a, m - 1, n);
    if x < m - 1 && y < m - 1 {
      TwoItems(a, m - 1, n, x, y);
    } else {
      LoadByCount(a, seq(m, _ => 0), m - 1, n, a[x], 0);
    }
  }

  lemma AtLeastOnce(w: nat, count: nat)
    requires count >= 1
    ensures w * count >= w
  {
  }

  ghost predicate Assigns(a: seq<nat>, m: nat, n: nat) { m <= |a| && forall i :: 0 <= i < m ==> a[i] < n }

  ghost predicate Within(a: seq<nat>, ws: seq<nat>, p: nat, n: nat, c: nat)
    requires p <= |ws| && Assigns(a, p, n)
  {
    forall k :: 0 <= k < n ==> Tally(a, ws, p, n)[k] <= c
  }

  ghost predicate TooFull(b: seq<nat>, ws: seq<nat>, m: nat, n: nat, w: nat, c: nat)
    requires m <= |ws| && Assigns(b, m, n)
  {
    forall k :: 0 <= k < n ==> Tally(b, ws, m, n)[k] + w > c
  }

  /** Split `a` has the first `m` items and the next within `c`, while after the first `m` no shard of `b`
      has room for the next, which is the lightest and weighs more than a third of `c`. */
  ghost predicate Crowded(a: seq<nat>, b: seq<nat>, ws: seq<nat>, m: nat, n: nat, c: nat) {
    && m < |ws| && Assigns(a, m + 1, n) && Assigns(b, m, n)
    && (forall i :: 0 <= i <= m ==> ws[i] >= ws[m])
    && 3 * ws[m] > c
    && Within(a, ws, m + 1, n, c) && TooFull(b, ws, m, n, ws[m], c)
  }

  /** In `a`, a shard holds two items at most; in `b`, each holds one at least. */
  lemma CrowdedCounts(a: seq<nat>, b: seq<nat>, ws: seq<nat>, m: nat, n: nat, c: nat, k: nat)
    requires Crowded(a, b, ws, m, n, c) && k < n
    ensures Counts(a, m + 1, n)[k] <= 2 && Counts(b, m, n)[k] >= 1
  {
    var w := ws[m];
    LoadByCount(a, ws, m + 1, n, k, w);
    var count := Counts(a, m + 1, n)[k];
    if count >= 3 { AtLeastThree(w, count); }
    var l := a[m];
    LoadByCount(a, ws, m + 1, n, l, w);
    AtLeastOnce(w, Counts(a, m + 1, n)[l]);
    assert w <= Tally(a, ws, m + 1, n)[l] <= c;
    if Counts(b, m, n)[k] <= 1 { SingleLoad(b, ws, m, n, k); }
  }

  lemma OneOnly(top: nat, w: nat, count: nat, load: nat)
    requires count >= 1 && top + w * (count - 1) <= load < top + w
    ensures count == 1
  {
    if count >= 2 { AtLeastOnce(w, count - 1); }
  }

  /** The one item of a shard of `b` too full for the next item is alone in its shard of `a`. */
  lemma AloneInOther(a: seq<nat>, b: seq<nat>, ws: seq<nat>, m: nat, n: nat, c: nat, k: nat)
    requires Crowded(a, b, ws, m, n, c) && k < n && Counts(b, m, n)[k] == 1
    ensures Counts(a, m + 1, n)[a[LastOf(b, m, n, k)]] <= 1
  {
    var x := LastOf(b, m, n, k);
    SingleLoad(b, ws, m, n, k);
    var load, count := Tally(a, ws, m + 1, n)[a[x]], Counts(a, m + 1, n)[a[x]];
    assert load <= c < ws[x] + ws[m];
    LoadByCount(a, ws, m + 1, n, a[x], ws[m]);
    OneOnly(ws[x], ws[m], count, load);
  }

  /** Shards of `b` with one item are no more than those of `a`. */
  lemma SinglesMap(a: seq<nat>, b: seq<nat>, ws: seq<nat>, m: nat, n: nat, c: nat)
    requires Crowded(a, b, ws, m, n, c)
    ensures |Singles(Counts(b, m, n))| <= |Singles(Counts(a, m + 1, n))|
  {
    forall k | 0 <= k < n
      ensures Counts(b, m, n)[k] >= 1
    {
      CrowdedCounts(a, b, ws, m, n, c, k);
    }
    var hosts := Hosts(a, b, m, n);
    forall k | k in hosts
      ensures hosts[k] in Singles(Counts(a, m + 1, n))
    {
      AloneInOther(a, b, ws, m, n, c, k);
    }
    forall k, l | k in hosts && l in hosts && k != l
      ensures hosts[k] != hosts[l]
    {
      AloneInOther(a, b, ws, m, n, c, k);
      if hosts[k] == hosts[l] {
        TwoItems(a, m + 1, n, LastOf(b, m, n, k), LastOf(b, m, n, l));
      }
    }
    InjectionSize(hosts, Singles(Counts(a, m + 1, n)));
    assert hosts.Keys == Singles(Counts(b, m, n));
  }

  /** Counting the items, `a` has no room for them all. */
  lemma NeverCrowded(a: seq<nat>, b: seq<nat>, ws: seq<nat>, m: nat, n: nat, c: nat)
    ensures !Crowded(a, b, ws, m, n, c)
  {
    if Crowded(a, b, ws, m, n, c) {
      var ca, cb := Counts(a, m + 1, n), Counts(b, m, n);
      forall k | 0 <= k < n
        ensures ca[k] <= 2 && cb[k] >= 1
      {
        CrowdedCounts(a, b, ws, m, n, c, k);
      }
      SinglesMap(a, b, ws, m, n, c);
      SumWithSingles(ca);
      SumWithSingles(cb);
      CountsSum(a, m + 1, n);
      CountsSum(b, m, n);
      assert false;
    }
  }

  /** So some shard has room for the next item. */
  lemma NeverTooFull(a: seq<nat>, b: seq<nat>, ws: seq<nat>, m: nat, n: nat, c: nat)
    requires m < |ws| && Assigns(a, m + 1, n) && Assigns(b, m, n) && 3 * ws[m] > c && Within(a, ws, m + 1, n, c)
    requires forall i :: 0 <= i <= m ==> ws[i] >= ws[m]
    ensures exists k :: 0 <= k < n && Tally(b, ws, m, n)[k] + ws[m] <= c
  {
    NeverCrowded(a, b, ws, m, n, c);
  }

  /** The lightest shard and a light item stay within Graham's bound. */
  lemma LightItemFits(low: nat, w: nat, n: nat, c: nat)
    requires n > 0 && 3 * w <= c && n * low + w <= n * c
    ensures 3 * n * (low + w) <= (4 * n - 1) * c
  {
    Times(n - 1, 3 * w, c);
    assert 3 * n * (low + w) == 3 * (n * low + w) + (n - 1) * (3 * w);
    assert (4 * n - 1) * c == 3 * (n * c) + (n - 1) * c;
  }

  lemma Times(k: nat, x: nat, y: nat)
    requires x <= y
    ensures k * x <= k * y
  {
  }

  lemma RoomFits(load: nat, n: nat, c: nat)
    requires n > 0 && load <= c
    ensures 3 * n * load <= (4 * n - 1) * c
  {
    Times(3 * n, load, c);
    assert (4 * n - 1) * c == 3 * n * c + (n - 1) * c;
  }

  /** At most 4/3 - 1/(3n) of `c`. */
  predicate WithinGraham(load: nat, n: nat, c: nat) { 3 * n * load <= (4 * n - 1) * c }

  /** After each item, heaviest first, every shard is within Graham's bound of what some split needs. */
  lemma {:induction false} GrahamSoFar(a: seq<nat>, ws: seq<nat>, m: nat, n: nat, c: nat)
    requires m <= |ws| && n > 0 && Descending(ws) && Splits(a, ws, n, c)
    ensures forall k :: 0 <= k < n ==> WithinGraham(Loads(ws, m, n)[k], n, c)
    decreases m
  {
    if m > 0 {
      GrahamSoFar(a, ws, m - 1, n, c);
      LoadsOneMore(ws, m - 1, n);
      GrahamStep(a, ws, m - 1, n, c);
    }
  }

  lemma PrefixWithin(a: seq<nat>, ws: seq<nat>, p: nat, n: nat, c: nat)
    requires p <= |ws| && Splits(a, ws, n, c)
    ensures Within(a, ws, p, n, c)
  {
    forall k | 0 <= k < n
      ensures Tally(a, ws, p, n)[k] <= c
    {
      TallyGrows(a, ws, p, |ws|, n, k);
    }
  }

  /** The lightest shard and the next item weigh no more than `n` times `c`, counted over all shards. */
  lemma LightestHasRoom(a: seq<nat>, ws: seq<nat>, m: nat, n: nat, c: nat)
    requires m < |ws| && n > 0 && Assigns(a, m + 1, n) && Within(a, ws, m + 1, n, c)
    ensures var loads := Loads(ws, m, n); n * loads[Lightest(loads)] + ws[m] <= n * c
  {
    var loads := Loads(ws, m, n);
    SumAtLeast(loads, n, loads[Lightest(loads)]);
    LoadsSum(ws, m, n);
    SumAtMost(Tally(a, ws, m + 1, n), n, c);
    TallySum(a, ws, m + 1, n);
    assert ws[..m + 1][..m] == ws[..m];
  }

  /** The item after the first `m` keeps the bound where it goes. */
  lemma GrahamStep(a: seq<nat>, ws: seq<nat>, m: nat, n: nat, c: nat)
    requires m < |ws| && n > 0 && Descending(ws) && Splits(a, ws, n, c)
    ensures var loads := Loads(ws, m, n); WithinGraham(loads[Lightest(loads)] + ws[m], n, c)
  {
    var loads, w := Loads(ws, m, n), ws[m];
    var low := loads[Lightest(loads)];
    assert Assigns(a, m + 1, n);
    PrefixWithin(a, ws, m + 1, n, c);
    if 3 * w <= c {
      LightestHasRoom(a, ws, m, n, c);
      LightItemFits(low, w, n, c);
    } else {
      NeverTooFull(a, Greedy(ws, m, n), ws, m, n, c);
      RoomFits(low + w, n, c);
    }
  }

  /** Heaviest first, no shard holds more than 4/3 - 1/(3n) of the heaviest of any split, so than four
      thirds: Graham's bound against the best one. */
  lemma WithinFourThirds(a: seq<nat>, ws: seq<nat>, n: nat, c: nat, k: nat)
    requires k < n && Descending(ws) && Splits(a, ws, n, c)
    ensures 3 * n * Loads(ws, |ws|, n)[k] <= (4 * n - 1) * c
    ensures 3 * Loads(ws, |ws|, n)[k] <= 4 * c
  {
    GrahamSoFar(a, ws, |ws|, n, c);
    FourThirds(Loads(ws, |ws|, n)[k], n, c);
  }

  lemma FourThirds(load: nat, n: nat, c: nat)
    requires n > 0 && WithinGraham(load, n, c)
    ensures 3 * load <= 4 * c
  {
    assert n * (3 * load) <= n * (4 * c) by {
      assert n * (3 * load) == 3 * n * load && (4 * n - 1) * c == n * (4 * c) - c;
    }
    Cancel(n, 3 * load, 4 * c);
  }

  lemma Cancel(k: nat, x: nat, y: nat)
    requires k > 0 && k * x <= k * y
    ensures x <= y
  {
    if y < x { Times(k, y + 1, x); }
  }
}
