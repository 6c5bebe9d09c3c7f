/** The templates one shard checks, and what the shards are together. */
module ShardPick {
  import opened Options
  import opened Shards

  // ---------- the templates of one shard ----------

  function Weights(ids: seq<string>, weight: string -> nat): (ws: seq<nat>)
    ensures |ws| == |ids| && forall i :: 0 <= i < |ids| ==> ws[i] == weight(ids[i])
  {
    seq(|ids|, i requires 0 <= i < |ids| => weight(ids[i]))
  }

  function TotalWeight(ids: seq<string>, weight: string -> nat): nat { Sum(Weights(ids, weight)) }

  /** `x` before the first id that is no heavier. */
  function Insert(x: string, ids: seq<string>, weight: string -> nat): (r: seq<string>)
    ensures |r| == |ids| + 1
  {
    if ids == [] || weight(ids[0]) <= weight(x) then [x] + ids else [ids[0]] + Insert(x, ids[1..], weight)
  }

  /** Heaviest first; ids of one weight stay in order. */
  function ByWeight(ids: seq<string>, weight: string -> nat): (r: seq<string>)
    ensures |r| == |ids|
  {
    if ids == [] then [] else Insert(ids[0], ByWeight(ids[1..], weight), weight)
  }

  lemma {:induction false} InsertKeeps(x: string, ids: seq<string>, weight: string -> nat)
    ensures forall y :: y in Insert(x, ids, weight) <==> y == x || y in ids
  {
    if ids != [] && weight(ids[0]) > weight(x) { InsertKeeps(x, ids[1..], weight); }
  }

  lemma {:induction false} ByWeightKeeps(ids: seq<string>, weight: string -> nat)
    ensures forall y :: y in ByWeight(ids, weight) <==> y in ids
  {
    if ids != [] {
      ByWeightKeeps(ids[1..], weight);
      InsertKeeps(ids[0], ByWeight(ids[1..], weight), weight);
    }
  }

  lemma {:induction false} InsertDescends(x: string, ids: seq<string>, weight: string -> nat)
    requires Descending(Weights(ids, weight))
    ensures Descending(Weights(Insert(x, ids, weight), weight))
    ensures forall i :: 0 <= i < |Insert(x, ids, weight)| ==>
              weight(Insert(x, ids, weight)[i]) <= if ids == [] || weight(ids[0]) <= weight(x) then weight(x) else weight(ids[0])
  {
    var ws := Weights(ids, weight);
    if ids != [] && weight(ids[0]) > weight(x) {
      var rest := Weights(ids[1..], weight);
      assert forall i :: 0 <= i < |rest| ==> rest[i] == ws[i + 1];
      assert ids[1..] != [] ==> rest[0] <= ws[0];
      InsertDescends(x, ids[1..], weight);
    } else {
      assert forall i :: 0 <= i < |ids| ==> ws[i] <= ws[0];
    }
  }

  lemma {:induction false} ByWeightDescends(ids: seq<string>, weight: string -> nat)
    ensures Descending(Weights(ByWeight(ids, weight), weight))
  {
    if ids != [] {
      ByWeightDescends(ids[1..], weight);
      InsertDescends(ids[0], ByWeight(ids[1..], weight), weight);
    }
  }

  function OfWeight(ids: seq<string>, weight: string -> nat, v: nat): seq<string> {
    if ids == [] then [] else (if weight(ids[0]) == v then [ids[0]] else []) + OfWeight(ids[1..], weight, v)
  }

  lemma {:induction false} InsertIsStable(x: string, ids: seq<string>, weight: string -> nat, v: nat)
    ensures OfWeight(Insert(x, ids, weight), weight, v) == OfWeight([x] + ids, weight, v)
  {
    assert ([x] + ids)[1..] == ids;
    if ids != [] && weight(ids[0]) > weight(x) {
      InsertIsStable(x, ids[1..], weight, v);
      assert ([x] + ids[1..])[1..] == ids[1..];
    }
  }

  /** The sort is stable. */
  lemma {:induction false} ByWeightIsStable(ids: seq<string>, weight: string -> nat, v: nat)
    ensures OfWeight(ByWeight(ids, weight), weight, v) == OfWeight(ids, weight, v)
  {
    if ids != [] {
      var sorted := ByWeight(ids[1..], weight);
      ByWeightIsStable(ids[1..], weight, v);
      InsertIsStable(ids[0], sorted, weight, v);
      assert ([ids[0]] + sorted)[1..] == sorted;
    }
  }

  /** The first `m` ids that `a` sends to shard `s`. */
  function SentTo(ids: seq<string>, a: seq<nat>, s: nat, m: nat): seq<string>
    requires m <= |ids| && m <= |a|
    decreases m
  {
    if m == 0 then [] else SentTo(ids, a, s, m - 1) + if a[m - 1] == s then [ids[m - 1]] else []
  }

  /** Where each goes, heaviest first. */
  function Placement(ids: seq<string>, weight: string -> nat, n: nat): (a: seq<nat>)
    requires n > 0
    ensures |a| == |ids| && forall i :: 0 <= i < |a| ==> a[i] < n
  {
    Greedy(Weights(ByWeight(ids, weight), weight), |ids|, n)
  }

  /** The templates shard `s` of `n` checks. */
  function Shard(ids: seq<string>, weight: string -> nat, s: nat, n: nat): seq<string>
    requires s < n
  {
    SentTo(ByWeight(ids, weight), Placement(ids, weight, n), s, |ids|)
  }

  lemma {:induction false} SentToPrefix(ids: seq<string>, a: seq<nat>, b: seq<nat>, s: nat, m: nat)
    requires m <= |ids| && m <= |a| && m <= |b| && a[..m] == b[..m]
    ensures SentTo(ids, a, s, m) == SentTo(ids, b, s, m)
    decreases m
  {
    if m > 0 {
      assert a[m - 1] == a[..m][m - 1] == b[..m][m - 1] == b[m - 1];
      assert a[..m - 1] == a[..m][..m - 1] && b[..m - 1] == b[..m][..m - 1];
      SentToPrefix(ids, a, b, s, m - 1);
    }
  }

  lemma SentOneMore(ids: seq<string>, ws: seq<nat>, s: nat, m: nat, n: nat)
    requires m < |ids| && m < |ws| && n > 0
    ensures SentTo(ids, Greedy(ws, m + 1, n), s, m + 1)
         == SentTo(ids, Greedy(ws, m, n), s, m) + if Lightest(Loads(ws, m, n)) == s then [ids[m]] else []
  {
    LoadsOneMore(ws, m, n);
    SentToPrefix(ids, Greedy(ws, m, n), Greedy(ws, m + 1, n), s, m);
  }

  /** The first of the lightest shards. */
  method IndexOfMin(loads: array<nat>) returns (s: nat)
    requires loads.Length > 0
    ensures s < loads.Length && s == Lightest(loads[..])
  {
    s := 0;
    var i := 1;
    while i < loads.Length
      invariant 1 <= i <= loads.Length && s < i && s == Lightest(loads[..i])
    {
      assert loads[..i + 1][..i] == loads[..i];
      if loads[i] < loads[s] { s := i; }
      i := i + 1;
    }
    assert loads[..loads.Length] == loads[..];
  }

  /** The first `m` ids are dealt. */
  ghost predicate Dealt(order: seq<string>, ws: seq<nat>, mine: nat, n: nat, m: nat, loads: seq<nat>, chosen: seq<string>)
    requires m <= |order| && m <= |ws| && n > 0
  {
    loads == Loads(ws, m, n) && chosen == SentTo(order, Greedy(ws, m, n), mine, m)
  }

  lemma DealOne(order: seq<string>, ws: seq<nat>, mine: nat, n: nat, m: nat, loads: seq<nat>, chosen: seq<string>, s: nat)
    requires m < |order| && m < |ws| && n > 0 && Dealt(order, ws, mine, n, m, loads, chosen)
    requires |loads| > 0 && s == Lightest(loads)
    ensures Dealt(order, ws, mine, n, m + 1, loads[s := loads[s] + ws[m]],
                  chosen + if s == mine then [order[m]] else [])
  {
    LoadsOneMore(ws, m, n);
    SentOneMore(order, ws, mine, m, n);
  }

  /** Deals id `m`, of weight `w`, to the lightest shard. */
  method DealId(loads: array<nat>, order: seq<string>, m: nat, w: nat, mine: nat, soFar: seq<string>, ghost ws: seq<nat>)
    returns (chosen: seq<string>)
    requires loads.Length > 0 && m < |order| && m < |ws| && w == ws[m]
    requires Dealt(order, ws, mine, loads.Length, m, loads[..], soFar)
    modifies loads
    ensures Dealt(order, ws, mine, loads.Length, m + 1, loads[..], chosen)
  {
    var s := IndexOfMin(loads);
    DealOne(order, ws, mine, loads.Length, m, loads[..], soFar, s);
    ghost var before := loads[..];
    loads[s] := loads[s] + w;
    assert loads[..] == before[s := before[s] + ws[m]];
    chosen := if s == mine then soFar + [order[m]] else soFar;
  }

  /** Each id to the lightest shard so far; those of one shard are kept. */
  method Deal(order: seq<string>, weight: string -> nat, mine: nat, n: nat) returns (chosen: seq<string>)
    requires mine < n
    ensures chosen == SentTo(order, Greedy(Weights(order, weight), |order|, n), mine, |order|)
  {
    ghost var ws := Weights(order, weight);
    var loads := new nat[n](_ => 0);
    chosen := [];
    assert loads[..] == Loads(ws, 0, n);
    for i := 0 to |order|
      invariant Dealt(order, ws, mine, n, i, loads[..], chosen)
    {
      chosen := DealId(loads, order, i, weight(order[i]), mine, chosen, ws);
    }
  }

  /** The templates of shard `k` of `n`, heaviest first; none if there is no such shard. */
  method Pick(ids: seq<string>, weight: string -> nat, k: int, n: int) returns (mine: Option<seq<string>>)
    ensures mine.None? <==> !(1 <= k <= n)
    ensures mine.Some? ==> mine.value == Shard(ids, weight, k - 1, n)
  {
    if n < 1 || k < 1 || k > n { return None; }
    var chosen := Deal(ByWeight(ids, weight), weight, k - 1, n);
    mine := Some(chosen);
  }

  // ---------- what the shards are together ----------

  lemma TotalOneMore(ids: seq<string>, id: string, weight: string -> nat)
    ensures TotalWeight(ids + [id], weight) == TotalWeight(ids, weight) + weight(id)
  {
    assert Weights(ids + [id], weight)[..|ids|] == Weights(ids, weight);
  }

  lemma {:induction false} SentWeight(ids: seq<string>, weight: string -> nat, a: seq<nat>, s: nat, m: nat, n: nat)
    requires m <= |ids| && m <= |a| && s < n && forall i :: 0 <= i < m ==> a[i] < n
    ensures TotalWeight(SentTo(ids, a, s, m), weight) == Tally(a, Weights(ids, weight), m, n)[s]
    decreases m
  {
    if m > 0 {
      SentWeight(ids, weight, a, s, m - 1, n);
      assert SentTo(ids, a, s, m - 1) + [] == SentTo(ids, a, s, m - 1);
      TotalOneMore(SentTo(ids, a, s, m - 1), ids[m - 1], weight);
    }
  }

  lemma {:induction false} InsertTotal(x: string, ids: seq<string>, weight: string -> nat, v: string -> nat)
    ensures TotalWeight(Insert(x, ids, weight), v) == TotalWeight(ids, v) + v(x)
  {
    if ids == [] || weight(ids[0]) <= weight(x) {
      TotalFirst(x, ids, v);
    } else {
      InsertTotal(x, ids[1..], weight, v);
      TotalFirst(ids[0], Insert(x, ids[1..], weight), v);
      TotalFirst(ids[0], ids[1..], v);
      assert ids == [ids[0]] + ids[1..];
    }
  }

  lemma {:induction false} TotalFirst(x: string, ids: seq<string>, v: string -> nat)
    ensures TotalWeight([x] + ids, v) == v(x) + TotalWeight(ids, v)
  {
    if ids == [] {
      TotalOneMore([], x, v);
      assert [x] + ids == [] + [x];
    } else {
      var init, last := ids[..|ids| - 1], ids[|ids| - 1];
      TotalFirst(x, init, v);
      TotalOneMore([x] + init, last, v);
      TotalOneMore(init, last, v);
      assert [x] + ids == ([x] + init) + [last] && ids == init + [last];
    }
  }

  /** Sorting changes no total, whatever is counted. */
  lemma {:induction false} ByWeightKeepsTotal(ids: seq<string>, weight: string -> nat, v: string -> nat)
    ensures TotalWeight(ByWeight(ids, weight), v) == TotalWeight(ids, v)
  {
    if ids != [] {
      ByWeightKeepsTotal(ids[1..], weight, v);
      InsertTotal(ids[0], ByWeight(ids[1..], weight), weight, v);
      TotalFirst(ids[0], ids[1..], v);
      assert ids == [ids[0]] + ids[1..];
    }
  }

  lemma ShardWeight(ids: seq<string>, weight: string -> nat, s: nat, n: nat)
    requires s < n
    ensures var ws := Weights(ByWeight(ids, weight), weight);
            TotalWeight(Shard(ids, weight, s, n), weight) == Loads(ws, |ws|, n)[s]
  {
    SentWeight(ByWeight(ids, weight), weight, Placement(ids, weight, n), s, |ids|, n);
  }

  /** What is counted, in each shard. */
  function ShardTotals(ids: seq<string>, weight: string -> nat, v: string -> nat, n: nat): (t: seq<nat>)
    ensures |t| == n && forall s :: 0 <= s < n ==> t[s] == TotalWeight(Shard(ids, weight, s, n), v)
  {
    seq(n, s requires 0 <= s < n => TotalWeight(Shard(ids, weight, s, n), v))
  }

  /** The shards split the ids: whatever is counted, together they hold just that. */
  lemma ShardsPartition(ids: seq<string>, weight: string -> nat, v: string -> nat, n: nat)
    requires n > 0
    ensures Sum(ShardTotals(ids, weight, v, n)) == TotalWeight(ids, v)
  {
    var order, a := ByWeight(ids, weight), Placement(ids, weight, n);
    var ws := Weights(order, v);
    var t := Tally(a, ws, |ids|, n);
    forall s | 0 <= s < n
      ensures t[s] == ShardTotals(ids, weight, v, n)[s]
    {
      SentWeight(order, v, a, s, |ids|, n);
    }
    assert t == ShardTotals(ids, weight, v, n);
    TallySum(a, ws, |ids|, n);
    assert ws[..|ids|] == ws;
    ByWeightKeepsTotal(ids, weight, v);
  }

  /** Counts one id. */
  function Is(id: string): string -> nat { x => if x == id then 1 else 0 }

  function Times(ids: seq<string>, id: string): nat { TotalWeight(ids, Is(id)) }

  lemma {:induction false} TimesIn(ids: seq<string>, id: string)
    ensures id in ids <==> Times(ids, id) > 0
    ensures Distinct(ids) ==> Times(ids, id) <= 1
  {
    if ids == [] {
    } else {
      var init, last := ids[..|ids| - 1], ids[|ids| - 1];
      assert ids == init + [last];
      TimesIn(init, id);
      TotalOneMore(init, last, Is(id));
    }
  }

  ghost predicate Distinct(ids: seq<string>) { forall i, k :: 0 <= i < k < |ids| ==> ids[i] != ids[k] }

  lemma {:induction false} SumBounds(s: seq<nat>)
    ensures Sum(s) > 0 ==> exists i :: 0 <= i < |s| && s[i] > 0
    ensures forall i :: 0 <= i < |s| ==> s[i] <= Sum(s)
    ensures forall i, k :: 0 <= i < k < |s| ==> s[i] + s[k] <= Sum(s)
  {
    if s != [] {
      var init := s[..|s| - 1];
      SumBounds(init);
      assert forall i :: 0 <= i < |init| ==> init[i] == s[i];
    }
  }

  ghost predicate InOneShard(ids: seq<string>, weight: string -> nat, n: nat, id: string) {
    && (exists s :: 0 <= s < n && id in Shard(ids, weight, s, n))
    && forall s, t :: 0 <= s < t < n ==> !(id in Shard(ids, weight, s, n) && id in Shard(ids, weight, t, n))
  }

  /** Each template is in exactly one shard, once; no shard has anything else. */
  lemma CheckedOnce(ids: seq<string>, weight: string -> nat, n: nat, id: string)
    requires n > 0 && Distinct(ids)
    ensures id in ids <==> InOneShard(ids, weight, n, id)
    ensures forall s :: 0 <= s < n ==> Times(Shard(ids, weight, s, n), id) <= 1
  {
    var t := ShardTotals(ids, weight, Is(id), n);
    ShardsPartition(ids, weight, Is(id), n);
    TimesIn(ids, id);
    SumBounds(t);
    forall s | 0 <= s < n
      ensures t[s] == Times(Shard(ids, weight, s, n), id) <= 1
      ensures id in Shard(ids, weight, s, n) <==> t[s] > 0
    {
      TimesIn(Shard(ids, weight, s, n), id);
    }
  }

  /** The shards are about even: any two differ by the heaviest template at most, so none holds more than
      its share and that. */
  lemma ShardsEven(ids: seq<string>, weight: string -> nat, n: nat, most: nat, s: nat, t: nat)
    requires s < n && t < n && forall id :: id in ids ==> weight(id) <= most
    ensures TotalWeight(Shard(ids, weight, s, n), weight) <= TotalWeight(Shard(ids, weight, t, n), weight) + most
    ensures var excess := TotalWeight(Shard(ids, weight, s, n), weight) - most; n * excess <= TotalWeight(ids, weight)
  {
    var order := ByWeight(ids, weight);
    var ws := Weights(order, weight);
    forall i | 0 <= i < |order|
      ensures ws[i] <= most
    {
      ByWeightKeeps(ids, weight);
      assert order[i] in ids;
    }
    ShardWeight(ids, weight, s, n);
    ShardWeight(ids, weight, t, n);
    SpreadAtMostHeaviest(ws, |ws|, n, most);
    LoadAtMostShare(ws, |ws|, n, most, s);
    assert ws[..|ws|] == ws;
    ByWeightKeepsTotal(ids, weight, weight);
  }

  /** What counts toward group `g` of a split. */
  function Counted(weight: string -> nat, group: string -> nat, g: nat): string -> nat {
    id => if group(id) == g then weight(id) else 0
  }

  lemma {:induction false} GroupTally(ids: seq<string>, weight: string -> nat, group: string -> nat, a: seq<nat>,
                                      m: nat, n: nat, g: nat)
    requires m <= |ids| && |a| == |ids| && g < n && forall i :: 0 <= i < |a| ==> a[i] == group(ids[i]) < n
    ensures Tally(a, Weights(ids, weight), m, n)[g] == TotalWeight(ids[..m], Counted(weight, group, g))
    decreases m
  {
    if m > 0 {
      GroupTally(ids, weight, group, a, m - 1, n, g);
      TotalOneMore(ids[..m - 1], ids[m - 1], Counted(weight, group, g));
      assert ids[..m] == ids[..m - 1] + [ids[m - 1]];
    }
  }

  /** Graham's bound: however the templates could be split into `n` groups of `c` at most, no shard holds more
      than 4/3 - 1/(3n) of `c`, so than four thirds. */
  lemma ShardsNearBest(ids: seq<string>, weight: string -> nat, n: nat, s: nat, group: string -> nat, c: nat)
    requires s < n && forall id :: id in ids ==> group(id) < n
    requires forall g :: 0 <= g < n ==> TotalWeight(ids, Counted(weight, group, g)) <= c
    ensures 3 * n * TotalWeight(Shard(ids, weight, s, n), weight) <= (4 * n - 1) * c
    ensures 3 * TotalWeight(Shard(ids, weight, s, n), weight) <= 4 * c
  {
    var order := ByWeight(ids, weight);
    var ws := Weights(order, weight);
    forall i | 0 <= i < |order|
      ensures group(order[i]) < n
    {
      ByWeightKeeps(ids, weight);
      assert order[i] in ids;
    }
    var a := seq(|order|, i requires 0 <= i < |order| => group(order[i]));
    forall g | 0 <= g < n
      ensures Tally(a, ws, |ws|, n)[g] <= c
    {
      GroupTally(order, weight, group, a, |order|, n, g);
      assert order[..|order|] == order;
      ByWeightKeepsTotal(ids, weight, Counted(weight, group, g));
    }
    ByWeightDescends(ids, weight);
    WithinFourThirds(a, ws, n, c, s);
    ShardWeight(ids, weight, s, n);
  }
}
