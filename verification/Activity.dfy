/** The recent activity: runs of uploads become one line each, and a window over the log grows until it
    holds enough lines. */
module Activity {
  /** A line of the log, newest first in a list; `count` is 0 until uploads are merged into it. `detail`
      names the file, or the folder once uploads are merged. */
  datatype Line = Line(ts: int, server: string, kind: string, actor: string, detail: string, count: nat)

  /** The folder of an uploaded file, as it is shown. */
  type Folders = string -> string

  const UPLOAD := "file_uploaded"
  const UPLOADS_TOGETHER := 15 * 60 * 1000  // milliseconds

  function Files(l: Line): nat { if l.count == 0 then 1 else l.count }

  function FolderOf(l: Line, folder: Folders): string { if l.count == 0 then folder(l.detail) else l.detail }

  /** Upload `e` goes into line `last`. */
  predicate Joins(last: Line, e: Line, folder: Folders) {
    && e.kind == UPLOAD && last.kind == e.kind && last.server == e.server && last.actor == e.actor
    && FolderOf(last, folder) == folder(e.detail) && last.ts - e.ts <= UPLOADS_TOGETHER
  }

  function Joined(last: Line, e: Line, folder: Folders): Line {
    last.(count := Files(last) + 1, detail := folder(e.detail))
  }

  function Push(out: seq<Line>, e: Line, folder: Folders): seq<Line> {
    if out != [] && Joins(out[|out| - 1], e, folder)
    then out[..|out| - 1] + [Joined(out[|out| - 1], e, folder)]
    else out + [e]
  }

  function Merge(rows: seq<Line>, folder: Folders): seq<Line> {
    if rows == [] then [] else Push(Merge(rows[..|rows| - 1], folder), rows[|rows| - 1], folder)
  }

  method MergeUploads(rows: seq<Line>, folder: Folders) returns (out: seq<Line>)
    ensures out == Merge(rows, folder)
  {
    out := [];
    assert rows[..0] == [];
    for i := 0 to |rows|
      invariant out == Merge(rows[..i], folder)
    {
      assert rows[..i + 1][..i] == rows[..i];
      out := AddRow(out, rows[i], folder);
    }
    assert rows[..|rows|] == rows;
  }

  /** Adds a row to the lines so far: to the last one, in place, or as a line of its own. */
  method AddRow(lines: seq<Line>, e: Line, folder: Folders) returns (out: seq<Line>)
    ensures out == Push(lines, e, folder)
  {
    var n := |lines|;
    if n > 0 && e.kind == UPLOAD {
      var last := lines[n - 1];
      var lastFolder := last.detail;
      if last.count == 0 { lastFolder := folder(last.detail); }
      if last.kind == e.kind && last.server == e.server && last.actor == e.actor
         && lastFolder == folder(e.detail) && last.ts - e.ts <= UPLOADS_TOGETHER {
        return lines[n - 1 := last.(count := (if last.count > 1 then last.count else 1) + 1, detail := folder(e.detail))];
      }
    }
    return lines + [e];
  }

  // ---------- what merging means ----------

  /** Rows of a log, not merged yet. */
  predicate Raw(rows: seq<Line>) { forall l :: l in rows ==> l.count == 0 }

  function Total(out: seq<Line>): nat { if out == [] then 0 else Total(out[..|out| - 1]) + Files(out[|out| - 1]) }

  lemma {:induction false} MergeConserves(rows: seq<Line>, folder: Folders)
    requires Raw(rows)
    ensures Total(Merge(rows, folder)) == |rows|
  {
    if rows != [] {
      var init := Merge(rows[..|rows| - 1], folder);
      MergeConserves(rows[..|rows| - 1], folder);
      var out := Merge(rows, folder);
      assert rows[|rows| - 1] in rows;
      if |out| == |init| { assert out[..|out| - 1] == init[..|init| - 1]; } else { assert out[..|out| - 1] == init; }
    }
  }

  /** Groups of rows, one for each line, with one more row. */
  function Regroup(g: seq<seq<Line>>, out: seq<Line>, e: Line, folder: Folders): seq<seq<Line>>
    requires |g| == |out|
  {
    if out != [] && Joins(out[|out| - 1], e, folder) then g[..|g| - 1] + [g[|g| - 1] + [e]] else g + [[e]]
  }

  function Flatten(g: seq<seq<Line>>): seq<Line> { if g == [] then [] else Flatten(g[..|g| - 1]) + g[|g| - 1] }

  lemma FlattenAdd(g: seq<seq<Line>>, x: seq<Line>)
    ensures Flatten(g + [x]) == Flatten(g) + x
  {
    assert (g + [x])[..|g|] == g;
  }

  lemma FlattenRegroup(g: seq<seq<Line>>, out: seq<Line>, e: Line, folder: Folders)
    requires |g| == |out|
    ensures Flatten(Regroup(g, out, e, folder)) == Flatten(g) + [e]
  {
    if out != [] && Joins(out[|out| - 1], e, folder) {
      FlattenAdd(g[..|g| - 1], g[|g| - 1] + [e]);
    } else {
      FlattenAdd(g, [e]);
    }
  }

  /** The rows behind each line: those of one line follow each other in the log, and together they are
      the log. */
  function Groups(rows: seq<Line>, folder: Folders): (g: seq<seq<Line>>)
    ensures |g| == |Merge(rows, folder)| && Flatten(g) == rows
  {
    if rows == [] then []
    else
      var g, out, e := Groups(rows[..|rows| - 1], folder), Merge(rows[..|rows| - 1], folder), rows[|rows| - 1];
      FlattenRegroup(g, out, e, folder);
      Regroup(g, out, e, folder)
  }

  /** Line `l` stands for `rows`: one row as it is, or uploads by one actor into one folder of one server,
      none more than 15 minutes older than the first. */
  ghost predicate StandsFor(l: Line, rows: seq<Line>, folder: Folders) {
    && |rows| > 0 && l.ts == rows[0].ts && l.kind == rows[0].kind && l.server == rows[0].server && l.actor == rows[0].actor
    && (if |rows| == 1 then l == rows[0]
        else
          && l.count == |rows| && l.kind == UPLOAD && l.detail == folder(rows[0].detail)
          && forall r :: r in rows ==>
               r.kind == UPLOAD && r.server == l.server && r.actor == l.actor && folder(r.detail) == l.detail
               && l.ts - r.ts <= UPLOADS_TOGETHER)
  }

  /** Rows that make one line: uploads by one actor into one folder of one server, none of them more than 15
      minutes older than the first. */
  predicate Together(rows: seq<Line>, folder: Folders) {
    forall r :: r in rows ==>
      && r.kind == UPLOAD && r.server == rows[0].server && r.actor == rows[0].actor
      && folder(r.detail) == folder(rows[0].detail) && rows[0].ts - r.ts <= UPLOADS_TOGETHER
  }

  /** Group `i` makes one line, and can't take in the row that starts the next group. */
  predicate Full(g: seq<seq<Line>>, i: nat, folder: Folders)
    requires i < |g|
  {
    && g[i] != [] && (|g[i]| > 1 ==> Together(g[i], folder))
    && (i + 1 < |g| && g[i + 1] != [] ==> !Together(g[i] + [g[i + 1][0]], folder))
  }

  /** The groups are as large as can be. */
  predicate Greedy(g: seq<seq<Line>>, folder: Folders) { forall i :: 0 <= i < |g| ==> Full(g, i, folder) }

  /** Each line stands for its group, and could not take in the row that starts the next. */
  ghost predicate Faithful(out: seq<Line>, g: seq<seq<Line>>, folder: Folders) {
    && |out| == |g|
    && (forall i :: 0 <= i < |g| ==> StandsFor(out[i], g[i], folder))
    && (forall i :: 0 <= i < |g| - 1 ==> !Joins(out[i], g[i + 1][0], folder))
  }

  lemma JoinedStands(last: Line, rows: seq<Line>, e: Line, folder: Folders)
    requires StandsFor(last, rows, folder) && Joins(last, e, folder) && e.count == 0 && (|rows| == 1 ==> last.count == 0)
    ensures StandsFor(Joined(last, e, folder), rows + [e], folder)
  {
    var more := rows + [e];
    assert forall r :: r in more ==> r in rows || r == e;
  }

  lemma JoinFaithful(out: seq<Line>, g: seq<seq<Line>>, e: Line, folder: Folders)
    requires Faithful(out, g, folder) && out != [] && Joins(out[|out| - 1], e, folder) && e.count == 0
    requires |g[|g| - 1]| == 1 ==> out[|out| - 1].count == 0
    ensures Faithful(Push(out, e, folder), g[..|g| - 1] + [g[|g| - 1] + [e]], folder)
  {
    JoinedStands(out[|out| - 1], g[|g| - 1], e, folder);
    var more, grown := Push(out, e, folder), g[..|g| - 1] + [g[|g| - 1] + [e]];
    forall i | 0 <= i < |grown|
      ensures StandsFor(more[i], grown[i], folder)
      ensures i > 0 ==> !Joins(more[i - 1], grown[i][0], folder)
    {
      if i > 0 { assert !Joins(out[i - 1], g[i - 1 + 1][0], folder); }
    }
  }

  lemma AloneFaithful(out: seq<Line>, g: seq<seq<Line>>, e: Line, folder: Folders)
    requires Faithful(out, g, folder) && (out != [] ==> !Joins(out[|out| - 1], e, folder))
    ensures Faithful(out + [e], g + [[e]], folder)
  {
    var more, grown := out + [e], g + [[e]];
    forall i | 0 <= i < |grown|
      ensures StandsFor(more[i], grown[i], folder)
      ensures i > 0 ==> !Joins(more[i - 1], grown[i][0], folder)
    {
      if 0 < i < |g| { assert !Joins(out[i - 1], g[i - 1 + 1][0], folder); }
    }
  }

  /** Lines of one row are as the row was. */
  ghost predicate Plain(out: seq<Line>, g: seq<seq<Line>>) {
    |out| == |g| && forall i :: 0 <= i < |g| && |g[i]| == 1 ==> out[i].count == 0
  }

  lemma {:induction false} GroupsFaithful(rows: seq<Line>, folder: Folders)
    requires Raw(rows)
    ensures Faithful(Merge(rows, folder), Groups(rows, folder), folder) && Plain(Merge(rows, folder), Groups(rows, folder))
  {
    if rows != [] {
      var init, e := rows[..|rows| - 1], rows[|rows| - 1];
      GroupsFaithful(init, folder);
      var g, out := Groups(init, folder), Merge(init, folder);
      assert e in rows;
      assert Merge(rows, folder) == Push(out, e, folder) && Groups(rows, folder) == Regroup(g, out, e, folder);
      if out != [] && Joins(out[|out| - 1], e, folder) {
        JoinFaithful(out, g, e, folder);
        assert |g[|g| - 1]| > 0 by { assert StandsFor(out[|out| - 1], g[|g| - 1], folder); }
      } else {
        AloneFaithful(out, g, e, folder);
      }
    }
  }

  ghost predicate NewestFirst(rows: seq<Line>) {
    forall i, k :: 0 <= i < k < |rows| ==> rows[k].ts <= rows[i].ts
  }

  /** No row is newer than its line, and the rows end at `oldest` or later. */
  ghost predicate Tops(out: seq<Line>, g: seq<seq<Line>>, oldest: int) {
    && |out| == |g|
    && (forall i, r :: 0 <= i < |g| && r in g[i] ==> r.ts <= out[i].ts)
    && (forall i :: 0 <= i < |out| ==> oldest <= out[i].ts)
  }

  lemma RegroupTops(out: seq<Line>, g: seq<seq<Line>>, e: Line, folder: Folders, oldest: int)
    requires Tops(out, g, oldest) && e.ts <= oldest && (|g| > 0 ==> |g[|g| - 1]| > 0)
    ensures Tops(Push(out, e, folder), Regroup(g, out, e, folder), e.ts)
  {
    var more, grown := Push(out, e, folder), Regroup(g, out, e, folder);
    forall i, r: Line | 0 <= i < |grown| && r in grown[i]
      ensures r.ts <= more[i].ts
    {
      assert r == e || (i < |g| && r in g[i]);
    }
  }

  lemma {:induction false} GroupsTops(rows: seq<Line>, folder: Folders)
    requires Raw(rows) && NewestFirst(rows)
    ensures rows != [] ==> Tops(Merge(rows, folder), Groups(rows, folder), rows[|rows| - 1].ts)
  {
    if |rows| > 0 {
      var init, e := rows[..|rows| - 1], rows[|rows| - 1];
      var g, out := Groups(init, folder), Merge(init, folder);
      assert Merge(rows, folder) == Push(out, e, folder) && Groups(rows, folder) == Regroup(g, out, e, folder);
      if init == [] {
        RegroupTops(out, g, e, folder, e.ts);
      } else {
        GroupsTops(init, folder);
        GroupsFaithful(init, folder);
        if |g| > 0 { assert StandsFor(out[|out| - 1], g[|g| - 1], folder); }
        RegroupTops(out, g, e, folder, init[|init| - 1].ts);
      }
    }
  }

  /** No two of the rows are more than 15 minutes apart. */
  ghost predicate ShortSpan(rows: seq<Line>) {
    forall a, b :: a in rows && b in rows ==> a.ts - b.ts <= UPLOADS_TOGETHER
  }

  lemma LineSpan(l: Line, rows: seq<Line>, folder: Folders)
    requires StandsFor(l, rows, folder) && forall r :: r in rows ==> r.ts <= l.ts
    ensures ShortSpan(rows)
  {
    if |rows| == 1 { assert forall r :: r in rows ==> r == rows[0]; }
  }

  /** A line can take in a row exactly when its rows and that one make one line. */
  lemma JoinsTogether(l: Line, rows: seq<Line>, e: Line, folder: Folders)
    requires StandsFor(l, rows, folder) && (|rows| == 1 ==> l.count == 0)
    ensures Joins(l, e, folder) <==> Together(rows + [e], folder)
    ensures |rows| > 1 ==> Together(rows, folder)
  {
    var more := rows + [e];
    assert forall r :: r in more <==> r in rows || r == e;
    assert more[0] == rows[0] && more[0] in more && e in more;
  }

  lemma GroupsGreedy(rows: seq<Line>, folder: Folders)
    requires Raw(rows)
    ensures Greedy(Groups(rows, folder), folder)
  {
    GroupsFaithful(rows, folder);
    var g, out := Groups(rows, folder), Merge(rows, folder);
    forall i | 0 <= i < |g|
      ensures Full(g, i, folder)
    {
      assert StandsFor(out[i], g[i], folder);
      JoinsTogether(out[i], g[i], g[i][0], folder);
      if i < |g| - 1 {
        assert StandsFor(out[i + 1], g[i + 1], folder);
        JoinsTogether(out[i], g[i], g[i + 1][0], folder);
      }
    }
  }

  lemma {:induction false} FlattenFirst(g: seq<seq<Line>>)
    requires g != []
    ensures Flatten(g) == g[0] + Flatten(g[1..])
    decreases |g|
  {
    var init := g[..|g| - 1];
    if |g| == 1 {
      assert init == [] && g[1..] == [];
    } else {
      FlattenFirst(init);
      assert g[1..][..|g| - 2] == init[1..];
    }
  }

  /** What makes one line has no start that doesn't. */
  lemma StartsTogether(a: seq<Line>, e: Line, x: seq<Line>, folder: Folders)
    requires a != [] && !Together(a + [e], folder) && (|x| > 1 ==> Together(x, folder))
    ensures !(a + [e] <= x)
  {
    var y := a + [e];
    assert y <= x ==> |x| > 1 && x[0] == y[0] && forall r :: r in y ==> r in x;
  }

  /** No start of the rows that makes one line is longer than the first group. */
  lemma FirstIsLongest(g: seq<seq<Line>>, x: seq<Line>, folder: Folders)
    requires g != [] && Greedy(g, folder) && x <= Flatten(g) && (|x| > 1 ==> Together(x, folder))
    ensures |x| <= |g[0]|
  {
    FlattenFirst(g);
    if |g| > 1 {
      FlattenFirst(g[1..]);
      assert Full(g, 0, folder) && Full(g, 1, folder);
      var y := g[0] + [g[1][0]];
      assert y <= Flatten(g);
      StartsTogether(g[0], g[1][0], x, folder);
      assert |x| >= |y| ==> y <= x;
    } else {
      assert g[1..] == [];
    }
  }

  lemma GreedyHasRows(g: seq<seq<Line>>, folder: Folders)
    requires Greedy(g, folder)
    ensures g == [] <==> Flatten(g) == []
  {
    if g != [] {
      FlattenFirst(g);
      assert Full(g, 0, folder);
    }
  }

  /** There is only one way to split a log into groups that are as large as can be. */
  lemma {:induction false} GreedyIsUnique(g: seq<seq<Line>>, h: seq<seq<Line>>, folder: Folders)
    requires Greedy(g, folder) && Greedy(h, folder) && Flatten(g) == Flatten(h)
    ensures g == h
    decreases |g|
  {
    GreedyHasRows(g, folder);
    GreedyHasRows(h, folder);
    if g != [] {
      FlattenFirst(g);
      FlattenFirst(h);
      assert Full(g, 0, folder) && Full(h, 0, folder);
      FirstIsLongest(g, h[0], folder);
      FirstIsLongest(h, g[0], folder);
      assert g[0] == Flatten(g)[..|g[0]|] == h[0];
      GreedyRest(g, folder);
      GreedyRest(h, folder);
      GreedyIsUnique(g[1..], h[1..], folder);
      assert g == [g[0]] + g[1..] && h == [h[0]] + h[1..];
    }
  }

  lemma GreedyRest(g: seq<seq<Line>>, folder: Folders)
    requires g != [] && Greedy(g, folder)
    ensures Greedy(g[1..], folder)
  {
    forall i | 0 <= i < |g[1..]|
      ensures Full(g[1..], i, folder)
    {
      assert Full(g, i + 1, folder);
    }
  }

  /** The groups make up the log, each is as large as can be, and each line stands for its group. In a log
      that is newest first, no line spans more than 15 minutes. */
  lemma MergeGroups(rows: seq<Line>, folder: Folders)
    requires Raw(rows)
    ensures Flatten(Groups(rows, folder)) == rows
    ensures Greedy(Groups(rows, folder), folder)
    ensures Faithful(Merge(rows, folder), Groups(rows, folder), folder)
    ensures NewestFirst(rows) ==> forall i :: 0 <= i < |Groups(rows, folder)| ==> ShortSpan(Groups(rows, folder)[i])
  {
    GroupsFaithful(rows, folder);
    GroupsGreedy(rows, folder);
    if NewestFirst(rows) { LineSpans(rows, folder); }
  }

  lemma LineSpans(rows: seq<Line>, folder: Folders)
    requires Raw(rows) && NewestFirst(rows)
    ensures forall i :: 0 <= i < |Groups(rows, folder)| ==> ShortSpan(Groups(rows, folder)[i])
  {
    var g, out := Groups(rows, folder), Merge(rows, folder);
    GroupsFaithful(rows, folder);
    GroupsTops(rows, folder);
    forall i | 0 <= i < |g|
      ensures ShortSpan(g[i])
    {
      SomeRows(g, i);
      LineSpan(out[i], g[i], folder);
    }
  }

  lemma SomeRows(g: seq<seq<Line>>, i: nat)
    requires i < |g|
    ensures Flatten(g) == [] ==> g[i] == []
    decreases |g|
  {
    if i < |g| - 1 { SomeRows(g[..|g| - 1], i); }
  }

  // ---------- the growing window ----------

  function First(out: seq<Line>, limit: nat): seq<Line> { if |out| > limit then out[..limit] else out }

  /** Merging more rows leaves every line but the last as it is, and the last one can only grow. */
  ghost predicate Extends(short: seq<Line>, long: seq<Line>) {
    && |short| <= |long|
    && (short != [] ==>
          && short[..|short| - 1] == long[..|short| - 1]
          && long[|short| - 1].ts == short[|short| - 1].ts
          && Files(long[|short| - 1]) >= Files(short[|short| - 1]))
  }

  lemma ExtendsPush(short: seq<Line>, long: seq<Line>, e: Line, folder: Folders)
    requires Extends(short, long)
    ensures Extends(short, Push(long, e, folder))
  {
  }

  lemma {:induction false} MergeExtends(rows: seq<Line>, n: nat, folder: Folders)
    requires n <= |rows|
    ensures Extends(Merge(rows[..n], folder), Merge(rows, folder))
    decreases |rows|
  {
    if n == |rows| {
      assert rows[..n] == rows;
    } else {
      var init := rows[..|rows| - 1];
      MergeExtends(init, n, folder);
      assert init[..n] == rows[..n];
      ExtendsPush(Merge(rows[..n], folder), Merge(init, folder), rows[|rows| - 1], folder);
      assert Merge(rows, folder) == Push(Merge(init, folder), rows[|rows| - 1], folder);
    }
  }

  /** The lines of the first rows are the log's, once there are more than `limit` of them. */
  lemma EnoughLines(rows: seq<Line>, n: nat, limit: nat, folder: Folders)
    requires n <= |rows| && |Merge(rows[..n], folder)| > limit
    ensures First(Merge(rows[..n], folder), limit) == First(Merge(rows, folder), limit)
  {
    MergeExtends(rows, n, folder);
    var short, long := Merge(rows[..n], folder), Merge(rows, folder);
    assert short[..limit] == short[..|short| - 1][..limit];
    assert long[..limit] == long[..|short| - 1][..limit];
  }

  /** The rows one look reads: the newest `cap` at most. */
  function Newest(rows: seq<Line>, cap: nat): seq<Line> { if |rows| > cap then rows[..cap] else rows }

  /** The recent activity, at most `limit` lines, reading at most `cap` rows: it is what merging the
      newest `cap` rows at once would give. */
  method Recent(rows: seq<Line>, limit: nat, cap: nat, folder: Folders) returns (out: seq<Line>)
    requires limit > 0 && cap > 0
    ensures out == First(Merge(Newest(rows, cap), folder), limit)
  {
    ghost var seen := Newest(rows, cap);
    var n := if limit * 4 < 1000 then limit * 4 else 1000;
    if cap < n { n := cap; }
    while true
      invariant 0 < n <= cap
      decreases cap - n
    {
      var page := if n < |rows| then rows[..n] else rows;
      out := MergeUploads(page, folder);
      assert page == if n < |seen| then seen[..n] else seen;
      if |out| > limit || |page| < n || n >= cap {
        if n < |seen| { EnoughLines(seen, n, limit, folder); }
        break;
      }
      n := if n * 4 < cap then n * 4 else cap;
    }
    if |out| > limit { out := out[..limit]; }
  }

  /** Reading only the newest `cap` rows gives the first lines of the whole log's exactly when the log
      isn't longer, or those rows fill more than `limit` lines, or fill them and the next row starts a
      line of its own. */
  lemma CapMatters(rows: seq<Line>, limit: nat, cap: nat, folder: Folders)
    requires Raw(rows) && limit > 0 && cap > 0
    ensures var out := Merge(Newest(rows, cap), folder);
            First(out, limit) == First(Merge(rows, folder), limit) <==>
              || |rows| <= cap
              || |out| > limit
              || (|out| == limit && !Joins(out[limit - 1], rows[cap], folder))
  {
    if |rows| > cap {
      var out := Merge(rows[..cap], folder);
      if |out| > limit { EnoughLines(rows, cap, limit, folder); }
      else if |out| == limit { FullPage(rows, limit, cap, folder); }
      else { ShortPage(rows, limit, cap, folder); }
    }
  }

  lemma ShortPage(rows: seq<Line>, limit: nat, cap: nat, folder: Folders)
    requires Raw(rows) && cap < |rows| && |Merge(rows[..cap], folder)| < limit
    ensures First(Merge(rows, folder), limit) != Merge(rows[..cap], folder)
  {
    MergeConserves(rows[..cap], folder);
    MergeConserves(rows, folder);
  }

  lemma FullPage(rows: seq<Line>, limit: nat, cap: nat, folder: Folders)
    requires Raw(rows) && 0 < limit && cap < |rows| && |Merge(rows[..cap], folder)| == limit
    ensures var out := Merge(rows[..cap], folder);
            First(Merge(rows, folder), limit) == out <==> !Joins(out[limit - 1], rows[cap], folder)
  {
    var out, more := Merge(rows[..cap], folder), Merge(rows[..cap + 1], folder);
    assert rows[..cap + 1][..cap] == rows[..cap];
    assert more == Push(out, rows[cap], folder);
    if Joins(out[limit - 1], rows[cap], folder) {
      assert |more| == limit && more[limit - 1] == Joined(out[limit - 1], rows[cap], folder);
      MergeExtends(rows, cap + 1, folder);
      LastGrew(out, more, Merge(rows, folder), limit);
    } else {
      assert more == out + [rows[cap]] && First(more, limit) == out;
      EnoughLines(rows, cap + 1, limit, folder);
    }
  }

  lemma LastGrew(out: seq<Line>, more: seq<Line>, all: seq<Line>, limit: nat)
    requires 0 < limit == |out| == |more| && Extends(more, all) && Files(more[limit - 1]) == Files(out[limit - 1]) + 1
    ensures First(all, limit) != out
  {
    assert First(all, limit)[limit - 1] == all[limit - 1];
  }
}
