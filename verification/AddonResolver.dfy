/** The resolver: it changes one plan, step by step, until its queue is empty. */
module AddonResolver {
  import opened Options
  import opened AddonCatalogue
  import opened AddonPlan
  import opened AddonChoice
  import opened Sets

  lemma NoticesKeepSound(w: World, p: Plan, q: Plan, root: Candidate)
    requires Sound(w, p, root.project.key) && q == p.(manual := q.manual, blockers := q.blockers)
    requires (forall m :: m in p.manual ==> m in q.manual) && (forall b :: b in p.blockers ==> b in q.blockers)
    ensures Sound(w, q, root.project.key) && Grows(p, q)
  {
    forall c | 0 < c < |q.steps|
      ensures HasParent(q, c)
    {
      assert HasParent(p, c);
      var a :| 0 <= a < c && a < Resolved(p) && NeededBy(p, a, c);
      assert NeededBy(q, a, c);
    }
    forall c | c in q.incompat
      ensures exists d :: Lists(q, c.step, d) && d.typ == Incompatible && d.projectID == c.projectID
    {
      var d :| Lists(p, c.step, d) && d.typ == Incompatible && d.projectID == c.projectID;
      assert Lists(q, c.step, d);
    }
  }

  /** Adding a step that resolved step `a` requires through `d`. */
  lemma AddKeepsSound(w: World, p: Plan, root: Candidate, c: Candidate, a: nat, d: Dep)
    requires Sound(w, p, root.project.key) && Lists(p, a, d) && d.typ == Required
    requires KeyOf(p.steps[a], d) == c.project.key && c.project.key !in p.planned && c.project.key in w.projects
    requires c.project.key.source != Playkeeper
    ensures var q := WithStep(p, c, p.steps[a].key.id);
            Sound(w, q, root.project.key) && Grows(p, q)
  {
    AddKeepsParents(p, c, a, d);
    AddKeepsIncompat(p, c, p.steps[a].key.id);
  }

  /** The same of a step that is for the version needed. */
  lemma AddKeepsAll(w: World, p: Plan, root: Candidate, c: Candidate, a: nat, d: Dep)
    requires Sound(w, p, root.project.key) && JustifiedEarly(w, p, root) && Honest(w, p, root)
    requires Needs(w, p, a, d, c) && !c.external && c.project.key.source != Playkeeper
    requires KeyOf(p.steps[a], d) == c.project.key && c.project.key !in p.planned && c.project.key in w.projects
    ensures var q := WithStep(p, c, p.steps[a].key.id);
            Sound(w, q, root.project.key) && JustifiedEarly(w, q, root) && Honest(w, q, root) && Grows(p, q)
  {
    AddKeepsSound(w, p, root, c, a, d);
    JustifiedGrows(w, p, WithStep(p, c, p.steps[a].key.id), root);
    StepKeepsHonest(w, p, root, c, a, d);
  }

  /** The same of one more thing left to the user, for a reason. */
  lemma ManualKeepsAll(w: World, p: Plan, root: Candidate, m: Manual)
    requires Sound(w, p, root.project.key) && JustifiedEarly(w, p, root) && Honest(w, p, root) && ByHand(w, p, root, m)
    ensures var q := WithManual(p, m);
            Sound(w, q, root.project.key) && JustifiedEarly(w, q, root) && Honest(w, q, root) && Grows(p, q)
  {
    NoticesKeepSound(w, p, WithManual(p, m), root);
    JustifiedGrows(w, p, WithManual(p, m), root);
    ManualKeepsHonest(w, p, root, m);
  }

  /** The plan with version `c`, for step `a`. */
  function WithVersion(p: Plan, c: Candidate, a: nat): Plan
    requires a < |p.steps|
  {
    if c.external then WithManual(p, OnOtherSite(p.steps[a].name, c.project.name))
    else WithStep(p, c, p.steps[a].key.id)
  }

  lemma VersionKeepsAll(w: World, p: Plan, root: Candidate, c: Candidate, a: nat, d: Dep)
    requires Sound(w, p, root.project.key) && JustifiedEarly(w, p, root) && Honest(w, p, root)
    requires Needs(w, p, a, d, c) && c.project.key.source != Playkeeper && VersionOf(w, c.project, d.versionID) == Some(c)
    requires Lookup(w, KeyOf(p.steps[a], d)) == Some(c.project)
    requires KeyOf(p.steps[a], d) == c.project.key && c.project.key !in p.planned
    ensures var q := WithVersion(p, c, a);
            && Sound(w, q, root.project.key) && JustifiedEarly(w, q, root) && Honest(w, q, root) && Grows(p, q)
            && Met(w, q, q.steps[a], d)
  {
    if c.external {
      assert Elsewhere(w, p, a, d, c, p.steps[a].name, c.project.name);
      ManualKeepsAll(w, p, root, OnOtherSite(p.steps[a].name, c.project.name));
    } else {
      AddKeepsAll(w, p, root, c, a, d);
    }
  }

  lemma AddKeepsParents(p: Plan, c: Candidate, a: nat, d: Dep)
    requires Queued(p) && HasParents(p) && Lists(p, a, d) && d.typ == Required && KeyOf(p.steps[a], d) == c.project.key
    ensures HasParents(WithStep(p, c, p.steps[a].key.id))
  {
    var q := WithStep(p, c, p.steps[a].key.id);
    forall i | 0 < i < |q.steps|
      ensures HasParent(q, i)
    {
      if i < |p.steps| {
        assert HasParent(p, i);
        var b :| 0 <= b < i && b < Resolved(p) && NeededBy(p, b, i);
        assert NeededBy(q, b, i);
      } else {
        assert d in q.deps[a];
        assert NeededBy(q, a, i);
      }
    }
  }

  lemma AddKeepsIncompat(p: Plan, c: Candidate, dependencyOf: string)
    requires Queued(p) && |p.deps| == |p.steps| && Incompatibles(p)
    ensures Incompatibles(WithStep(p, c, dependencyOf))
  {
    var q := WithStep(p, c, dependencyOf);
    forall x | x in q.incompat
      ensures x.step < |q.steps| && exists d :: Lists(q, x.step, d) && d.typ == Incompatible && d.projectID == x.projectID
    {
      var e :| Lists(p, x.step, e) && e.typ == Incompatible && e.projectID == x.projectID;
      assert Lists(q, x.step, e);
    }
  }

  lemma JustifiedGrows(w: World, p: Plan, q: Plan, root: Candidate)
    requires Grows(p, q) && |q.deps| == |q.steps| && |p.deps| == |p.steps| && JustifiedEarly(w, p, root)
    requires q.blockers == p.blockers
    ensures JustifiedEarly(w, q, root)
  {
    forall b | b in q.blockers
      ensures Early(b) && Reason(w, q, root, b)
    {
      ReasonGrows(w, p, q, root, b);
    }
  }

  lemma JustifiedMore(w: World, p: Plan, root: Candidate, b: Blocker)
    requires JustifiedEarly(w, p, root) && |p.deps| == |p.steps| && Early(b) && Reason(w, p, root, b)
    ensures JustifiedEarly(w, Blocked(p, b), root)
  {
    var q := Blocked(p, b);
    forall x | x in q.blockers
      ensures Early(x) && Reason(w, q, root, x)
    {
      assert Grows(p, q);
      ReasonGrows(w, p, q, root, x);
    }
  }

  lemma TakeKeepsSound(w: World, p: Plan, root: Candidate)
    requires Sound(w, p, root.project.key) && JustifiedEarly(w, p, root) && p.queue != []
    requires Followed(w, p, Resolved(p))
    ensures var q := Taken(w, p);
            && Sound(w, q, root.project.key) && JustifiedEarly(w, q, root)
            && p.queue[0] == Resolved(p) == Resolved(q) - 1 && Followed(w, q, p.queue[0])
  {
    TakeKeepsParents(w, p);
    TakeKeepsListed(w, p);
    TakeKeepsReasons(w, p, root);
    TakeKeepsFollowed(w, p);
  }

  lemma TakeKeepsParents(w: World, p: Plan)
    requires Queued(p) && HasParents(p) && p.queue != []
    ensures HasParents(Taken(w, p))
  {
    var q := Taken(w, p);
    forall c | 0 < c < |q.steps|
      ensures HasParent(q, c)
    {
      assert HasParent(p, c);
      var a :| 0 <= a < c && a < Resolved(p) && NeededBy(p, a, c);
      assert NeededBy(q, a, c);
    }
  }

  lemma TakeKeepsListed(w: World, p: Plan)
    requires Queued(p) && |p.deps| == |p.steps| && p.queue != [] && Incompatibles(p)
    ensures Incompatibles(Taken(w, p))
    ensures forall k, d :: Lists(p, k, d) ==> Lists(Taken(w, p), k, d)
  {
    var q := Taken(w, p);
    assert forall k, d :: Lists(p, k, d) ==> Lists(q, k, d);
  }

  lemma TakeKeepsReasons(w: World, p: Plan, root: Candidate)
    requires Queued(p) && |p.deps| == |p.steps| && p.queue != [] && JustifiedEarly(w, p, root)
    ensures JustifiedEarly(w, Taken(w, p), root)
  {
    var q := Taken(w, p);
    assert forall k, d :: Lists(p, k, d) ==> Lists(q, k, d);
    forall b | b in q.blockers
      ensures Reason(w, q, root, b)
    {
      assert Reason(w, p, root, b);
    }
  }

  lemma TakeKeepsFollowed(w: World, p: Plan)
    requires Queued(p) && |p.deps| == |p.steps| && p.queue != [] && Followed(w, p, Resolved(p))
    ensures Followed(w, Taken(w, p), p.queue[0])
  {
    var q, i := Taken(w, p), p.queue[0];
    if p.blockers == [] {
      forall k | 0 <= k < i
        ensures MetAll(w, q, k)
      {
        assert MetAll(w, p, k);
        assert forall d :: Met(w, p, p.steps[k], d) ==> Met(w, q, q.steps[k], d);
      }
    }
  }

  lemma IncompatKeepsSound(w: World, p: Plan, root: Candidate, i: nat, d: Dep)
    requires Sound(w, p, root.project.key) && JustifiedEarly(w, p, root) && Lists(p, i, d) && d.typ == Incompatible
    ensures var q := p.(incompat := p.incompat + [Incompat(i, d.projectID)]);
            Sound(w, q, root.project.key) && JustifiedEarly(w, q, root) && Grows(p, q)
  {
    var q := p.(incompat := p.incompat + [Incompat(i, d.projectID)]);
    forall c | 0 < c < |q.steps|
      ensures HasParent(q, c)
    {
      assert HasParent(p, c);
      var a :| 0 <= a < c && a < Resolved(p) && NeededBy(p, a, c);
      assert NeededBy(q, a, c);
    }
    forall c | c in q.incompat
      ensures c.step < |q.steps| && exists e :: Lists(q, c.step, e) && e.typ == Incompatible && e.projectID == c.projectID
    {
      if c in p.incompat {
        var e :| Lists(p, c.step, e) && e.typ == Incompatible && e.projectID == c.projectID;
        assert Lists(q, c.step, e);
      } else {
        assert Lists(q, i, d);
      }
    }
    JustifiedGrows(w, p, q, root);
  }

  /** The first `k` dependencies of step `i` are met or listed as incompatible. */
  ghost predicate Handled(w: World, p: Plan, i: nat, k: nat) {
    && i < |p.steps| == |p.deps| && k <= |p.deps[i]|
    && (p.blockers == [] ==> forall j :: 0 <= j < k && p.deps[i][j].typ == Required ==> Met(w, p, p.steps[i], p.deps[i][j]))
    && (forall j :: 0 <= j < k && p.deps[i][j].typ == Incompatible && p.deps[i][j].projectID != "" ==>
          Incompat(i, p.deps[i][j].projectID) in p.incompat)
  }

  lemma HandledGrows(w: World, p: Plan, q: Plan, i: nat, k: nat)
    requires Handled(w, p, i, k) && Grows(p, q) && |q.deps| == |q.steps|
    ensures Handled(w, q, i, k)
  {
    assert q.deps[i] == p.deps[i] && q.steps[i] == p.steps[i];
    if q.blockers == [] {
      if p.blockers != [] { BlockersGrow(p, q); }
      forall j | 0 <= j < k && q.deps[i][j].typ == Required
        ensures Met(w, q, q.steps[i], q.deps[i][j])
      {
        MetGrows(w, p, q, p.steps[i], p.deps[i][j]);
      }
    }
  }

  lemma AllHandled(w: World, p: Plan, i: nat)
    requires Followed(w, p, i) && i < |p.steps| && Handled(w, p, i, |p.deps[i]|)
    ensures Followed(w, p, i + 1)
  {
    assert p.blockers == [] ==> MetAll(w, p, i);
  }

  /** Projects that can still be planned: the worklist's measure, with the queue's length. */
  ghost function Unplanned(w: World, p: Plan, root: Key): set<Key> { w.projects.Keys + {root} - p.planned.Keys }

  lemma MeasureDrops(w: World, p: Plan, q: Plan, root: Key)
    requires Sound(w, p, root) && Sound(w, q, root) && p.steps <= q.steps
    requires forall k :: k in p.planned ==> k in q.planned && q.planned[k] == p.planned[k]
    requires Resolved(q) == Resolved(p) + 1
    ensures |Unplanned(w, q, root)| < |Unplanned(w, p, root)|
            || (|Unplanned(w, q, root)| == |Unplanned(w, p, root)| && |q.queue| < |p.queue|)
  {
    var before, after := Unplanned(w, p, root), Unplanned(w, q, root);
    assert after <= before;
    if |q.steps| == |p.steps| {
      SameKeys(w, p, q, root);
      assert after == before;
    } else {
      var k := q.steps[|p.steps|].key;
      assert k in q.planned && k !in p.planned;
      assert k in before && k !in after;
      SmallerSet(after, before, k);
    }
  }

  lemma SameKeys(w: World, p: Plan, q: Plan, root: Key)
    requires Sound(w, p, root) && Sound(w, q, root) && p.steps == q.steps
    ensures q.planned.Keys <= p.planned.Keys
  {
    forall k | k in q.planned
      ensures k in p.planned
    {
      assert p.steps[q.planned[k]].key == k;
    }
  }

  // ---------- once the queue is empty ----------

  /** Reasons do not depend on what else blocks the plan. */
  lemma SameReason(w: World, p: Plan, q: Plan, root: Candidate, b: Blocker)
    requires q == p.(blockers := q.blockers) && Reason(w, p, root, b)
    ensures Reason(w, q, root, b)
  {
    assert forall i, d :: Lists(p, i, d) <==> Lists(q, i, d);
    assert forall f :: FileDeps(w, p, f) == FileDeps(w, q, f);
    if b.FileConflict? {
      assert forall id :: StepRuns(p, b.step, id) ==> StepRuns(q, b.step, id);
      assert forall f :: FileRefuses(w, p, f, b.step) ==> FileRefuses(w, q, f, b.step);
    }
  }

  lemma JustifiedWith(w: World, p: Plan, root: Candidate, b: Blocker)
    requires Justified(w, p, root) && Reason(w, p, root, b)
    ensures Justified(w, Blocked(p, b), root)
  {
    forall x | x in Blocked(p, b).blockers
      ensures Reason(w, Blocked(p, b), root, x)
    {
      SameReason(w, p, Blocked(p, b), root, x);
    }
  }

  /** Nothing planned or on the server conflicts with the steps' listed incompatibilities. */
  ghost predicate StepsAgree(w: World, p: Plan, n: nat) {
    forall c :: c in p.incompat[..if n <= |p.incompat| then n else |p.incompat|] ==>
      c.step < |p.steps| && NoConflict(w, p, c.step, c.projectID)
  }

  ghost predicate FileAgrees(w: World, p: Plan, f: LocalFile, n: nat) {
    forall j :: 0 <= j < n && j < |FileDeps(w, p, f)| && FileDeps(w, p, f)[j].typ == Incompatible ==>
      Key(Modrinth, FileDeps(w, p, f)[j].projectID) !in p.planned
  }

  ghost predicate FilesAgree(w: World, p: Plan, n: nat) {
    forall k :: 0 <= k < n && k < |w.files| ==> FileAgrees(w, p, w.files[k], |FileDeps(w, p, w.files[k])|)
  }

  /** All that was listed agrees, so nothing conflicts. */
  lemma AgreesIsCompatible(w: World, p: Plan)
    requires Followed(w, p, |p.steps|) && StepsAgree(w, p, |p.incompat|) && FilesAgree(w, p, |w.files|)
    ensures Compatible(w, p)
  {
    forall i, d | 0 <= i < |p.steps| && d in p.deps[i] && d.typ == Incompatible && d.projectID != ""
      ensures NoConflict(w, p, i, d.projectID)
    {
      assert Incompat(i, d.projectID) in p.incompat[..|p.incompat|];
    }
    forall f, d | f in w.files && d in FileDeps(w, p, f) && d.typ == Incompatible
      ensures Key(Modrinth, d.projectID) !in p.planned
    {
      var k :| 0 <= k < |w.files| && w.files[k] == f;
      assert FileAgrees(w, p, w.files[k], |FileDeps(w, p, w.files[k])|);
    }
  }

  /** The files of the first `n` steps can be put into the folder. */
  ghost predicate FilesFit(w: World, p: Plan, n: nat) {
    && n <= |p.steps|
    && (forall i :: 0 <= i < n ==> FileFits(w, p.steps[i]))
    && (forall i, k :: 0 <= i < k < n ==> p.steps[i].fileName != p.steps[k].fileName)
  }

  predicate FileFits(w: World, s: Step) {
    s.goodName && s.goodHash && s.size <= w.maxSize && s.fileName !in w.entries
    && (s.goodHost || s.key.source == Playkeeper)
  }

  lemma FitIsPlaceable(w: World, p: Plan)
    requires FilesFit(w, p, |p.steps|)
    ensures Placeable(w, p)
  {
    assert forall i :: 0 <= i < |p.steps| ==> FileFits(w, p.steps[i]);
  }

  /** What a plan that is ready promises. */
  ghost predicate Installable(w: World, p: Plan, root: Candidate) {
    && p.steps != [] && p.steps[0].key == root.project.key
    && Indexed(p) && HasParents(p) && Honest(w, p, root) && Closed(w, p) && Compatible(w, p) && Placeable(w, p)
    && Provides(w, Some(root.project.key), [root.project.name, root.project.slug]).None?
  }

  lemma NoModrinthPlanned(w: World, p: Plan)
    requires Indexed(p) && forall i :: 0 <= i < |p.steps| ==> p.steps[i].key.source != Modrinth
    ensures forall f, n: nat :: FileAgrees(w, p, f, n)
  {
    forall k | k in p.planned
      ensures k.source != Modrinth
    {
      assert p.steps[p.planned[k]].key == k;
    }
  }

  /** A plan with its first step, or with nothing but a file left to the user. */
  lemma FirstKeepsSound(w: World, p: Plan, c: Candidate)
    requires p == NO_PLAN.(blockers := p.blockers, manual := p.manual)
    requires c.project.key.source == Playkeeper ==> c.deps == []
    ensures Sound(w, p, c.project.key) && Followed(w, p, 0)
    ensures Sound(w, WithStep(p, c, ""), c.project.key) && Followed(w, WithStep(p, c, ""), 0)
  {
  }

  lemma FirstKeepsAll(w: World, p: Plan, c: Candidate)
    requires p == NO_PLAN.(blockers := p.blockers) && JustifiedEarly(w, p, c)
    requires c.project.key.source == Playkeeper ==> c.deps == []
    ensures var q := if c.external then WithManual(p, OnOtherSite("", c.project.name)) else WithStep(p, c, "");
            && Sound(w, q, c.project.key) && JustifiedEarly(w, q, c) && Honest(w, q, c)
            && Followed(w, q, 0) && Resolved(q) == 0
  {
    var q := if c.external then WithManual(p, OnOtherSite("", c.project.name)) else WithStep(p, c, "");
    FirstKeepsSound(w, if c.external then q else p, c);
    FirstIsHonest(w, if c.external then q else p, c);
    JustifiedGrows(w, p, q, c);
  }

  class Resolver {
    const w: World
    ghost const root: Candidate

    var steps: seq<Step>
    var deps: seq<seq<Dep>>
    var planned: map<Key, nat>
    var queue: seq<nat>
    var incompat: seq<Incompat>
    var manual: seq<Manual>
    var blockers: seq<Blocker>

    ghost function P(): Plan
      reads this
    {
      Plan(steps, deps, planned, queue, incompat, manual, blockers)
    }

    ghost predicate Valid()
      reads this
    {
      WellKeyed(w) && Sound(w, P(), root.project.key) && JustifiedEarly(w, P(), root) && Honest(w, P(), root)
    }

    constructor (w: World, root: Candidate)
      ensures this.w == w && this.root == root && P() == NO_PLAN
    {
      this.w, this.root := w, root;
      steps, deps, planned, queue, incompat, manual, blockers := [], [], map[], [], [], [], [];
    }

    method Block(b: Blocker)
      modifies this`blockers
      ensures P() == Blocked(old(P()), b)
    {
      if b !in blockers { blockers := blockers + [b]; }
    }

    method AddManual(m: Manual)
      modifies this`manual
      ensures P() == WithManual(old(P()), m)
    {
      if m !in manual { manual := manual + [m]; }
    }

    /** Puts candidate `c` into the plan for `parent`, or lists it for the user when its file is only
        offered on another site. */
    method Add(c: Candidate, parent: Option<Step>)
      modifies this
      ensures P() == if c.external then WithManual(old(P()), OnOtherSite(if parent.Some? then parent.value.name else "", c.project.name))
                     else WithStep(old(P()), c, if parent.Some? then parent.value.key.id else "")
    {
      if c.external {
        AddManual(OnOtherSite(if parent.Some? then parent.value.name else "", c.project.name));
        return;
      }
      var s := StepOf(c, if parent.Some? then parent.value.key.id else "");
      planned := planned[s.key := |steps|];
      steps := steps + [s];
      deps := deps + [c.deps];
      queue := queue + [|steps| - 1];
    }

    /** Picks the version of dependency `p`: the pinned one when it fits, else the newest release, or
        pre-release when allowed. */
    method Version(p: Project, pinned: string) returns (c: Option<Candidate>)
      ensures c == VersionOf(w, p, pinned)
    {
      if pinned != "" && (p.key, pinned) in w.exact { return Some(w.exact[(p.key, pinned)]); }
      var cands := if p.key in w.versions then w.versions[p.key] else [];
      c := Pick(cands, w.allowPre);
    }

    /** A dependency that names no project: a file the server has, or a step for the user. */
    method RequiredByName(i: nat, d: Dep)
      requires Valid() && Lists(P(), i, d) && d.typ == Required && d.projectID == ""
      modifies this
      ensures Valid() && Grows(old(P()), P()) && Met(w, P(), steps[i], d)
    {
      if NamedFile(w, d.name).Some? { return; }
      if Provides(w, None, [d.name]).Some? { return; }
      assert Nameless(w, P(), i, d, steps[i].name, d.name);
      ManualKeepsAll(w, P(), root, Unlisted(steps[i].name, d.name));
      AddManual(Unlisted(steps[i].name, d.name));
    }

    method BlockEarly(b: Blocker)
      requires Valid() && Early(b) && Reason(w, P(), root, b)
      modifies this
      ensures Valid() && Grows(old(P()), P()) && blockers != []
    {
      ghost var before := P();
      Block(b);
      NoticesKeepSound(w, before, P(), root);
      JustifiedMore(w, before, root, b);
      NoticesKeepHonest(w, before, P(), root);
    }

    /** Plans the version of project `p`, which step `i` requires through `d`. */
    method RequiredProject(i: nat, d: Dep, p: Project)
      requires Valid() && Lists(P(), i, d) && d.typ == Required && d.projectID != ""
      requires Lookup(w, KeyOf(steps[i], d)) == Some(p) && p.key !in planned && p.key.source != Playkeeper
      requires Wanted(w, steps[i], d)
      modifies this
      ensures Valid() && Grows(old(P()), P()) && (Met(w, P(), steps[i], d) || blockers != [])
    {
      var c := Version(p, d.versionID);
      VersionKeyed(w, p, d.versionID);
      VersionIsChosen(w, p, d.versionID);
      if c.None? {
        BlockEarly(NoVersion(steps[i].key, d));
        return;
      }
      VersionKeepsAll(w, P(), root, c.value, i, d);
      Add(c.value, Some(steps[i]));
    }

    /** Handles one required dependency of step `i`. */
    method RequiredDep(i: nat, d: Dep)
      requires Valid() && Lists(P(), i, d) && d.typ == Required
      modifies this
      ensures Valid() && Grows(old(P()), P()) && (Met(w, P(), steps[i], d) || blockers != [])
    {
      if d.projectID == "" {
        RequiredByName(i, d);
        return;
      }
      var s := steps[i];
      var key := KeyOf(s, d);
      if key == s.key || key in planned { return; }
      if s.key.source == Hangar && Provides(w, Some(key), [d.name]).Some? { return; }
      var p := Lookup(w, key);
      if p.None? {
        BlockEarly(NotListed(s.key, d));
        return;
      }
      if s.key.source == Modrinth && p.value.loaders !! w.loaders { return; }
      if Provides(w, Some(key), [p.value.name, p.value.slug, d.name]).Some? { return; }
      if p.value.clientOnly { return; }
      RequiredProject(i, d, p.value);
    }

    /** Follows one dependency of step `i`. */
    method FollowDep(i: nat, d: Dep)
      requires Valid() && Lists(P(), i, d)
      modifies this
      ensures Valid() && Grows(old(P()), P())
      ensures d.typ == Required ==> Met(w, P(), steps[i], d) || blockers != []
      ensures d.typ == Incompatible && d.projectID != "" ==> Incompat(i, d.projectID) in incompat
    {
      match d.typ
      case Required => RequiredDep(i, d);
      case Optional =>
      case Incompatible =>
        if d.projectID != "" {
          IncompatKeepsSound(w, P(), root, i, d);
          ghost var before := P();
          incompat := incompat + [Incompat(i, d.projectID)];
          NoticesKeepHonest(w, before, P(), root);
        }
    }

    /** Follows the dependency after the first `k` of step `i`. */
    method FollowNext(i: nat, k: nat, ghost before: Plan)
      requires Valid() && Resolved(P()) == i + 1 && Handled(w, P(), i, k) && k < |deps[i]| && Grows(before, P())
      modifies this
      ensures Valid() && Handled(w, P(), i, k + 1) && Grows(before, P()) && deps[i] == old(deps[i])
    {
      ghost var prior := P();
      var d := deps[i][k];
      assert Lists(P(), i, d);
      FollowDep(i, d);
      HandledGrows(w, prior, P(), i, k);
      GrowsTogether(before, prior, P());
      assert deps[i] == prior.deps[i];
    }

    /** Follows the dependencies of step `i`, just taken off the queue. */
    method ResolveDeps(i: nat)
      requires Valid() && Resolved(P()) == i + 1 && Followed(w, P(), i)
      modifies this
      ensures Valid() && Grows(old(P()), P()) && Followed(w, P(), i + 1)
    {
      ghost var before := P();
      var k := 0;
      var n := |deps[i]|;
      while k < n
        invariant 0 <= k <= n && Handled(w, P(), i, k) && n == |deps[i]|
        invariant Valid()
        invariant Grows(before, P())
      {
        FollowNext(i, k, before);
        k := k + 1;
      }
      FollowedGrows(w, before, P(), i);
      AllHandled(w, P(), i);
    }

    /** Takes the next step off the queue. */
    method Take() returns (i: nat)
      requires Queued(P()) && |deps| == |steps| && queue != []
      modifies this`queue, this`deps
      ensures P() == Taken(w, old(P())) && i == old(queue)[0]
    {
      i := queue[0];
      queue := queue[1..];
      deps := deps[i := WithProjects(w, steps[i], deps[i])];
    }

    /** Follows the dependencies of every step. */
    method Resolve()
      requires Valid() && Followed(w, P(), Resolved(P()))
      modifies this
      ensures Valid() && queue == [] && Followed(w, P(), |steps|)
      ensures old(P()).steps <= steps && (forall b :: b in old(blockers) ==> b in blockers)
      ensures old(queue) == [] ==> P() == old(P())
    {
      while queue != []
        invariant Valid() && Followed(w, P(), Resolved(P()))
        invariant old(P()).steps <= steps && (forall b :: b in old(blockers) ==> b in blockers)
        invariant old(queue) == [] ==> P() == old(P())
        decreases |Unplanned(w, P(), root.project.key)|, |queue|
      {
        ghost var before := P();
        TakeKeepsSound(w, before, root);
        TakeKeepsHonest(w, before, root);
        var i := Take();
        ResolveDeps(i);
        MeasureDrops(w, before, P(), root.project.key);
      }
    }

    /** Only the blockers have changed since `before`, and each has its reason. */
    ghost predicate Blocking(before: Plan)
      reads this
    {
      && P() == before.(blockers := blockers)
      && (forall b :: b in before.blockers ==> b in blockers)
      && Justified(w, P(), root)
    }

    method BlockFor(b: Blocker, ghost before: Plan)
      requires Blocking(before) && Reason(w, P(), root, b)
      modifies this`blockers
      ensures Blocking(before) && blockers != []
    {
      JustifiedWith(w, P(), root, b);
      Block(b);
    }

    /** Looks for what the version of a step says it cannot run with. */
    method CheckIncompat(c: Incompat, ghost before: Plan)
      requires Blocking(before) && Incompatibles(P()) && Indexed(P()) && queue == [] && c in incompat
      modifies this`blockers
      ensures Blocking(before)
      ensures old(blockers) != [] ==> blockers != []
      ensures blockers == [] ==> NoConflict(w, P(), c.step, c.projectID)
    {
      var s := steps[c.step];
      var key := Key(s.key.source, c.projectID);
      assert StepRuns(P(), s.key, c.projectID) by {
        var d :| Lists(P(), c.step, d) && d.typ == Incompatible && d.projectID == c.projectID;
      }
      if key in planned {
        BlockFor(StepsConflict(s.key, key), before);
        return;
      }
      var f := Provides(w, Some(key), ConflictNames(w, key));
      if f.Some? {
        BlockFor(FileConflict(s.key, f.value.name), before);
      }
    }

    /** Looks for what a file on the server says it cannot run with. */
    method CheckFile(f: LocalFile, ghost before: Plan)
      requires Blocking(before) && f in w.files
      modifies this`blockers
      ensures Blocking(before)
      ensures old(blockers) != [] ==> blockers != []
      ensures blockers == [] ==> FileAgrees(w, P(), f, |FileDeps(w, P(), f)|)
    {
      var ds := FileDeps(w, Plan(steps, deps, planned, queue, incompat, manual, blockers), f);
      for j := 0 to |ds|
        invariant Blocking(before) && ds == FileDeps(w, P(), f)
        invariant old(blockers) != [] ==> blockers != []
        invariant blockers == [] ==> FileAgrees(w, P(), f, j)
      {
        var key := Key(Modrinth, ds[j].projectID);
        if ds[j].typ == Incompatible && key in planned {
          assert FileRefuses(w, P(), f, key);
          BlockFor(FileConflict(key, f.name), before);
        }
      }
    }

    method CheckSteps(ghost before: Plan)
      requires Blocking(before) && Incompatibles(P()) && Indexed(P()) && queue == []
      modifies this`blockers
      ensures Blocking(before)
      ensures blockers == [] ==> StepsAgree(w, P(), |incompat|)
    {
      for i := 0 to |incompat|
        invariant Blocking(before)
        invariant blockers == [] ==> StepsAgree(w, P(), i)
      {
        ghost var prior := P();
        CheckIncompat(incompat[i], before);
        if blockers == [] {
          assert P() == prior;
          assert forall c :: c in incompat[..i + 1] <==> c in incompat[..i] || c == incompat[i];
        }
      }
    }

    method HasModrinth() returns (has: bool)
      ensures has <==> exists k :: 0 <= k < |steps| && steps[k].key.source == Modrinth
    {
      has := false;
      for i := 0 to |steps|
        invariant has <==> exists k :: 0 <= k < i && steps[k].key.source == Modrinth
      {
        has := has || steps[i].key.source == Modrinth;
      }
    }

    method CheckFiles(ghost before: Plan)
      requires Blocking(before)
      modifies this`blockers
      ensures Blocking(before)
      ensures old(blockers) != [] ==> blockers != []
      ensures blockers == [] ==> FilesAgree(w, P(), |w.files|)
    {
      for i := 0 to |w.files|
        invariant Blocking(before)
        invariant old(blockers) != [] ==> blockers != []
        invariant blockers == [] ==> FilesAgree(w, P(), i)
      {
        ghost var prior := P();
        CheckFile(w.files[i], before);
        if blockers == [] { assert P() == prior; }
      }
    }

    /** Checks incompatible dependencies both ways. */
    method Conflicts()
      requires Valid() && queue == []
      modifies this`blockers
      ensures Blocking(old(P()))
      ensures blockers == [] ==> StepsAgree(w, P(), |incompat|) && FilesAgree(w, P(), |w.files|)
    {
      ghost var before := P();
      CheckSteps(before);
      var has := HasModrinth();
      if !has {
        NoModrinthPlanned(w, P());
        return;
      }
      ghost var prior := P();
      CheckFiles(before);
      if blockers == [] { assert P() == prior; }
    }

    /** Checks the file of step `i` against the folder and the files of the steps before it. */
    method CheckFileOf(i: nat, seen: set<string>, ghost before: Plan)
      requires Blocking(before) && i < |steps|
      requires forall n :: n in seen <==> exists k :: 0 <= k < i && steps[k].fileName == n
      modifies this`blockers
      ensures Blocking(before)
      ensures old(blockers) != [] ==> blockers != []
      ensures blockers == [] ==> FileFits(w, steps[i]) && steps[i].fileName !in seen
    {
      var s := steps[i];
      if !s.goodName { BlockFile(i, BadName(s.key), before); }
      else if !s.goodHash { BlockFile(i, NoHash(s.key), before); }
      else if s.size > w.maxSize { BlockFile(i, TooLarge(s.key), before); }
      else if s.fileName in seen { BlockFor(SameFileName(s.key), before); }
      else if s.fileName in w.entries { BlockFile(i, FileExists(s.key), before); }
      if !s.goodHost && s.key.source != Playkeeper { BlockFile(i, BadHost(s.key), before); }
    }

    method BlockFile(i: nat, b: Blocker, ghost before: Plan)
      requires Blocking(before) && i < |steps| && FileBad(w, steps[i], b)
      modifies this`blockers
      ensures Blocking(before) && blockers != []
    {
      assert steps[i] in P().steps;
      BlockFor(b, before);
    }

    /** Checks the steps' files and says whether the plan is ready. */
    method Finish(ghost before: Plan) returns (ready: bool)
      requires Blocking(before)
      modifies this`blockers
      ensures Blocking(before)
      ensures old(blockers) != [] ==> blockers != []
      ensures ready <==> blockers == [] && steps != []
      ensures blockers == [] ==> FilesFit(w, P(), |steps|)
    {
      var seen := {};
      for i := 0 to |steps|
        invariant Blocking(before)
        invariant old(blockers) != [] ==> blockers != []
        invariant forall n :: n in seen <==> exists k :: 0 <= k < i && steps[k].fileName == n
        invariant blockers == [] ==> FilesFit(w, P(), i)
      {
        CheckFileOf(i, seen, before);
        seen := seen + {steps[i].fileName};
      }
      ready := blockers == [] && steps != [];
    }

    /** Starts a plan with the version the user asked for; one that is on the server already blocks it. */
    method Start(c: Candidate)
      requires P() == NO_PLAN && WellKeyed(w) && c == root
      requires c.project.key.source == Playkeeper ==> c.deps == []
      modifies this
      ensures Valid() && Followed(w, P(), Resolved(P()))
      ensures blockers == [] ==> Provides(w, Some(root.project.key), [root.project.name, root.project.slug]).None?
      ensures if c.external then steps == [] && queue == [] && manual == [OnOtherSite("", c.project.name)]
              else steps == [StepOf(c, "")]
    {
      var f := Provides(w, Some(c.project.key), [c.project.name, c.project.slug]);
      if f.Some? { Block(Duplicate(c.project.name, f.value.name)); }
      FirstKeepsAll(w, P(), c);
      Add(c, None);
    }

    /** Looks for conflicts and checks the files, once every dependency is followed. */
    method Seal() returns (ready: bool)
      requires Valid() && queue == [] && Followed(w, P(), |steps|)
      modifies this`blockers
      ensures Blocking(old(P())) && Honest(w, P(), root)
      ensures ready <==> blockers == [] && steps != []
      ensures ready ==> P() == old(P()) && Closed(w, P()) && Compatible(w, P()) && Placeable(w, P())
    {
      ghost var done := P();
      Conflicts();
      ghost var agreed := P();
      ready := Finish(done);
      NoticesKeepHonest(w, done, P(), root);
      assert done.blockers != [] ==> done.blockers[0] in blockers;
      if ready {
        assert P() == agreed && agreed == done;
        AgreesIsCompatible(w, P());
        FitIsPlaceable(w, P());
      }
    }

    /** Plans the chosen version of an add-on on an empty plan. A ready plan is closed, conflict-free and
        can be put into the folder; a plan that isn't ready has a reason, or leaves everything to the
        user. */
    method PlanInstall(c: Candidate) returns (ready: bool)
      requires P() == NO_PLAN && WellKeyed(w) && c == root
      requires c.project.key.source == Playkeeper ==> c.deps == []
      modifies this
      ensures Justified(w, P(), root) && Honest(w, P(), root)
      ensures ready ==> Installable(w, P(), root)
      ensures !ready ==> blockers != [] || (c.external && manual == [OnOtherSite("", c.project.name)])
    {
      Start(c);
      ghost var started := P();
      Resolve();
      ghost var done := P();
      ready := Seal();
      assert started.blockers != [] ==> started.blockers[0] in done.blockers;
      assert done.blockers != [] ==> done.blockers[0] in blockers;
    }
  }
}
