/** Working out an install: a worklist follows the dependencies of every step until none is left. */
module AddonPlan {
  import opened Options
  import opened AddonCatalogue

  /** A file the plan downloads; `dependencyOf` is the id of the add-on it is needed for, or "". */
  datatype Step = Step(
    key: Key, name: string, slug: string, versionID: string,
    fileName: string, goodName: bool, goodHash: bool, goodHost: bool, size: nat, dependencyOf: string)

  /** What the user has to do by hand. */
  datatype Manual =
    | OnOtherSite(parent: string, name: string)
    | Unlisted(parent: string, name: string)

  datatype Blocker =
    | Duplicate(name: string, file: string)
    | NotListed(parent: Key, dep: Dep)
    | NoVersion(parent: Key, dep: Dep)
    | StepsConflict(step: Key, other: Key)
    | FileConflict(step: Key, file: string)
    | BadName(step: Key)
    | NoHash(step: Key)
    | TooLarge(step: Key)
    | SameFileName(step: Key)
    | FileExists(step: Key)
    | BadHost(step: Key)

  datatype Incompat = Incompat(step: nat, projectID: string)

  /** The plan so far. */
  datatype Plan = Plan(
    steps: seq<Step>, deps: seq<seq<Dep>>, planned: map<Key, nat>, queue: seq<nat>,
    incompat: seq<Incompat>, manual: seq<Manual>, blockers: seq<Blocker>)

  function KeyOf(s: Step, d: Dep): Key { Key(s.key.source, d.projectID) }

  /** A dependency that named only a version gets that version's project. */
  function WithProject(w: World, d: Dep): Dep {
    if d.projectID == "" && w.validRef(d.versionID) && d.versionID in w.versionProjects
    then d.(projectID := w.versionProjects[d.versionID]) else d
  }

  function WithProjects(w: World, s: Step, ds: seq<Dep>): seq<Dep> {
    if s.key.source == Modrinth then seq(|ds|, i requires 0 <= i < |ds| => WithProject(w, ds[i])) else ds
  }

  // ---------- what a finished plan promises ----------

  /** The names a dependency's project goes by. */
  function DepNames(w: World, s: Step, d: Dep): seq<string> {
    var p := Lookup(w, KeyOf(s, d));
    if p.Some? then [p.value.name, p.value.slug, d.name] else [d.name]
  }

  /** The version to install is only offered on another site. */
  predicate OnlyElsewhere(w: World, q: Project, d: Dep) {
    var c := VersionOf(w, q, d.versionID);
    c.Some? && c.value.external
  }

  /** A required dependency is met: it is another step, a file on the server or a step for the user,
      or is skipped because it is the add-on itself, for another loader, or only for the game client. */
  ghost predicate Met(w: World, p: Plan, s: Step, d: Dep) {
    if d.projectID == "" then
      || NamedFile(w, d.name).Some?
      || Provides(w, None, [d.name]).Some?
      || Unlisted(s.name, d.name) in p.manual
    else
      || KeyOf(s, d) == s.key
      || KeyOf(s, d) in p.planned
      || Provides(w, Some(KeyOf(s, d)), DepNames(w, s, d)).Some?
      || (s.key.source == Hangar && Provides(w, Some(KeyOf(s, d)), [d.name]).Some?)
      || var q := Lookup(w, KeyOf(s, d));
         q.Some? && (
           || (s.key.source == Modrinth && q.value.loaders !! w.loaders)
           || q.value.clientOnly
           || (OnlyElsewhere(w, q.value, d) && OnOtherSite(s.name, q.value.name) in p.manual))
  }

  ghost predicate MetAll(w: World, p: Plan, i: nat)
    requires |p.deps| == |p.steps| && i < |p.steps|
  {
    forall d :: d in p.deps[i] && d.typ == Required ==> Met(w, p, p.steps[i], d)
  }

  /** Every step's required dependencies are met. */
  ghost predicate Closed(w: World, p: Plan) {
    |p.deps| == |p.steps| && forall i :: 0 <= i < |p.steps| ==> MetAll(w, p, i)
  }

  function ConflictNames(w: World, k: Key): seq<string> {
    var p := Lookup(w, k);
    if p.Some? then [p.value.name, p.value.slug] else []
  }

  /** Nothing planned, nor any file on the server, is the project step `i` can't run with. */
  ghost predicate NoConflict(w: World, p: Plan, i: nat, id: string)
    requires i < |p.steps|
  {
    var k := Key(p.steps[i].key.source, id);
    k !in p.planned && Provides(w, Some(k), ConflictNames(w, k)).None?
  }

  /** The Modrinth dependencies of a file on the server that no step replaces. */
  function FileDeps(w: World, p: Plan, f: LocalFile): seq<Dep> {
    if f.rec.Some? then
      var r := f.rec.value;
      if r.key.source == Modrinth && w.validRef(r.versionID) && r.key !in p.planned && r.versionID in w.versionDeps
      then w.versionDeps[r.versionID] else []
    else if f.ident.Some? then f.ident.value.deps else []
  }

  ghost predicate Compatible(w: World, p: Plan) {
    && |p.deps| == |p.steps|
    && (forall i, d :: 0 <= i < |p.steps| && d in p.deps[i] && d.typ == Incompatible && d.projectID != "" ==>
          NoConflict(w, p, i, d.projectID))
    && (forall f, d :: f in w.files && d in FileDeps(w, p, f) && d.typ == Incompatible ==>
          Key(Modrinth, d.projectID) !in p.planned)
  }

  /** The steps' files can be checked and put into the folder without touching another file. */
  ghost predicate Placeable(w: World, p: Plan) {
    && (forall i :: 0 <= i < |p.steps| ==>
          var s := p.steps[i];
          s.goodName && s.goodHash && s.size <= w.maxSize && s.fileName !in w.entries
          && (s.goodHost || s.key.source == Playkeeper))
    && (forall i, k :: 0 <= i < k < |p.steps| ==> p.steps[i].fileName != p.steps[k].fileName)
  }

  // ---------- what holds throughout ----------

  /** The key of every step finds that step, and no other. */
  ghost predicate Indexed(p: Plan) {
    && |p.deps| == |p.steps|
    && (forall k :: k in p.planned ==> p.planned[k] < |p.steps| && p.steps[p.planned[k]].key == k)
    && (forall i :: 0 <= i < |p.steps| ==> p.steps[i].key in p.planned && p.planned[p.steps[i].key] == i)
  }

  /** Step `c` is there because an earlier step of the same source, `a`, requires it. */
  ghost predicate NeededBy(p: Plan, a: nat, c: nat)
    requires a < |p.steps| == |p.deps| && c < |p.steps|
  {
    && p.steps[a].key.source == p.steps[c].key.source
    && p.steps[c].dependencyOf == p.steps[a].key.id
    && exists d :: d in p.deps[a] && d.typ == Required && KeyOf(p.steps[a], d) == p.steps[c].key
  }

  /** The steps still in the queue are the last ones, in order; the others' dependencies are resolved. */
  ghost predicate Queued(p: Plan) {
    |p.queue| <= |p.steps| && forall k :: 0 <= k < |p.queue| ==> p.queue[k] == |p.steps| - |p.queue| + k
  }

  function Resolved(p: Plan): int { |p.steps| - |p.queue| }

  ghost predicate HasParent(p: Plan, c: nat)
    requires c < |p.steps| == |p.deps|
  {
    exists a :: 0 <= a < c && a < Resolved(p) && NeededBy(p, a, c)
  }

  ghost predicate HasParents(p: Plan) {
    && |p.deps| == |p.steps|
    && (forall c :: 0 < c < |p.steps| ==> HasParent(p, c))
  }

  ghost predicate Known(w: World, p: Plan, root: Key) {
    && p.planned.Keys <= w.projects.Keys + {root}
    && (forall i :: 0 <= i < |p.steps| && i < |p.deps| && p.steps[i].key.source == Playkeeper ==> p.deps[i] == [])
  }

  /** Dependency `d` of resolved step `i`. */
  ghost predicate Lists(p: Plan, i: nat, d: Dep) {
    i < |p.steps| && i < |p.deps| && i < Resolved(p) && d in p.deps[i]
  }

  ghost predicate Incompatibles(p: Plan) {
    forall c :: c in p.incompat ==>
      c.step < |p.steps| && exists d :: Lists(p, c.step, d) && d.typ == Incompatible && d.projectID == c.projectID
  }

  ghost predicate Sound(w: World, p: Plan, root: Key) {
    Indexed(p) && Queued(p) && HasParents(p) && Known(w, p, root) && Incompatibles(p)
  }

  /** What the first `n` steps need is met or blocks the plan, and is listed when it is incompatible. */
  ghost predicate Followed(w: World, p: Plan, n: nat) {
    && n <= |p.steps| == |p.deps|
    && (p.blockers == [] ==> forall i :: 0 <= i < n ==> MetAll(w, p, i))
    && (forall i, d :: 0 <= i < n && d in p.deps[i] && d.typ == Incompatible && d.projectID != "" ==>
          Incompat(i, d.projectID) in p.incompat)
  }

  /** `q` is `p` with more steps and notices; what `p` has, `q` has. */
  ghost predicate Grows(p: Plan, q: Plan) {
    && p.steps <= q.steps && p.deps <= q.deps
    && (forall k :: k in p.planned ==> k in q.planned && q.planned[k] == p.planned[k])
    && (forall m :: m in p.manual ==> m in q.manual)
    && (forall b :: b in p.blockers ==> b in q.blockers)
    && (forall c :: c in p.incompat ==> c in q.incompat)
    && Resolved(q) == Resolved(p)
  }

  lemma GrowsTogether(p: Plan, q: Plan, r: Plan)
    requires Grows(p, q) && Grows(q, r)
    ensures Grows(p, r)
  {
  }

  // ---------- how the plan changes ----------

  function Blocked(p: Plan, b: Blocker): Plan {
    if b in p.blockers then p else p.(blockers := p.blockers + [b])
  }

  function WithManual(p: Plan, m: Manual): Plan {
    if m in p.manual then p else p.(manual := p.manual + [m])
  }

  function StepOf(c: Candidate, dependencyOf: string): Step {
    Step(c.project.key, c.project.name, c.project.slug, c.versionID,
         c.fileName, c.goodName, c.goodHash, c.goodHost, c.size, dependencyOf)
  }

  function WithStep(p: Plan, c: Candidate, dependencyOf: string): Plan {
    p.(planned := p.planned[c.project.key := |p.steps|], steps := p.steps + [StepOf(c, dependencyOf)],
       deps := p.deps + [c.deps], queue := p.queue + [|p.steps|])
  }

  const NO_PLAN := Plan([], [], map[], [], [], [], [])

  /** Takes the first step off the queue, its dependencies named by project. */
  function Taken(w: World, p: Plan): Plan
    requires Queued(p) && p.queue != [] && |p.deps| == |p.steps|
  {
    var i := p.queue[0];
    p.(queue := p.queue[1..], deps := p.deps[i := WithProjects(w, p.steps[i], p.deps[i])])
  }

  // ---------- why a plan is blocked ----------

  /** Some required dependency of a step with key `k`, `d`, has no version to install, or no project. */
  ghost predicate Lacks(w: World, p: Plan, k: Key, d: Dep, listed: bool) {
    exists i :: 0 <= i < |p.steps| && Lists(p, i, d) && p.steps[i].key == k && d.typ == Required && d.projectID != ""
                && var q := Lookup(w, KeyOf(p.steps[i], d));
                   if listed then q.Some? && VersionOf(w, q.value, d.versionID).None? else q.None?
  }

  ghost predicate StepRuns(p: Plan, k: Key, id: string) {
    exists i, d :: 0 <= i < |p.steps| && Lists(p, i, d) && p.steps[i].key == k && d.typ == Incompatible && d.projectID == id
  }

  ghost predicate FileRefuses(w: World, p: Plan, f: LocalFile, k: Key) {
    k in p.planned && k.source == Modrinth && exists d :: d in FileDeps(w, p, f) && d.typ == Incompatible && d.projectID == k.id
  }

  /** What a blocker says about the file of step `s`. */
  predicate FileBad(w: World, s: Step, b: Blocker) {
    match b
    case BadName(k) => s.key == k && !s.goodName
    case NoHash(k) => s.key == k && !s.goodHash
    case TooLarge(k) => s.key == k && s.size > w.maxSize
    case FileExists(k) => s.key == k && s.fileName in w.entries
    case BadHost(k) => s.key == k && !s.goodHost && k.source != Playkeeper
    case _ => false
  }

  /** The plan has the reason a blocker gives. */
  ghost predicate Reason(w: World, p: Plan, root: Candidate, b: Blocker) {
    match b
    case Duplicate(_, file) =>
      var f := Provides(w, Some(root.project.key), [root.project.name, root.project.slug]);
      f.Some? && f.value.name == file
    case NotListed(k, d) => Lacks(w, p, k, d, false)
    case NoVersion(k, d) => Lacks(w, p, k, d, true)
    case StepsConflict(k, other) => StepRuns(p, k, other.id) && other.source == k.source && other in p.planned
    case FileConflict(k, file) =>
      exists f :: f in w.files && f.name == file
        && (FileRefuses(w, p, f, k)
            || exists id :: StepRuns(p, k, id)
                 && Provides(w, Some(Key(k.source, id)), ConflictNames(w, Key(k.source, id))) == Some(f))
    case SameFileName(k) => exists i, j :: 0 <= j < i < |p.steps| && p.steps[i].key == k && p.steps[i].fileName == p.steps[j].fileName
    case _ => exists s :: s in p.steps && FileBad(w, s, b)
  }

  /** Nothing blocks the plan without its reason. */
  ghost predicate Justified(w: World, p: Plan, root: Candidate) {
    forall b :: b in p.blockers ==> Reason(w, p, root, b)
  }

  /** The blockers a plan can have before its files and conflicts are looked at. */
  predicate Early(b: Blocker) { b.Duplicate? || b.NotListed? || b.NoVersion? }

  ghost predicate JustifiedEarly(w: World, p: Plan, root: Candidate) {
    forall b :: b in p.blockers ==> Early(b) && Reason(w, p, root, b)
  }

  lemma ReasonGrows(w: World, p: Plan, q: Plan, root: Candidate, b: Blocker)
    requires Grows(p, q) && |q.deps| == |q.steps| && |p.deps| == |p.steps| && Early(b) && Reason(w, p, root, b)
    ensures Reason(w, q, root, b)
  {
    if b.NotListed? || b.NoVersion? {
      var listed := b.NoVersion?;
      var i :| 0 <= i < |p.steps| && Lists(p, i, b.dep) && p.steps[i].key == b.parent && b.dep.typ == Required
               && b.dep.projectID != ""
               && var l := Lookup(w, KeyOf(p.steps[i], b.dep));
                  if listed then l.Some? && VersionOf(w, l.value, b.dep.versionID).None? else l.None?;
      assert Lists(q, i, b.dep) && q.steps[i] == p.steps[i];
    }
  }

  lemma MetGrows(w: World, p: Plan, q: Plan, s: Step, d: Dep)
    requires Grows(p, q) && Met(w, p, s, d)
    ensures Met(w, q, s, d)
  {
  }

  lemma BlockersGrow(p: Plan, q: Plan)
    requires Grows(p, q) && p.blockers != []
    ensures q.blockers != []
  {
    assert p.blockers[0] in q.blockers;
  }

  lemma FollowedGrows(w: World, p: Plan, q: Plan, n: nat)
    requires Grows(p, q) && Followed(w, p, n) && |q.deps| == |q.steps|
    ensures Followed(w, q, n)
  {
    if q.blockers == [] {
      if p.blockers != [] { BlockersGrow(p, q); }
      forall i | 0 <= i < n
        ensures MetAll(w, q, i)
      {
        assert MetAll(w, p, i) && q.deps[i] == p.deps[i];
        forall d | d in q.deps[i] && d.typ == Required
          ensures Met(w, q, q.steps[i], d)
        {
          MetGrows(w, p, q, p.steps[i], d);
        }
      }
    }
  }
}
