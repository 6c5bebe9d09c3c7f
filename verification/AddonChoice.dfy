/** That a plan is about the catalogue's versions: every step has the file and the dependencies of a version
    chosen for it, and is there because it is needed; so is what is left to the user. */
module AddonChoice {
  import opened Options
  import opened AddonCatalogue
  import opened AddonPlan

  /** The first release of `cands`, newest first, or with no release the first one, where that is allowed. */
  ghost predicate Newest(cands: seq<Candidate>, allowPre: bool, c: Candidate) {
    exists i :: 0 <= i < |cands| && cands[i] == c
      && (if c.release then forall k :: 0 <= k < i ==> !cands[k].release
          else i == 0 && allowPre && forall k :: 0 <= k < |cands| ==> !cands[k].release)
  }

  /** The version of project `k` that a dependency asking for `pinned` gets: that one when it fits the server,
      else the newest. */
  ghost predicate Chosen(w: World, k: Key, pinned: string, c: Candidate) {
    if pinned != "" && (k, pinned) in w.exact then c == w.exact[(k, pinned)]
    else k in w.versions && Newest(w.versions[k], w.allowPre, c)
  }

  lemma VersionIsChosen(w: World, p: Project, pinned: string)
    ensures var c := VersionOf(w, p, pinned);
            if c.Some? then Chosen(w, p.key, pinned, c.value) else forall o :: !Chosen(w, p.key, pinned, o)
  {
    if p.key in w.versions { PickedIsNewest(w.versions[p.key], w.allowPre); FirstRelease(w.versions[p.key]); }
  }

  /** The step is for the file that version `c` offers. */
  predicate Offers(c: Candidate, s: Step) {
    && !c.external && s.key == c.project.key && s.name == c.project.name && s.slug == c.project.slug
    && s.versionID == c.versionID && s.fileName == c.fileName && s.size == c.size
    && s.goodName == c.goodName && s.goodHash == c.goodHash && s.goodHost == c.goodHost
  }

  /** `d` is the dependency that a version lists as `listed`. Once a Modrinth step's dependencies are looked
      at, one that names only a version has that version's project. */
  predicate SameDep(w: World, d: Dep, listed: Dep, looked: bool) {
    && d.typ == listed.typ && d.versionID == listed.versionID && d.name == listed.name
    && (if looked && listed.projectID == "" && w.validRef(listed.versionID) && listed.versionID in w.versionProjects
        then d.projectID == w.versionProjects[listed.versionID] else d.projectID == listed.projectID)
  }

  /** The plan follows the dependencies of version `c` for step `i`, one for one. */
  predicate DepsOf(w: World, p: Plan, i: nat, c: Candidate)
    requires i < |p.steps| == |p.deps|
  {
    && |p.deps[i]| == |c.deps|
    && forall k :: 0 <= k < |c.deps| ==>
         SameDep(w, p.deps[i][k], c.deps[k], i < Resolved(p) && p.steps[i].key.source == Modrinth)
  }

  /** What step `s` needs through `d` is a project for this kind of server, and the server has no file for
      it. */
  predicate Wanted(w: World, s: Step, d: Dep) {
    var q := Lookup(w, KeyOf(s, d));
    && q.Some? && !q.value.clientOnly
    && (s.key.source == Modrinth ==> !(q.value.loaders !! w.loaders))
    && (s.key.source == Hangar ==> Provides(w, Some(KeyOf(s, d)), [d.name]).None?)
    && Provides(w, Some(KeyOf(s, d)), [q.value.name, q.value.slug, d.name]).None?
  }

  /** Resolved step `a` needs version `c` through `d`. */
  ghost predicate Needs(w: World, p: Plan, a: nat, d: Dep, c: Candidate) {
    && Lists(p, a, d) && d.typ == Required && d.projectID != ""
    && Wanted(w, p.steps[a], d) && Chosen(w, KeyOf(p.steps[a], d), d.versionID, c)
  }

  /** Step `i` is for version `c`: the one asked for, or one that an earlier step needs. */
  ghost predicate StandsFor(w: World, p: Plan, root: Candidate, i: nat, c: Candidate)
    requires i < |p.steps| == |p.deps|
  {
    && Offers(c, p.steps[i]) && DepsOf(w, p, i, c)
    && (if i == 0 then c == root && p.steps[0].dependencyOf == ""
        else exists a: nat, d :: NeededFor(w, p, i, a, d, c))
  }

  /** Step `i` is there because step `a`, an earlier one, needs version `c` through `d`. */
  ghost predicate NeededFor(w: World, p: Plan, i: nat, a: nat, d: Dep, c: Candidate)
    requires i < |p.steps|
  {
    a < i && Needs(w, p, a, d, c) && KeyOf(p.steps[a], d) == p.steps[i].key && p.steps[i].dependencyOf == p.steps[a].key.id
  }

  ghost predicate Genuine(w: World, p: Plan, root: Candidate) {
    |p.deps| == |p.steps| && forall i :: 0 <= i < |p.steps| ==> ForSome(w, p, root, i)
  }

  ghost predicate ForSome(w: World, p: Plan, root: Candidate, i: nat)
    requires i < |p.steps| == |p.deps|
  {
    exists c :: StandsFor(w, p, root, i, c)
  }

  /** Why something is left to the user: the version asked for or needed is only offered elsewhere, or a
      dependency names no project and the server has no such file. */
  ghost predicate ByHand(w: World, p: Plan, root: Candidate, m: Manual) {
    match m
    case OnOtherSite(parent, name) =>
      || (parent == "" && root.external && name == root.project.name)
      || exists a: nat, d, c :: Elsewhere(w, p, a, d, c, parent, name)
    case Unlisted(parent, name) => exists a: nat, d :: Nameless(w, p, a, d, parent, name)
  }

  ghost predicate Elsewhere(w: World, p: Plan, a: nat, d: Dep, c: Candidate, parent: string, name: string) {
    Needs(w, p, a, d, c) && p.steps[a].name == parent && c.external && c.project.name == name
  }

  ghost predicate Nameless(w: World, p: Plan, a: nat, d: Dep, parent: string, name: string) {
    && Lists(p, a, d) && d.typ == Required && d.projectID == "" && d.name == name && p.steps[a].name == parent
    && NamedFile(w, name).None? && Provides(w, None, [name]).None?
  }

  ghost predicate Honest(w: World, p: Plan, root: Candidate) {
    Genuine(w, p, root) && forall m :: m in p.manual ==> ByHand(w, p, root, m)
  }

  // ---------- kept by every change of the plan ----------

  lemma NeedsGrows(w: World, p: Plan, q: Plan, a: nat, d: Dep, c: Candidate)
    requires Grows(p, q) && Needs(w, p, a, d, c)
    ensures Needs(w, q, a, d, c) && q.steps[a] == p.steps[a]
  {
  }

  lemma StandsGrows(w: World, p: Plan, q: Plan, root: Candidate, i: nat, c: Candidate)
    requires Grows(p, q) && i < |p.steps| == |p.deps| && |q.steps| == |q.deps| && StandsFor(w, p, root, i, c)
    ensures StandsFor(w, q, root, i, c)
  {
    if i > 0 {
      var a: nat, d :| NeededFor(w, p, i, a, d, c);
      NeedsGrows(w, p, q, a, d, c);
      assert NeededFor(w, q, i, a, d, c);
    }
  }

  lemma ByHandGrows(w: World, p: Plan, q: Plan, root: Candidate, m: Manual)
    requires Grows(p, q) && ByHand(w, p, root, m)
    ensures ByHand(w, q, root, m)
  {
    match m
    case OnOtherSite(parent, name) =>
      if !(parent == "" && root.external && name == root.project.name) {
        var a: nat, d, c :| Elsewhere(w, p, a, d, c, parent, name);
        NeedsGrows(w, p, q, a, d, c);
        assert Elsewhere(w, q, a, d, c, parent, name);
      }
    case Unlisted(parent, name) =>
      var a: nat, d :| Nameless(w, p, a, d, parent, name);
      assert Nameless(w, q, a, d, parent, name);
  }

  /** With no more steps, and for each thing more left to the user its reason. */
  lemma NoticesKeepHonest(w: World, p: Plan, q: Plan, root: Candidate)
    requires Honest(w, p, root) && Grows(p, q) && q.steps == p.steps && |q.deps| == |q.steps|
    requires forall m :: m in q.manual ==> ByHand(w, p, root, m)
    ensures Honest(w, q, root)
  {
    forall i | 0 <= i < |q.steps|
      ensures ForSome(w, q, root, i)
    {
      assert ForSome(w, p, root, i);
      var c :| StandsFor(w, p, root, i, c);
      StandsGrows(w, p, q, root, i, c);
    }
    forall m | m in q.manual
      ensures ByHand(w, q, root, m)
    {
      ByHandGrows(w, p, q, root, m);
    }
  }

  lemma ManualKeepsHonest(w: World, p: Plan, root: Candidate, m: Manual)
    requires Honest(w, p, root) && ByHand(w, p, root, m)
    ensures Honest(w, WithManual(p, m), root)
  {
    NoticesKeepHonest(w, p, WithManual(p, m), root);
  }

  lemma StepKeepsHonest(w: World, p: Plan, root: Candidate, c: Candidate, a: nat, d: Dep)
    requires Honest(w, p, root) && Needs(w, p, a, d, c) && !c.external && p.steps != []
    requires KeyOf(p.steps[a], d) == c.project.key && Grows(p, WithStep(p, c, p.steps[a].key.id))
    requires Resolved(p) <= |p.steps|
    ensures Honest(w, WithStep(p, c, p.steps[a].key.id), root)
  {
    var q := WithStep(p, c, p.steps[a].key.id);
    NeedsGrows(w, p, q, a, d, c);
    forall i | 0 <= i < |q.steps|
      ensures ForSome(w, q, root, i)
    {
      if i < |p.steps| {
        assert ForSome(w, p, root, i);
        var e :| StandsFor(w, p, root, i, e);
        StandsGrows(w, p, q, root, i, e);
      } else {
        assert NeededFor(w, q, i, a, d, c);
        assert StandsFor(w, q, root, i, c);
      }
    }
    forall m | m in q.manual
      ensures ByHand(w, q, root, m)
    {
      ByHandGrows(w, p, q, root, m);
    }
  }

  /** The step taken off the queue has its dependencies named by project. */
  lemma TakeKeepsHonest(w: World, p: Plan, root: Candidate)
    requires Honest(w, p, root) && Queued(p) && p.queue != []
    ensures Honest(w, Taken(w, p), root)
  {
    var q := Taken(w, p);
    assert forall k, d :: Lists(p, k, d) ==> Lists(q, k, d);
    forall i | 0 <= i < |q.steps|
      ensures ForSome(w, q, root, i)
    {
      assert ForSome(w, p, root, i);
      var c :| StandsFor(w, p, root, i, c);
      TakeKeepsDeps(w, p, i, c);
      if i > 0 {
        var a: nat, d :| NeededFor(w, p, i, a, d, c);
        assert NeededFor(w, q, i, a, d, c);
      }
      assert StandsFor(w, q, root, i, c);
    }
    forall m | m in q.manual
      ensures ByHand(w, q, root, m)
    {
      TakeKeepsByHand(w, p, root, m);
    }
  }

  lemma TakeKeepsDeps(w: World, p: Plan, i: nat, c: Candidate)
    requires Queued(p) && p.queue != [] && i < |p.steps| == |p.deps| && DepsOf(w, p, i, c)
    ensures DepsOf(w, Taken(w, p), i, c)
  {
  }

  lemma TakeKeepsByHand(w: World, p: Plan, root: Candidate, m: Manual)
    requires Queued(p) && p.queue != [] && |p.steps| == |p.deps| && ByHand(w, p, root, m)
    ensures ByHand(w, Taken(w, p), root, m)
  {
    var q := Taken(w, p);
    assert forall k, d :: Lists(p, k, d) ==> Lists(q, k, d);
    match m
    case OnOtherSite(parent, name) =>
      if !(parent == "" && root.external && name == root.project.name) {
        var a: nat, d, c :| Elsewhere(w, p, a, d, c, parent, name);
        assert Elsewhere(w, q, a, d, c, parent, name);
      }
    case Unlisted(parent, name) =>
      var a: nat, d :| Nameless(w, p, a, d, parent, name);
      assert Nameless(w, q, a, d, parent, name);
  }

  lemma FirstIsHonest(w: World, p: Plan, root: Candidate)
    requires p == NO_PLAN.(blockers := p.blockers, manual := p.manual)
    requires forall m :: m in p.manual ==> root.external && m == OnOtherSite("", root.project.name)
    ensures Honest(w, p, root)
    ensures !root.external && p.manual == [] ==> Honest(w, WithStep(p, root, ""), root)
  {
    var q := WithStep(p, root, "");
    if !root.external && p.manual == [] { assert StandsFor(w, q, root, 0, root); }
  }
}
