/** What an add-on plan is worked out from: the sources' projects and versions, and the jars in the
    server's folder. The sources answer every question the same way throughout a plan. */
module AddonCatalogue {
  import opened Options

  datatype Source = Modrinth | Hangar | Playkeeper

  datatype Key = Key(source: Source, id: string)

  datatype DepType = Required | Optional | Incompatible

  /** A dependency as its version lists it: by project, by a pinned version, or only by a name. */
  datatype Dep = Dep(typ: DepType, projectID: string, versionID: string, name: string)

  datatype Project = Project(key: Key, name: string, slug: string, loaders: set<string>, clientOnly: bool)

  /** One version of a project that fits the server: a file, or only a link to another site. */
  datatype Candidate = Candidate(
    project: Project, versionID: string, release: bool, external: bool,
    fileName: string, goodName: bool, goodHash: bool, goodHost: bool, size: nat, deps: seq<Dep>)

  /** A record of an add-on Playkeeper installed. */
  datatype Installed = Installed(key: Key, name: string, slug: string, fileName: string, versionID: string)

  /** What Modrinth knows a file added by hand as. */
  datatype Identity = Identity(projectID: string, title: string, slug: string, listed: bool, deps: seq<Dep>)

  datatype FirstParty = FirstParty(id: string, name: string, slug: string)

  datatype LocalFile = LocalFile(
    name: string, rec: Option<Installed>, ident: Option<Identity>, first: Option<FirstParty>,
    metaID: string, metaName: string)

  datatype World = World(
    projects: map<Key, Project>,
    versions: map<Key, seq<Candidate>>,
    exact: map<(Key, string), Candidate>,
    versionProjects: map<string, string>,
    versionDeps: map<string, seq<Dep>>,
    files: seq<LocalFile>,
    entries: set<string>,
    managed: map<Key, Installed>,
    loaders: set<string>,
    allowPre: bool,
    maxSize: nat,
    validRef: string -> bool,
    norm: string -> string)

  /** A source lists a project under its own key, and versions of that project under it. */
  ghost predicate WellKeyed(w: World) {
    && (forall k :: k in w.projects ==> w.projects[k].key == k)
    && (forall k, c :: k in w.versions && c in w.versions[k] ==> k in w.projects && c.project == w.projects[k])
    && (forall q :: q in w.exact ==> q.0 in w.projects && w.exact[q].project == w.projects[q.0])
  }

  function Lookup(w: World, k: Key): Option<Project> {
    if k in w.projects && (k.source == Modrinth ==> w.validRef(k.id)) then Some(w.projects[k]) else None
  }

  /** The newest release, or with none the newest version where pre-releases are allowed. */
  function Picked(cands: seq<Candidate>, allowPre: bool): Option<Candidate> {
    var releases := Releases(cands);
    if releases != [] then Some(releases[0])
    else if cands != [] && allowPre then Some(cands[0]) else None
  }

  function Releases(cands: seq<Candidate>): seq<Candidate> {
    if cands == [] then []
    else (if cands[0].release then [cands[0]] else []) + Releases(cands[1..])
  }

  /** Goes through the candidates, newest first. */
  method Pick(cands: seq<Candidate>, allowPre: bool) returns (c: Option<Candidate>)
    ensures c == Picked(cands, allowPre)
  {
    for i := 0 to |cands|
      invariant Releases(cands) == Releases(cands[i..])
    {
      assert cands[i..][1..] == cands[i + 1..];
      if cands[i].release { return Some(cands[i]); }
    }
    if cands == [] { return None; }
    if allowPre { return Some(cands[0]); }
    return None;
  }

  /** A release that fits is never passed over for a pre-release, nor for an older release. */
  lemma {:induction false} PickedIsNewest(cands: seq<Candidate>, allowPre: bool)
    ensures var c := Picked(cands, allowPre);
            && (c.Some? <==> (exists i :: 0 <= i < |cands| && cands[i].release) || (cands != [] && allowPre))
            && (c.Some? ==> (exists i :: 0 <= i < |cands| && cands[i] == c.value
                                   && (forall k :: 0 <= k < i ==> !cands[k].release)
                                   && (!c.value.release ==> i == 0 && Releases(cands) == [])))
  {
    FirstRelease(cands);
    if Releases(cands) == [] && cands != [] && allowPre {
      assert cands[0] == Picked(cands, allowPre).value;
    }
  }

  lemma {:induction false} FirstRelease(cands: seq<Candidate>)
    ensures Releases(cands) == [] <==> forall k :: 0 <= k < |cands| ==> !cands[k].release
    ensures Releases(cands) != [] ==>
              exists i :: 0 <= i < |cands| && cands[i] == Releases(cands)[0] && cands[i].release
                          && forall k :: 0 <= k < i ==> !cands[k].release
  {
    if cands != [] {
      FirstRelease(cands[1..]);
      if cands[0].release {
        assert cands[0] == Releases(cands)[0];
      } else if Releases(cands[1..]) != [] {
        var i :| 0 <= i < |cands[1..]| && cands[1..][i] == Releases(cands[1..])[0] && cands[1..][i].release
                 && forall k :: 0 <= k < i ==> !cands[1..][k].release;
        assert cands[i + 1] == Releases(cands)[0];
        assert forall k :: 0 < k < i + 1 ==> cands[k] == cands[1..][k - 1];
      } else {
        assert forall k :: 0 < k < |cands| ==> cands[k] == cands[1..][k - 1];
      }
    }
  }

  /** The version of dependency `p`: the pinned one when it fits, else the one picked. */
  function VersionOf(w: World, p: Project, pinned: string): Option<Candidate> {
    if pinned != "" && (p.key, pinned) in w.exact then Some(w.exact[(p.key, pinned)])
    else Picked(if p.key in w.versions then w.versions[p.key] else [], w.allowPre)
  }

  lemma VersionKeyed(w: World, p: Project, pinned: string)
    requires WellKeyed(w) && Lookup(w, p.key) == Some(p)
    ensures var c := VersionOf(w, p, pinned); c.Some? ==> c.value.project == p
  {
    if p.key in w.versions { PickedIsNewest(w.versions[p.key], w.allowPre); }
  }

  // ---------- the server's folder ----------

  function FirstFile(files: seq<LocalFile>, p: LocalFile -> bool): (r: Option<LocalFile>)
    ensures r.Some? ==> r.value in files && p(r.value)
    ensures r.None? ==> forall f :: f in files ==> !p(f)
  {
    if files == [] then None
    else if p(files[0]) then Some(files[0])
    else FirstFile(files[1..], p)
  }

  /** The file is the project by its record, or by what it is identified as. */
  predicate IsProject(w: World, f: LocalFile, k: Key) { Managed(w, f, k) || Identified(f, k) }

  predicate Managed(w: World, f: LocalFile, k: Key) {
    k in w.managed && f.name == w.managed[k].fileName && f.rec == Some(w.managed[k])
  }

  predicate Identified(f: LocalFile, k: Key) {
    || (k.source == Modrinth && f.rec.None? && f.ident.Some? && f.ident.value.projectID == k.id)
    || (k.source == Playkeeper && f.rec.None? && f.first.Some? && f.first.value.id == k.id)
  }

  /** The names a file goes by. */
  function NamesOf(f: LocalFile): seq<string> {
    if f.rec.Some? then [f.rec.value.name, f.rec.value.slug, f.metaID]
    else if f.ident.Some? && f.ident.value.listed then [f.ident.value.title, f.ident.value.slug, f.metaID]
    else if f.first.Some? then [f.first.value.name, f.first.value.slug, f.metaID]
    else [f.metaID, f.metaName]
  }

  predicate SameName(w: World, f: LocalFile, names: seq<string>) {
    exists n, m :: n in names && m in NamesOf(f) && w.norm(n) == w.norm(m) && w.norm(n) != ""
  }

  /** The file on the server that is project `k`, or else goes by one of `names`. */
  function Provides(w: World, k: Option<Key>, names: seq<string>): (r: Option<LocalFile>)
    ensures r.Some? <==> exists f :: f in w.files && ((k.Some? && IsProject(w, f, k.value)) || SameName(w, f, names))
    ensures r.Some? ==> r.value in w.files && ((k.Some? && IsProject(w, r.value, k.value)) || SameName(w, r.value, names))
    ensures r.Some? && k.Some? && (exists f :: f in w.files && Managed(w, f, k.value)) ==> Managed(w, r.value, k.value)
    ensures r.Some? && k.Some? && (exists f :: f in w.files && IsProject(w, f, k.value)) ==> IsProject(w, r.value, k.value)
  {
    var byRecord := if k.Some? then FirstFile(w.files, f => Managed(w, f, k.value)) else None;
    var byIdentity := if k.Some? then FirstFile(w.files, f => Identified(f, k.value)) else None;
    if byRecord.Some? then byRecord
    else if byIdentity.Some? then byIdentity
    else FirstFile(w.files, f => SameName(w, f, names))
  }

  function NamedFile(w: World, name: string): Option<LocalFile> {
    FirstFile(w.files, (f: LocalFile) => f.name == name)
  }
}
