/** Resolution of a mod and its required dependencies against the Modrinth registry: a depth-first walk
    that pushes every project after its dependencies (modrinth.service.ts). */
module Modrinth {
  import opened Base

  const PROJECT_LIMIT: nat := 64

  datatype File = File(filename: string, sha512: string, primary: bool)

  /** An absent id is the empty string. */
  datatype Dependency = Dependency(required: bool, projectId: string, versionId: string)

  datatype Version = Version(dependencies: seq<Dependency>, files: seq<File>)

  /** `unsupported`: on the side the mod is installed for. */
  datatype Project = Project(id: string, slug: string, unsupported: bool)

  /** What the registry answers during one resolution; a missing key is a failing request. `projects` is
      asked with an id or a slug, `versions` with a project id and already filtered by loader and game
      version, `owners` with a version id. */
  datatype Registry = Registry(projects: map<string, Project>, versions: map<string, seq<Version>>,
                               owners: map<string, string>)

  datatype Failure =
    | TooManyProjects
    | NotAvailable(ref: string)
    | Unsupported(slug: string)
    | VersionsFailed(slug: string)
    | NoCompatibleVersion(slug: string)
    | DependencyFailed(versionId: string)
    | NoFile(slug: string)

  /** `ref`: the reference the project was visited under (history). */
  datatype Item = Item(ref: string, projectId: string, slug: string, root: bool, version: Version, file: File)

  datatype Walk = Walk(visited: set<string>, resolved: seq<Item>)

  datatype Node = Node(project: Project, version: Version)

  /** What one reference stands for; None: it has no compatible version and is skipped. */
  function Lookup(reg: Registry, ref: string, root: bool): Result<Option<Node>, Failure> {
    if ref !in reg.projects then Err(NotAvailable(ref))
    else
      var project := reg.projects[ref];
      if project.unsupported && root then Err(Unsupported(project.slug))
      else if project.id !in reg.versions then Err(VersionsFailed(project.slug))
      else if reg.versions[project.id] == [] then
        if root then Err(NoCompatibleVersion(project.slug)) else Ok(None)
      else Ok(Some(Node(project, reg.versions[project.id][0])))
  }

  /** A required dependency names a project, or else the owner of a version. */
  ghost predicate Leads(reg: Registry, d: Dependency, b: string) {
    && d.required
    && (d.projectId == b != ""
        || (d.projectId == "" != d.versionId && d.versionId in reg.owners && reg.owners[d.versionId] == b))
  }

  /** The reference a dependency leads to; None: nothing to visit. */
  function Target(reg: Registry, d: Dependency): (r: Result<Option<string>, Failure>)
    ensures forall b :: r == Ok(Some(b)) <==> Leads(reg, d, b)
    ensures r.Err? <==> d.required && d.projectId == "" && d.versionId != "" && d.versionId !in reg.owners
  {
    if !d.required then Ok(None)
    else if d.projectId != "" then Ok(Some(d.projectId))
    else if d.versionId == "" then Ok(None)
    else if d.versionId !in reg.owners then Err(DependencyFailed(d.versionId))
    else Ok(Some(reg.owners[d.versionId]))
  }

  /** The i-th file is the first primary one, or the first of all when none is primary. */
  ghost predicate FirstChoice(files: seq<File>, i: nat) {
    && i < |files|
    && (files[i].primary || (i == 0 && forall f <- files :: !f.primary))
    && forall j :: 0 <= j < i ==> !files[j].primary
  }

  /** `files.find((item) => item.primary) ?? files[0]` */
  function Chosen(files: seq<File>): Option<File> {
    if files == [] then None
    else if files[0].primary then Some(files[0])
    else
      var rest := Chosen(files[1..]);
      if rest.Some? && rest.value.primary then rest else Some(files[0])
  }

  lemma {:induction false} ChosenExactly(files: seq<File>)
    ensures Chosen(files).None? <==> files == []
    ensures forall i: nat :: FirstChoice(files, i) ==> Chosen(files) == Some(files[i])
    ensures files != [] ==> exists i: nat :: FirstChoice(files, i)
  {
    if files != [] {
      var rest := files[1..];
      ChosenExactly(rest);
      assert files == [files[0]] + rest;
      if files[0].primary || forall f <- rest :: !f.primary {
        assert FirstChoice(files, 0);
        NonePrimary(rest);
        assert files[0].primary || forall i :: 0 <= i < |files| ==> !files[i].primary;
      } else {
        var k: nat :| FirstChoice(rest, k);
        assert rest[k].primary;
        assert FirstChoice(files, k + 1);
        forall i: nat | FirstChoice(files, i) ensures i == k + 1 {
          assert files[k + 1] in files;
          assert i > 0 && FirstChoice(rest, i - 1);
        }
      }
    }
  }

  lemma {:induction false} NonePrimary(files: seq<File>)
    ensures (forall f <- files :: !f.primary) ==> Chosen(files).None? || !Chosen(files).value.primary
  {
    if files != [] {
      NonePrimary(files[1..]);
      assert files == [files[0]] + files[1..];
    }
  }

  // ---------- the walk ----------

  function Visit(reg: Registry, w: Walk, ref: string, root: bool): (r: Result<Walk, Failure>)
    requires |w.visited| <= PROJECT_LIMIT
    ensures r.Ok? ==> |w.visited| <= |r.value.visited| <= PROJECT_LIMIT
    decreases PROJECT_LIMIT - |w.visited|, 0
  {
    if ref in w.visited then Ok(w)
    else if |w.visited| >= PROJECT_LIMIT then Err(TooManyProjects)
    else
      var entered := w.(visited := w.visited + {ref});
      match Lookup(reg, ref, root)
      case Err(f) => Err(f)
      case Ok(None) => Ok(entered)
      case Ok(Some(node)) =>
        match VisitAll(reg, entered, node.version.dependencies)
        case Err(f) => Err(f)
        case Ok(done) => Push(done, ref, root, node)
  }

  function VisitAll(reg: Registry, w: Walk, deps: seq<Dependency>): (r: Result<Walk, Failure>)
    requires |w.visited| <= PROJECT_LIMIT
    ensures r.Ok? ==> |w.visited| <= |r.value.visited| <= PROJECT_LIMIT
    decreases PROJECT_LIMIT - |w.visited|, |deps| + 1
  {
    if deps == [] then Ok(w)
    else match Target(reg, deps[0])
      case Err(f) => Err(f)
      case Ok(None) => VisitAll(reg, w, deps[1..])
      case Ok(Some(ref)) =>
        match Visit(reg, w, ref, false)
        case Err(f) => Err(f)
        case Ok(next) => VisitAll(reg, next, deps[1..])
  }

  function Push(w: Walk, ref: string, root: bool, node: Node): (r: Result<Walk, Failure>)
    ensures r.Ok? ==> r.value.visited == w.visited
  {
    match Chosen(node.version.files)
    case None => Err(NoFile(node.project.slug))
    case Some(file) =>
      var item := Item(ref, node.project.id, node.project.slug, root, node.version, file);
      Ok(w.(resolved := w.resolved + [item]))
  }

  function Resolve(reg: Registry, slug: string): Result<seq<Item>, Failure> {
    match Visit(reg, Walk({}, []), slug, true)
    case Err(f) => Err(f)
    case Ok(w) => Ok(w.resolved)
  }

  // ---------- the registry as a graph, without the walk ----------

  /** The registry answers for the reference and its versions. */
  predicate Known(reg: Registry, ref: string) {
    ref in reg.projects && reg.projects[ref].id in reg.versions
  }

  /** The root may not be unsupported; for a dependency it makes no difference. */
  predicate Refused(reg: Registry, slug: string, ref: string) {
    ref == slug && ref in reg.projects && reg.projects[ref].unsupported
  }

  predicate Usable(reg: Registry, slug: string, ref: string) {
    Known(reg, ref) && !Refused(reg, slug, ref) && reg.versions[reg.projects[ref].id] != []
  }

  /** The newest compatible version: the registry lists it first. */
  function NewestVersion(reg: Registry, ref: string): Version
    requires Known(reg, ref) && reg.versions[reg.projects[ref].id] != []
  {
    reg.versions[reg.projects[ref].id][0]
  }

  /** The newest compatible version of `a` requires `b`. */
  ghost predicate Edge(reg: Registry, slug: string, a: string, b: string) {
    Usable(reg, slug, a) && exists d <- NewestVersion(reg, a).dependencies :: Leads(reg, d, b)
  }

  /** A required dependency names only a version, and the registry does not answer for that version. */
  ghost predicate Lost(reg: Registry, d: Dependency) {
    d.required && d.projectId == "" && d.versionId != "" && d.versionId !in reg.owners
  }

  /** Nothing about this reference makes the resolution fail. */
  ghost predicate Healthy(reg: Registry, slug: string, ref: string) {
    && Known(reg, ref) && !Refused(reg, slug, ref)
    && (reg.versions[reg.projects[ref].id] == [] ==> ref != slug)
    && (Usable(reg, slug, ref) ==>
          (forall d <- NewestVersion(reg, ref).dependencies :: !Lost(reg, d)) && NewestVersion(reg, ref).files != [])
  }

  /** What looking a reference up has to do with the registry. */
  lemma LookupExactly(reg: Registry, slug: string, ref: string)
    ensures var l := Lookup(reg, ref, ref == slug);
            && (l.Ok? && l.value.Some? <==> Usable(reg, slug, ref))
            && (Usable(reg, slug, ref) ==> l == Ok(Some(Node(reg.projects[ref], NewestVersion(reg, ref)))))
            && (l.Ok? <==> Known(reg, ref) && !Refused(reg, slug, ref)
                           && (reg.versions[reg.projects[ref].id] == [] ==> ref != slug))
            && (l.Err? ==> FailsWith(reg, slug, ref, l.error))
  {
  }

  ghost predicate Path(reg: Registry, slug: string, p: seq<string>) {
    p != [] && forall i :: 0 <= i < |p| - 1 ==> Edge(reg, slug, p[i], p[i + 1])
  }

  ghost predicate Reaches(reg: Registry, slug: string, a: string, b: string) {
    exists p :: Path(reg, slug, p) && p[0] == a && p[|p| - 1] == b
  }

  lemma ReachesSelf(reg: Registry, slug: string, a: string)
    ensures Reaches(reg, slug, a, a)
  {
    assert Path(reg, slug, [a]);
  }

  lemma ReachesOver(reg: Registry, slug: string, a: string, b: string, c: string)
    requires Reaches(reg, slug, a, b) && Edge(reg, slug, b, c)
    ensures Reaches(reg, slug, a, c)
  {
    var p :| Path(reg, slug, p) && p[0] == a && p[|p| - 1] == b;
    var q := p + [c];
    forall i | 0 <= i < |q| - 1 ensures Edge(reg, slug, q[i], q[i + 1]) {
      if i < |p| - 1 {
        assert Edge(reg, slug, p[i], p[i + 1]);
      }
    }
    assert Path(reg, slug, q);
  }

  lemma {:induction false} ClosedSetHoldsPath(reg: Registry, slug: string, closed: set<string>, p: seq<string>, i: nat)
    requires Path(reg, slug, p) && p[0] in closed && i < |p|
    requires forall a, b :: a in closed && Edge(reg, slug, a, b) ==> b in closed
    ensures p[i] in closed
  {
    if i > 0 {
      ClosedSetHoldsPath(reg, slug, closed, p, i - 1);
      assert Edge(reg, slug, p[i - 1], p[i - 1 + 1]);
    }
  }

  // ---------- what the walk keeps ----------

  ghost predicate Has(resolved: seq<Item>, ref: string) {
    exists i :: 0 <= i < |resolved| && resolved[i].ref == ref
  }

  ghost predicate Finished(reg: Registry, slug: string, w: Walk, v: string) {
    && Healthy(reg, slug, v)
    && (Usable(reg, slug, v) ==> Has(w.resolved, v))
    && forall b :: Edge(reg, slug, v, b) ==> b in w.visited
  }

  /** The item is what the registry says of its reference: the newest compatible version, and of its files
      the first primary one, or the first when none is. */
  ghost predicate ItemOk(reg: Registry, slug: string, item: Item) {
    && Usable(reg, slug, item.ref)
    && item.projectId == reg.projects[item.ref].id && item.slug == reg.projects[item.ref].slug
    && item.version == reg.versions[item.projectId][0]
    && item.root == (item.ref == slug)
    && exists i: nat :: FirstChoice(item.version.files, i) && item.file == item.version.files[i]
  }

  /** A usable dependency of the i-th item comes before it, or the two are on a cycle. */
  ghost predicate OrderOk(reg: Registry, slug: string, resolved: seq<Item>, i: nat, b: string)
    requires i < |resolved|
  {
    Edge(reg, slug, resolved[i].ref, b) && Usable(reg, slug, b) ==>
      (exists j :: 0 <= j < i && resolved[j].ref == b) || Reaches(reg, slug, b, resolved[i].ref)
  }

  ghost predicate ItemsInv(reg: Registry, slug: string, resolved: seq<Item>) {
    && (forall i :: 0 <= i < |resolved| ==> ItemOk(reg, slug, resolved[i]))
    && (forall i, j :: 0 <= i < j < |resolved| ==> resolved[i].ref != resolved[j].ref)
    && (forall i, b :: 0 <= i < |resolved| ==> OrderOk(reg, slug, resolved, i, b))
  }

  /** `gray`: the references entered but not finished, that is, the stack of the walk. */
  ghost predicate Inv(reg: Registry, slug: string, w: Walk, gray: set<string>) {
    && gray <= w.visited
    && (forall v <- w.visited :: Reaches(reg, slug, slug, v))
    && (forall v <- w.visited :: v !in gray ==> Finished(reg, slug, w, v))
    && (forall i :: 0 <= i < |w.resolved| ==> w.resolved[i].ref in w.visited && w.resolved[i].ref !in gray)
    && ItemsInv(reg, slug, w.resolved)
  }

  ghost predicate Grows(w: Walk, v: Walk) {
    w.visited <= v.visited && w.resolved <= v.resolved
  }

  lemma EnterKeepsInv(reg: Registry, slug: string, w: Walk, ref: string, gray: set<string>)
    requires Inv(reg, slug, w, gray) && ref !in w.visited && Reaches(reg, slug, slug, ref)
    ensures Inv(reg, slug, w.(visited := w.visited + {ref}), gray + {ref})
  {
    var v := w.(visited := w.visited + {ref});
    forall x | x in v.visited && x !in gray + {ref} ensures Finished(reg, slug, v, x) {
      assert Finished(reg, slug, w, x);
    }
  }

  /** A reference without a compatible version has no edges: it is finished as soon as it is entered. */
  lemma SkipKeepsInv(reg: Registry, slug: string, w: Walk, ref: string, gray: set<string>)
    requires Inv(reg, slug, w, gray + {ref}) && ref !in gray && ref in w.visited
    requires Lookup(reg, ref, ref == slug) == Ok(None)
    ensures Inv(reg, slug, w, gray)
  {
    LookupExactly(reg, slug, ref);
    assert Finished(reg, slug, w, ref);
  }

  lemma PushKeepsItems(reg: Registry, slug: string, w: Walk, item: Item, gray: set<string>)
    requires Inv(reg, slug, w, gray + {item.ref}) && ItemOk(reg, slug, item)
    requires forall g <- gray :: Reaches(reg, slug, g, item.ref)
    requires forall b :: Edge(reg, slug, item.ref, b) ==> b in w.visited
    ensures ItemsInv(reg, slug, w.resolved + [item])
  {
    var r := w.resolved + [item];
    forall i, b | 0 <= i < |r| ensures OrderOk(reg, slug, r, i, b) {
      if i < |w.resolved| {
        assert OrderOk(reg, slug, w.resolved, i, b);
        if j :| 0 <= j < i && w.resolved[j].ref == b {
          assert r[j].ref == b;
        }
      } else if Edge(reg, slug, item.ref, b) && Usable(reg, slug, b) {
        if b == item.ref {
          ReachesSelf(reg, slug, b);
        } else if b !in gray {
          assert Finished(reg, slug, w, b);
          var j :| 0 <= j < |w.resolved| && w.resolved[j].ref == b;
          assert r[j].ref == b;
        }
      }
    }
  }

  lemma PushKeepsInv(reg: Registry, slug: string, w: Walk, item: Item, gray: set<string>)
    requires Inv(reg, slug, w, gray + {item.ref}) && item.ref in w.visited && item.ref !in gray
    requires ItemOk(reg, slug, item) && Healthy(reg, slug, item.ref)
    requires forall g <- gray :: Reaches(reg, slug, g, item.ref)
    requires forall b :: Edge(reg, slug, item.ref, b) ==> b in w.visited
    ensures Inv(reg, slug, w.(resolved := w.resolved + [item]), gray)
  {
    var v := w.(resolved := w.resolved + [item]);
    PushKeepsItems(reg, slug, w, item, gray);
    assert v.resolved[|w.resolved|] == item;
    forall x | x in v.visited && x !in gray ensures Finished(reg, slug, v, x) {
      if x != item.ref {
        assert Finished(reg, slug, w, x);
        if Usable(reg, slug, x) {
          var j :| 0 <= j < |w.resolved| && w.resolved[j].ref == x;
          assert v.resolved[j].ref == x;
        }
      }
    }
  }

  lemma {:induction false} VisitKeepsInv(reg: Registry, slug: string, w: Walk, ref: string, root: bool,
                                         gray: set<string>)
    requires |w.visited| <= PROJECT_LIMIT && Visit(reg, w, ref, root).Ok?
    requires Inv(reg, slug, w, gray) && Reaches(reg, slug, slug, ref)
    requires forall g <- gray :: Reaches(reg, slug, g, ref)
    requires ref !in w.visited ==> root == (ref == slug)
    requires slug in w.visited || ref == slug
    ensures var v := Visit(reg, w, ref, root).value;
            Inv(reg, slug, v, gray) && ref in v.visited && Grows(w, v)
    decreases PROJECT_LIMIT - |w.visited|, 0
  {
    if ref !in w.visited {
      var entered := w.(visited := w.visited + {ref});
      EnterKeepsInv(reg, slug, w, ref, gray);
      LookupExactly(reg, slug, ref);
      if Lookup(reg, ref, root) == Ok(None) {
        SkipKeepsInv(reg, slug, entered, ref, gray);
      } else {
        var node := Lookup(reg, ref, root).value.value;
        ReachesSelf(reg, slug, ref);
        VisitAllKeepsInv(reg, slug, entered, ref, node.version.dependencies, gray + {ref});
        var done := VisitAll(reg, entered, node.version.dependencies).value;
        ChosenExactly(node.version.files);
        PushKeepsInv(reg, slug, done, Item(ref, node.project.id, node.project.slug, root, node.version,
                                           Chosen(node.version.files).value), gray);
      }
    }
  }

  lemma {:induction false} VisitAllKeepsInv(reg: Registry, slug: string, w: Walk, at: string, deps: seq<Dependency>,
                                            gray: set<string>)
    requires |w.visited| <= PROJECT_LIMIT && VisitAll(reg, w, deps).Ok?
    requires Inv(reg, slug, w, gray) && slug in w.visited && at in gray
    requires Usable(reg, slug, at) && forall d <- deps :: d in NewestVersion(reg, at).dependencies
    requires forall g <- gray :: Reaches(reg, slug, g, at)
    ensures var v := VisitAll(reg, w, deps).value;
            && Inv(reg, slug, v, gray) && Grows(w, v)
            && forall d <- deps ::
                 Target(reg, d).Ok? && (Target(reg, d).value.Some? ==> Target(reg, d).value.value in v.visited)
    decreases PROJECT_LIMIT - |w.visited|, |deps| + 1
  {
    if deps != [] {
      var next := w;
      if Target(reg, deps[0]).value.Some? {
        var ref := Target(reg, deps[0]).value.value;
        assert Edge(reg, slug, at, ref);
        forall g | g in gray ensures Reaches(reg, slug, g, ref) {
          ReachesOver(reg, slug, g, at, ref);
        }
        ReachesOver(reg, slug, slug, at, ref);
        VisitKeepsInv(reg, slug, w, ref, false, gray);
        next := Visit(reg, w, ref, false).value;
      }
      VisitAllKeepsInv(reg, slug, next, at, deps[1..], gray);
      assert forall d <- deps :: d == deps[0] || d in deps[1..];
    }
  }

  /** The finished walk: visited is exactly what the root reaches. */
  lemma WalkIsClosure(reg: Registry, slug: string)
    requires Resolve(reg, slug).Ok?
    ensures var w := Visit(reg, Walk({}, []), slug, true).value;
            && Inv(reg, slug, w, {})
            && forall ref :: ref in w.visited <==> Reaches(reg, slug, slug, ref)
  {
    ReachesSelf(reg, slug, slug);
    VisitKeepsInv(reg, slug, Walk({}, []), slug, true, {});
    var w := Visit(reg, Walk({}, []), slug, true).value;
    forall ref | Reaches(reg, slug, slug, ref) ensures ref in w.visited {
      var p :| Path(reg, slug, p) && p[0] == slug && p[|p| - 1] == ref;
      forall a, b | a in w.visited && Edge(reg, slug, a, b) ensures b in w.visited {
        assert Finished(reg, slug, w, a);
      }
      ClosedSetHoldsPath(reg, slug, w.visited, p, |p| - 1);
    }
  }

  // ---------- the results ----------

  /** Exactly the references reachable over required edges of references with a compatible version are
      resolved, each once, and each as the registry describes it. */
  lemma ResolvedAreReachable(reg: Registry, slug: string)
    requires Resolve(reg, slug).Ok?
    ensures var r := Resolve(reg, slug).value;
            && (forall ref :: Has(r, ref) <==> Reaches(reg, slug, slug, ref) && Usable(reg, slug, ref))
            && (forall i, j :: 0 <= i < j < |r| ==> r[i].ref != r[j].ref)
            && (forall i :: 0 <= i < |r| ==> ItemOk(reg, slug, r[i]))
  {
    WalkIsClosure(reg, slug);
    var w := Visit(reg, Walk({}, []), slug, true).value;
    forall ref | ref in w.visited && Usable(reg, slug, ref) ensures Has(w.resolved, ref) {
      assert Finished(reg, slug, w, ref);
    }
  }

  /** Dependencies come before dependents, except along cycles. */
  lemma DependenciesFirst(reg: Registry, slug: string, i: nat, b: string)
    requires Resolve(reg, slug).Ok? && i < |Resolve(reg, slug).value|
    requires Edge(reg, slug, Resolve(reg, slug).value[i].ref, b) && Usable(reg, slug, b)
    ensures var r := Resolve(reg, slug).value;
            (exists j :: 0 <= j < i && r[j].ref == b) || Reaches(reg, slug, b, r[i].ref)
  {
    WalkIsClosure(reg, slug);
    assert OrderOk(reg, slug, Resolve(reg, slug).value, i, b);
  }

  /** The root is resolved, and it is the last item and the only one marked as root. */
  lemma RootIsLast(reg: Registry, slug: string)
    requires Resolve(reg, slug).Ok?
    ensures var r := Resolve(reg, slug).value;
            r != [] && r[|r| - 1].ref == slug && forall i :: 0 <= i < |r| ==> (r[i].root <==> i == |r| - 1)
  {
    ResolvedAreReachable(reg, slug);
    var r := Resolve(reg, slug).value;
    assert r != [] && r[|r| - 1].ref == slug;
    forall i | 0 <= i < |r| ensures r[i].root <==> i == |r| - 1 {
      assert ItemOk(reg, slug, r[i]);
    }
  }

  // ---------- when it succeeds ----------

  lemma ProperSubsetIsSmaller(a: set<string>, b: set<string>, x: string)
    requires a <= b && x in b && x !in a
    ensures |a| < |b|
  {
    assert |b| == |a| + |b - a|;
  }

  ghost predicate Sound(reg: Registry, slug: string, closed: set<string>) {
    && |closed| <= PROJECT_LIMIT
    && (forall a <- closed :: Healthy(reg, slug, a))
    && forall a, b :: a in closed && Edge(reg, slug, a, b) ==> b in closed
  }

  lemma {:induction false} VisitSucceeds(reg: Registry, slug: string, closed: set<string>, w: Walk, ref: string,
                                         root: bool)
    requires Sound(reg, slug, closed) && w.visited <= closed && ref in closed && |w.visited| <= PROJECT_LIMIT
    requires ref !in w.visited ==> root == (ref == slug)
    requires slug in w.visited || ref == slug
    ensures Visit(reg, w, ref, root).Ok?
    ensures w.visited <= Visit(reg, w, ref, root).value.visited <= closed
    decreases PROJECT_LIMIT - |w.visited|, 0
  {
    if ref !in w.visited {
      ProperSubsetIsSmaller(w.visited, closed, ref);
      assert Healthy(reg, slug, ref);
      LookupExactly(reg, slug, ref);
      if Usable(reg, slug, ref) {
        VisitAllSucceeds(reg, slug, closed, w.(visited := w.visited + {ref}), ref,
                         NewestVersion(reg, ref).dependencies);
        ChosenExactly(NewestVersion(reg, ref).files);
      }
    }
  }

  lemma {:induction false} VisitAllSucceeds(reg: Registry, slug: string, closed: set<string>, w: Walk, at: string,
                                            deps: seq<Dependency>)
    requires Sound(reg, slug, closed) && w.visited <= closed && |w.visited| <= PROJECT_LIMIT && slug in w.visited
    requires at in closed && Usable(reg, slug, at)
             && forall d <- deps :: d in NewestVersion(reg, at).dependencies
    ensures VisitAll(reg, w, deps).Ok?
    ensures w.visited <= VisitAll(reg, w, deps).value.visited <= closed
    decreases PROJECT_LIMIT - |w.visited|, |deps| + 1
  {
    if deps != [] {
      assert Healthy(reg, slug, at);
      assert deps[0] in deps && !Lost(reg, deps[0]);
      var next := w;
      if Target(reg, deps[0]).value.Some? {
        var ref := Target(reg, deps[0]).value.value;
        assert Edge(reg, slug, at, ref);
        VisitSucceeds(reg, slug, closed, w, ref, false);
        next := Visit(reg, w, ref, false).value;
      }
      VisitAllSucceeds(reg, slug, closed, next, at, deps[1..]);
    }
  }

  /** The reachable references, when they are finitely many. */
  ghost predicate IsClosure(reg: Registry, slug: string, closed: set<string>) {
    forall ref :: ref in closed <==> Reaches(reg, slug, slug, ref)
  }

  /** It succeeds exactly when at most 64 references are reachable and every one of them is healthy. */
  lemma SucceedsExactlyWhen(reg: Registry, slug: string)
    ensures Resolve(reg, slug).Ok? <==>
              exists closed :: IsClosure(reg, slug, closed) && |closed| <= 64
                && forall a <- closed :: Healthy(reg, slug, a)
  {
    if Resolve(reg, slug).Ok? {
      WalkIsClosure(reg, slug);
      var w := Visit(reg, Walk({}, []), slug, true).value;
      forall a | a in w.visited ensures Healthy(reg, slug, a) {
        assert Finished(reg, slug, w, a);
      }
      assert IsClosure(reg, slug, w.visited);
    }
    if closed :|
      IsClosure(reg, slug, closed) && |closed| <= PROJECT_LIMIT && forall a <- closed :: Healthy(reg, slug, a)
    {
      forall a, b | a in closed && Edge(reg, slug, a, b) ensures b in closed {
        ReachesOver(reg, slug, slug, a, b);
      }
      ReachesSelf(reg, slug, slug);
      VisitSucceeds(reg, slug, closed, Walk({}, []), slug, true);
    }
  }

  // ---------- projects and references ----------

  /** Two different references that stand for one project. */
  ghost predicate SameProject(reg: Registry, slug: string, a: string, b: string) {
    && a != b && Reaches(reg, slug, slug, a) && Usable(reg, slug, a)
    && Reaches(reg, slug, slug, b) && Usable(reg, slug, b)
    && reg.projects[a].id == reg.projects[b].id
  }

  /** From references to projects, in any registry: a project is resolved twice exactly when two references
      name it. */
  lemma ProjectsOnceExactlyWhen(reg: Registry, slug: string)
    requires Resolve(reg, slug).Ok?
    ensures var r := Resolve(reg, slug).value;
            (forall i, j :: 0 <= i < j < |r| ==> r[i].projectId != r[j].projectId) <==>
            forall a, b :: !SameProject(reg, slug, a, b)
  {
    ResolvedAreReachable(reg, slug);
    var r := Resolve(reg, slug).value;
    hide Resolve;
    hide Reaches;
    if a, b :| SameProject(reg, slug, a, b) {
      assert Has(r, a) && Has(r, b);
      var i :| 0 <= i < |r| && r[i].ref == a;
      var j :| 0 <= j < |r| && r[j].ref == b;
      assert ItemOk(reg, slug, r[i]) && ItemOk(reg, slug, r[j]);
      hide Lookup;
      assert r[i].projectId == r[j].projectId;
    }
    if i, j :| 0 <= i < j < |r| && r[i].projectId == r[j].projectId {
      assert ItemOk(reg, slug, r[i]) && ItemOk(reg, slug, r[j]);
      hide Lookup;
      assert Has(r, r[i].ref) && Has(r, r[j].ref);
      assert SameProject(reg, slug, r[i].ref, r[j].ref);
    }
  }

  /** Required dependencies name projects by their own id, as registry versions do. */
  ghost predicate DependenciesById(reg: Registry, slug: string) {
    forall a, b :: Edge(reg, slug, a, b) && b in reg.projects ==> reg.projects[b].id == b
  }

  /** Then everything reached but the root is reached under its own id. */
  lemma ReachedById(reg: Registry, slug: string, ref: string)
    requires DependenciesById(reg, slug) && Reaches(reg, slug, slug, ref) && ref != slug && Usable(reg, slug, ref)
    ensures reg.projects[ref].id == ref
  {
    var p :| Path(reg, slug, p) && p[0] == slug && p[|p| - 1] == ref;
    assert Edge(reg, slug, p[|p| - 2], p[|p| - 2 + 1]);
  }

  /** A project is resolved twice exactly when the root was asked for by another name than its id and its
      id is reached from it as a dependency; it is then the root that is repeated. */
  lemma RepeatedExactlyWhen(reg: Registry, slug: string)
    requires Resolve(reg, slug).Ok? && DependenciesById(reg, slug)
    ensures slug in reg.projects
    ensures var r, id := Resolve(reg, slug).value, reg.projects[slug].id;
            (exists i, j :: 0 <= i < j < |r| && r[i].projectId == r[j].projectId) <==>
            id != slug && Reaches(reg, slug, slug, id) && Usable(reg, slug, id)
  {
    ResolvedAreReachable(reg, slug);
    RootIsLast(reg, slug);
    ReachesSelf(reg, slug, slug);
    assert Has(Resolve(reg, slug).value, slug);
    ProjectsOnceExactlyWhen(reg, slug);
    var id := reg.projects[slug].id;
    hide Resolve;
    if id != slug && Reaches(reg, slug, slug, id) && Usable(reg, slug, id) {
      ReachedById(reg, slug, id);
      assert SameProject(reg, slug, slug, id);
    }
    forall a, b | SameProject(reg, slug, a, b)
      ensures id != slug && Reaches(reg, slug, slug, id) && Usable(reg, slug, id)
    {
      if a != slug {
        ReachedById(reg, slug, a);
      }
      if b != slug {
        ReachedById(reg, slug, b);
      }
    }
  }

  /** So a resolution asked for by project id resolves every project once. */
  lemma OnceWhenAskedById(reg: Registry, slug: string, i: nat, j: nat)
    requires Resolve(reg, slug).Ok? && DependenciesById(reg, slug) && slug in reg.projects
             && reg.projects[slug].id == slug
    requires i < j < |Resolve(reg, slug).value|
    ensures Resolve(reg, slug).value[i].projectId != Resolve(reg, slug).value[j].projectId
  {
    RepeatedExactlyWhen(reg, slug);
  }

  /** They can: a root asked for by slug whose dependency requires it back by id is resolved twice. */
  lemma RootResolvedTwice()
    ensures exists reg: Registry, slug: string ::
              && DependenciesById(reg, slug) && Resolve(reg, slug).Ok? && |Resolve(reg, slug).value| == 3
              && Resolve(reg, slug).value[0].projectId == Resolve(reg, slug).value[2].projectId
  {
    var file := File("f", "h", true);
    var needsB, needsA := Version([Dependency(true, "B", "")], [file]), Version([Dependency(true, "A", "")], [file]);
    var project, other := Project("A", "a", false), Project("B", "b", false);
    var reg := Registry(map["a" := project, "A" := project, "B" := other], map["A" := [needsB], "B" := [needsA]],
                        map[]);
    var w1, w2, w3 := Walk({"a"}, []), Walk({"a"} + {"B"}, []), Walk({"a"} + {"B"} + {"A"}, []);
    assert needsB.dependencies[1..] == [] && needsA.dependencies[1..] == [] && Chosen([file]) == Some(file);
    assert Lookup(reg, "a", true) == Ok(Some(Node(project, needsB)));
    assert Lookup(reg, "A", false) == Ok(Some(Node(project, needsB)));
    assert Lookup(reg, "B", false) == Ok(Some(Node(other, needsA)));
    assert VisitAll(reg, w3, needsB.dependencies) == Ok(w3) by {
      assert Visit(reg, w3, "B", false) == Ok(w3);
    }
    var inner := Item("A", "A", "a", false, needsB, file);
    var w4 := Walk(w3.visited, [inner]);
    assert Visit(reg, w2, "A", false) == Ok(w4) by {
      assert [] + [inner] == [inner];
    }
    assert VisitAll(reg, w2, needsA.dependencies) == Ok(w4);
    var middle := Item("B", "B", "b", false, needsA, file);
    var w5 := Walk(w3.visited, [inner, middle]);
    assert Visit(reg, w1, "B", false) == Ok(w5) by {
      assert w2 == w1.(visited := w1.visited + {"B"}) && [inner] + [middle] == [inner, middle];
      assert Push(w4, "B", false, Node(other, needsA)) == Ok(w5);
    }
    assert VisitAll(reg, w1, needsB.dependencies) == Ok(w5);
    assert Walk({} + {"a"}, []) == w1;
    var outer := Item("a", "A", "a", true, needsB, file);
    assert [inner, middle] + [outer] == [inner, middle, outer];
    assert Push(w5, "a", true, Node(project, needsB)) == Ok(w5.(resolved := [inner, middle, outer]));
    assert Resolve(reg, "a") == Ok([inner, middle, outer]);
    NamesById(reg, needsA, needsB);
  }

  lemma NamesById(reg: Registry, needsA: Version, needsB: Version)
    requires needsA.dependencies == [Dependency(true, "A", "")] && needsB.dependencies == [Dependency(true, "B", "")]
    requires reg.versions == map["A" := [needsB], "B" := [needsA]]
    requires "A" in reg.projects && reg.projects["A"].id == "A" && "B" in reg.projects && reg.projects["B"].id == "B"
    ensures DependenciesById(reg, "a")
  {
    forall a, b | Edge(reg, "a", a, b) ensures b == "A" || b == "B" {
      var d :| d in NewestVersion(reg, a).dependencies && Leads(reg, d, b);
      assert NewestVersion(reg, a) == needsA || NewestVersion(reg, a) == needsB;
      assert d == needsA.dependencies[0] || d == needsB.dependencies[0];
    }
  }

  // ---------- why it fails ----------

  /** A reported failure belongs to a reachable reference, or there are more than 64 of them. */
  ghost predicate Genuine(reg: Registry, slug: string, f: Failure) {
    || (f.TooManyProjects? && exists many: set<string> ::
          |many| == 65 && forall a <- many :: Reaches(reg, slug, slug, a))
    || exists a :: Reaches(reg, slug, slug, a) && FailsWith(reg, slug, a, f)
  }

  /** The failure is true of the reference, and is the first check that it does not pass. */
  ghost predicate FailsWith(reg: Registry, slug: string, ref: string, f: Failure) {
    match f
    case TooManyProjects => false
    case NotAvailable(name) => name == ref && ref !in reg.projects
    case Unsupported(name) => Refused(reg, slug, ref) && name == reg.projects[ref].slug
    case VersionsFailed(name) =>
      && ref in reg.projects && !Refused(reg, slug, ref) && reg.projects[ref].id !in reg.versions
      && name == reg.projects[ref].slug
    case NoCompatibleVersion(name) =>
      && ref == slug && Known(reg, ref) && !Refused(reg, slug, ref) && reg.versions[reg.projects[ref].id] == []
      && name == reg.projects[ref].slug
    case DependencyFailed(versionId) =>
      && Usable(reg, slug, ref)
      && exists d <- NewestVersion(reg, ref).dependencies :: Lost(reg, d) && d.versionId == versionId
    case NoFile(name) =>
      Usable(reg, slug, ref) && NewestVersion(reg, ref).files == [] && name == reg.projects[ref].slug
  }

  lemma {:induction false} VisitFailsGenuinely(reg: Registry, slug: string, w: Walk, ref: string, root: bool,
                                               gray: set<string>)
    requires |w.visited| <= PROJECT_LIMIT && Visit(reg, w, ref, root).Err?
    requires Inv(reg, slug, w, gray) && Reaches(reg, slug, slug, ref)
    requires forall g <- gray :: Reaches(reg, slug, g, ref)
    requires ref !in w.visited ==> root == (ref == slug)
    requires slug in w.visited || ref == slug
    ensures Genuine(reg, slug, Visit(reg, w, ref, root).error)
    decreases PROJECT_LIMIT - |w.visited|, 0
  {
    LookupExactly(reg, slug, ref);
    if |w.visited| >= PROJECT_LIMIT {
      assert |w.visited + {ref}| == PROJECT_LIMIT + 1;
    } else if Lookup(reg, ref, root).Err? {
      assert FailsWith(reg, slug, ref, Lookup(reg, ref, root).error);
    } else {
      var entered := w.(visited := w.visited + {ref});
      var node := Node(reg.projects[ref], NewestVersion(reg, ref));
      ChosenExactly(node.version.files);
      if VisitAll(reg, entered, node.version.dependencies).Err? {
        EnterKeepsInv(reg, slug, w, ref, gray);
        ReachesSelf(reg, slug, ref);
        VisitAllFailsGenuinely(reg, slug, entered, ref, node.version.dependencies, gray + {ref});
      } else {
        assert FailsWith(reg, slug, ref, NoFile(node.project.slug));
      }
    }
  }

  lemma {:induction false} VisitAllFailsGenuinely(reg: Registry, slug: string, w: Walk, at: string,
                                                  deps: seq<Dependency>, gray: set<string>)
    requires |w.visited| <= PROJECT_LIMIT && VisitAll(reg, w, deps).Err?
    requires Inv(reg, slug, w, gray) && slug in w.visited && at in gray
    requires Usable(reg, slug, at) && forall d <- deps :: d in NewestVersion(reg, at).dependencies
    requires forall g <- gray :: Reaches(reg, slug, g, at)
    ensures Genuine(reg, slug, VisitAll(reg, w, deps).error)
    decreases PROJECT_LIMIT - |w.visited|, |deps| + 1
  {
    if Target(reg, deps[0]).Err? {
      assert FailsWith(reg, slug, at, Target(reg, deps[0]).error);
    } else if Target(reg, deps[0]).value.None? {
      VisitAllFailsGenuinely(reg, slug, w, at, deps[1..], gray);
    } else {
      var ref := Target(reg, deps[0]).value.value;
      assert Edge(reg, slug, at, ref);
      forall g | g in gray ensures Reaches(reg, slug, g, ref) {
        ReachesOver(reg, slug, g, at, ref);
      }
      ReachesOver(reg, slug, slug, at, ref);
      if Visit(reg, w, ref, false).Err? {
        VisitFailsGenuinely(reg, slug, w, ref, false, gray);
      } else {
        VisitKeepsInv(reg, slug, w, ref, false, gray);
        VisitAllFailsGenuinely(reg, slug, Visit(reg, w, ref, false).value, at, deps[1..], gray);
      }
    }
  }

  /** Every failure has its cause among the reachable references. */
  lemma FailureIsGenuine(reg: Registry, slug: string)
    requires Resolve(reg, slug).Err?
    ensures Genuine(reg, slug, Resolve(reg, slug).error)
  {
    ReachesSelf(reg, slug, slug);
    VisitFailsGenuinely(reg, slug, Walk({}, []), slug, true, {});
  }

  // ---------- the closure of resolveInstall ----------

  /** The two variables `resolved` and `visited` that the recursive closure updates. */
  class Resolution {
    const reg: Registry
    var visited: set<string>
    var resolved: seq<Item>

    constructor (reg: Registry)
      ensures this.reg == reg && visited == {} && resolved == []
    {
      this.reg := reg;
      visited, resolved := {}, [];
    }

    ghost function State(): Walk
      reads this
    {
      Walk(visited, resolved)
    }

    /** The recursive `visit`; a failure is thrown through every caller. */
    method Enter(ref: string, root: bool) returns (failure: Option<Failure>)
      requires |visited| <= PROJECT_LIMIT
      modifies this
      ensures match Visit(reg, old(State()), ref, root)
              case Ok(w) => failure == None && State() == w
              case Err(f) => failure == Some(f)
      decreases PROJECT_LIMIT - |visited|
    {
      if ref in visited {
        return None;
      }
      if |visited| >= PROJECT_LIMIT {
        return Some(TooManyProjects);
      }
      visited := visited + {ref};
      var found := Lookup(reg, ref, root);
      if found.Err? {
        return Some(found.error);
      }
      if found.value.None? {
        return None;
      }
      var node := found.value.value;
      var deps := node.version.dependencies;
      ghost var entered := State();
      for i := 0 to |deps|
        invariant |entered.visited| <= |visited| <= PROJECT_LIMIT
        invariant VisitAll(reg, entered, deps) == VisitAll(reg, State(), deps[i..])
      {
        var target := Target(reg, deps[i]);
        if target.Err? {
          return Some(target.error);
        }
        assert deps[i..][1..] == deps[i + 1..];
        if target.value.Some? {
          var inner := Enter(target.value.value, false);
          if inner.Some? {
            return inner;
          }
        }
      }
      var file := Chosen(node.version.files);
      if file.None? {
        return Some(NoFile(node.project.slug));
      }
      resolved := resolved + [Item(ref, node.project.id, node.project.slug, root, node.version, file.value)];
      return None;
    }
  }

  method ResolveInstall(reg: Registry, slug: string) returns (r: Result<seq<Item>, Failure>)
    ensures r == Resolve(reg, slug)
    ensures r.Ok? ==> forall ref :: Has(r.value, ref) <==> Reaches(reg, slug, slug, ref) && Usable(reg, slug, ref)
    ensures r.Ok? ==> forall i :: 0 <= i < |r.value| ==> ItemOk(reg, slug, r.value[i])
  {
    var resolution := new Resolution(reg);
    var failure := resolution.Enter(slug, true);
    r := if failure.Some? then Err(failure.value) else Ok(resolution.resolved);
    if r.Ok? {
      ResolvedAreReachable(reg, slug);
    }
  }
}
