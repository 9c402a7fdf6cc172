/** Which files of a server pack belong to installed mods: every installed root mod lists the artifacts it
    brought along, and `orphans` are dependency files whose last root was removed without cleaning up
    (server-pack.service.ts). */
module ModOwnership {
  import opened Base

  datatype Artifact = Artifact(projectId: string, path: string, root: bool)

  datatype Root = Root(projectId: string, slug: string, artifacts: seq<Artifact>)

  /** The stored ownership file; `roots` is an object keyed by project id, in insertion order. */
  datatype Ownership = Ownership(roots: seq<Root>, orphans: seq<string>)

  datatype Mod = Mod(projectId: string, slug: string, filename: string)

  /** The stored ownership and the files of the workspace. */
  datatype Pack = Pack(own: Ownership, files: set<string>)

  /** The environment of one call: paths whose removal fails otherwise than by being absent, and whether
      the ownership file can be written. */
  datatype Faults = Faults(paths: set<string>, write: bool)

  const NO_FAULTS := Faults({}, false)

  // ---------- paths ----------

  function Artifacts(roots: seq<Root>): (r: seq<Artifact>)
    ensures forall a :: a in r <==> exists root <- roots :: a in root.artifacts
  {
    if roots == [] then []
    else
      assert roots == [roots[0]] + roots[1..];
      roots[0].artifacts + Artifacts(roots[1..])
  }

  function Owned(roots: seq<Root>): set<string> {
    set a <- Artifacts(roots) :: a.path
  }

  /** Every path the ownership file knows of. */
  function Tracked(own: Ownership): set<string> {
    Owned(own.roots) + set p <- own.orphans
  }

  predicate Matches(root: Root, mod: Mod) {
    root.projectId == mod.projectId || root.slug == mod.slug
  }

  /** The roots that match (`want`), or those that do not. */
  function Select(roots: seq<Root>, mod: Mod, want: bool): (r: seq<Root>)
    ensures forall x :: x in r <==> x in roots && Matches(x, mod) == want
  {
    if roots == [] then []
    else
      assert roots == [roots[0]] + roots[1..];
      (if Matches(roots[0], mod) == want then [roots[0]] else []) + Select(roots[1..], mod, want)
  }

  datatype Kind = RootsOnly | DependenciesOnly | Any

  predicate Wanted(a: Artifact, kind: Kind) {
    kind == Any || a.root == kind.RootsOnly?
  }

  /** The paths of the artifacts of a kind that are not retained. */
  function Pick(artifacts: seq<Artifact>, retained: set<string>, kind: Kind): (r: seq<string>)
    ensures forall p :: p in r <==> p !in retained && exists a <- artifacts :: a.path == p && Wanted(a, kind)
  {
    if artifacts == [] then []
    else
      assert artifacts == [artifacts[0]] + artifacts[1..];
      (if Wanted(artifacts[0], kind) && artifacts[0].path !in retained then [artifacts[0].path] else [])
        + Pick(artifacts[1..], retained, kind)
  }

  function Without(paths: seq<string>, gone: set<string>): (r: seq<string>)
    ensures forall p :: p in r <==> p in paths && p !in gone
  {
    if paths == [] then []
    else
      assert paths == [paths[0]] + paths[1..];
      (if paths[0] in gone then [] else [paths[0]]) + Without(paths[1..], gone)
  }

  /** Adding to a set that remembers insertion order. */
  function Add(s: seq<string>, p: string): seq<string> {
    if p in s then s else s + [p]
  }

  function AddAll(s: seq<string>, more: seq<string>): (r: seq<string>)
    ensures forall p :: p in r <==> p in s || p in more
    ensures Distinct(s) ==> Distinct(r)
    decreases |more|
  {
    if more == [] then s
    else
      assert more == [more[0]] + more[1..];
      AddAll(Add(s, more[0]), more[1..])
  }

  // ---------- removing a mod ----------

  function WithoutSuffix(name: string, suffix: string): string {
    if |name| >= |suffix| && name[|name| - |suffix|..] == suffix then name[..|name| - |suffix|] else name
  }

  /** The file a mod that no root accounts for would have. */
  function FallbackPath(mod: Mod): string {
    "mods/" + WithoutSuffix(mod.filename, ".disabled")
  }

  predicate Referenced(roots: seq<Root>, mod: Mod) {
    exists a <- Artifacts(roots) :: a.projectId == mod.projectId || a.path == FallbackPath(mod)
  }

  /** The files to delete, in order. */
  function Deletions(own: Ownership, mod: Mod, cleanUp: bool): seq<string> {
    var matching := Select(own.roots, mod, true);
    var retained := Owned(Select(own.roots, mod, false));
    var first := AddAll([], Pick(Artifacts(matching), retained, RootsOnly));
    var second :=
      if cleanUp then AddAll(AddAll(first, Without(own.orphans, retained)), Pick(Artifacts(matching), retained, Any))
      else first;
    if matching == [] && !Referenced(own.roots, mod) then Add(second, FallbackPath(mod)) else second
  }

  /** The ownership that is written when a root matched. */
  function Released(own: Ownership, mod: Mod, cleanUp: bool): Ownership {
    var kept := Select(own.roots, mod, false);
    Ownership(kept,
              if cleanUp then []
              else AddAll([], own.orphans + Pick(Artifacts(Select(own.roots, mod, true)), Owned(kept),
                                                 DependenciesOnly)))
  }

  /** The path comes before everything that cannot be deleted. */
  ghost predicate Gets(paths: seq<string>, faulty: set<string>, p: string) {
    exists i :: 0 <= i < |paths| && paths[i] == p && forall j :: 0 <= j <= i ==> paths[j] !in faulty
  }

  datatype Sweep = Sweep(files: set<string>, removed: seq<string>, failed: bool)

  /** Deleting the paths one by one; an absent file is passed over, any other failure ends it. */
  function Swept(files: set<string>, paths: seq<string>, faulty: set<string>): (r: Sweep)
    ensures r.files == files - (set p <- r.removed)
    ensures forall p <- r.removed :: p in files && p in paths
    ensures !r.failed ==> r.files == files - set p <- paths
    decreases |paths|
  {
    if paths == [] then Sweep(files, [], false)
    else if paths[0] in faulty then Sweep(files, [], true)
    else if paths[0] !in files then Swept(files, paths[1..], faulty)
    else
      var rest := Swept(files - {paths[0]}, paths[1..], faulty);
      rest.(removed := [paths[0]] + rest.removed)
  }

  datatype Removal = Removal(pack: Pack, removed: seq<string>, failed: bool)

  function Remove(pack: Pack, mod: Mod, cleanUp: bool, faults: Faults): Removal {
    var sweep := Swept(pack.files, Deletions(pack.own, mod, cleanUp), faults.paths);
    if sweep.failed then Removal(Pack(pack.own, sweep.files), sweep.removed, true)
    else if Select(pack.own.roots, mod, true) == [] then Removal(Pack(pack.own, sweep.files), sweep.removed, false)
    else if faults.write then Removal(Pack(pack.own, sweep.files), sweep.removed, true)
    else Removal(Pack(Released(pack.own, mod, cleanUp), sweep.files), sweep.removed, false)
  }

  // ---------- installing mods ----------

  /** An object has one entry for a key. */
  ghost predicate Keyed(roots: seq<Root>) {
    forall i, j :: 0 <= i < j < |roots| ==> roots[i].projectId != roots[j].projectId
  }

  /** `roots[projectId] = root` */
  function SetRoot(roots: seq<Root>, root: Root): (r: seq<Root>)
    ensures Keyed(roots) ==> Keyed(r)
    ensures Keyed(roots) ==> forall x :: x in r <==> x == root || (x in roots && x.projectId != root.projectId)
  {
    if roots == [] then [root]
    else
      assert roots == [roots[0]] + roots[1..];
      assert Keyed(roots) ==> forall x <- roots[1..] :: x.projectId != roots[0].projectId;
      if roots[0].projectId == root.projectId then [root] + roots[1..]
      else
        var rest := SetRoot(roots[1..], root);
        assert Keyed(roots) ==> forall x <- rest :: x.projectId != roots[0].projectId;
        [roots[0]] + rest
  }

  /** The resolved roots, one for a project: a later one replaces an earlier one. */
  function ByProject(resolved: seq<Root>): (r: seq<Root>)
    ensures Keyed(r)
  {
    if resolved == [] then []
    else
      var n := |resolved| - 1;
      SetRoot(ByProject(resolved[..n]), resolved[n])
  }

  /** A key keeps its place. */
  lemma {:induction false} SetRootKeepsPlaces(roots: seq<Root>, root: Root, i: nat)
    requires Keyed(roots) && i < |roots|
    ensures var r := SetRoot(roots, root);
            && |r| >= |roots| && r[i] == (if roots[i].projectId == root.projectId then root else roots[i])
            && ((forall x <- roots :: x.projectId != root.projectId) ==> r == roots + [root])
  {
    if i > 0 {
      assert roots[1..][i - 1] == roots[i];
    }
    if roots[0].projectId != root.projectId && |roots| > 1 {
      SetRootKeepsPlaces(roots[1..], root, if i > 0 then i - 1 else 0);
      assert roots == [roots[0]] + roots[1..];
    }
  }

  /** One installed root takes its entry, and its paths stop being orphans. */
  function Take(own: Ownership, root: Root): Ownership {
    Ownership(SetRoot(own.roots, root), Without(own.orphans, set a <- root.artifacts :: a.path))
  }

  function TakeAll(own: Ownership, roots: seq<Root>): (r: Ownership)
    ensures Keyed(own.roots) ==> Keyed(r.roots)
    decreases |roots|
  {
    if roots == [] then own else TakeAll(Take(own, roots[0]), roots[1..])
  }

  /** The ownership part of `installMods`, once every file is in place. */
  function Install(own: Ownership, resolved: seq<Root>): Ownership {
    TakeAll(own, ByProject(resolved))
  }

  // ---------- one removal ----------

  /** A matching root lists the path, as its own file or as a dependency's. */
  ghost predicate Listed(own: Ownership, mod: Mod, p: string, asRoot: bool) {
    exists root <- own.roots, a <- root.artifacts :: Matches(root, mod) && a.root == asRoot && a.path == p
  }

  /** The file of a mod that no root accounts for: its file name, without `.disabled` at the end. */
  ghost predicate IsFallback(p: string, mod: Mod) {
    exists base: string :: p == "mods/" + base &&
      (mod.filename == base + ".disabled"
       || (mod.filename == base && forall name: string :: base != name + ".disabled"))
  }

  lemma FallbackIsOne(p: string, mod: Mod)
    ensures IsFallback(p, mod) <==> p == FallbackPath(mod)
  {
    var name, suffix := mod.filename, ".disabled";
    var ends := |name| >= |suffix| && name[|name| - |suffix|..] == suffix;
    var base := if ends then name[..|name| - |suffix|] else name;
    assert FallbackPath(mod) == "mods/" + base;
    assert ends ==> base + suffix == name;
    forall other: string | name == other + suffix ensures ends && other == base {
      assert (other + suffix)[|other|..] == suffix && (other + suffix)[..|other|] == other;
    }
  }

  lemma ReferencedExactly(roots: seq<Root>, mod: Mod)
    ensures Referenced(roots, mod) <==>
            exists root <- roots, a <- root.artifacts :: a.projectId == mod.projectId || a.path == FallbackPath(mod)
  {
    hide FallbackPath;
    if Referenced(roots, mod) {
      var a :| a in Artifacts(roots) && (a.projectId == mod.projectId || a.path == FallbackPath(mod));
      assert exists root <- roots :: a in root.artifacts;
    }
    if root, a :|
      root in roots && a in root.artifacts && (a.projectId == mod.projectId || a.path == FallbackPath(mod))
    {
      assert a in Artifacts(roots);
    }
  }

  /** Which files a removal deletes. */
  lemma {:induction false} DeletionsExactly(own: Ownership, mod: Mod, cleanUp: bool, p: string)
    ensures p in Deletions(own, mod, cleanUp) <==>
              || (p !in Owned(Select(own.roots, mod, false)) &&
                    (Listed(own, mod, p, true) || (cleanUp && (p in own.orphans || Listed(own, mod, p, false)))))
              || (IsFallback(p, mod) && (forall root <- own.roots :: !Matches(root, mod))
                  && forall root <- own.roots, a <- root.artifacts :: a.projectId != mod.projectId && a.path != p)
  {
    FallbackIsOne(p, mod);
    ReferencedExactly(own.roots, mod);
    hide FallbackPath;
    hide IsFallback;
    hide Referenced;
    hide Select;
    hide Artifacts;
    hide Pick;
    hide AddAll;
    hide Without;
    var matching := Select(own.roots, mod, true);
    if matching == [] {
      assert forall root <- own.roots :: Matches(root, mod) ==> root in matching;
    } else {
      assert matching[0] in matching;
    }
  }

  /** No file a surviving root lists is ever deleted, whatever goes wrong. */
  lemma RetainedFilesSurvive(pack: Pack, mod: Mod, cleanUp: bool, faults: Faults, root: Root, a: Artifact)
    requires root in pack.own.roots && !Matches(root, mod) && a in root.artifacts
    ensures a.path in pack.files ==> a.path in Remove(pack, mod, cleanUp, faults).pack.files
  {
    DeletionsExactly(pack.own, mod, cleanUp, a.path);
    assert a in Artifacts(Select(pack.own.roots, mod, false)) && a in Artifacts(pack.own.roots);
  }

  /** Conservation: when a root matches, what was tracked is what is still tracked and what was deleted. */
  lemma TrackedIsKeptOrDeleted(own: Ownership, mod: Mod, cleanUp: bool)
    requires Select(own.roots, mod, true) != []
    ensures Tracked(own) == Tracked(Released(own, mod, cleanUp)) + set p <- Deletions(own, mod, cleanUp)
  {
    var after := Released(own, mod, cleanUp);
    var matching, kept := Select(own.roots, mod, true), Select(own.roots, mod, false);
    forall p ensures p in Tracked(own) <==> p in Tracked(after) || p in Deletions(own, mod, cleanUp) {
      DeletionsExactly(own, mod, cleanUp, p);
      if p in Owned(own.roots) {
        var a :| a in Artifacts(own.roots) && a.path == p;
        var root :| root in own.roots && a in root.artifacts;
        assert root in if Matches(root, mod) then matching else kept;
        assert Matches(root, mod) ==> a in Artifacts(matching);
        assert !Matches(root, mod) ==> a in Artifacts(kept);
      }
    }
  }

  ghost predicate OrphansUnowned(own: Ownership) {
    forall p <- own.orphans :: p !in Owned(own.roots)
  }

  /** What is tracked after a removal that found a root. */
  lemma ReleasedExactly(own: Ownership, mod: Mod, cleanUp: bool, p: string)
    ensures var kept := Owned(Select(own.roots, mod, false));
            p in Tracked(Released(own, mod, cleanUp)) <==>
              p in kept || (!cleanUp && (p in own.orphans || (p !in kept && Listed(own, mod, p, false))))
  {
    var matching := Select(own.roots, mod, true);
    if Listed(own, mod, p, false) {
      var root, a :| root in own.roots && a in root.artifacts && Matches(root, mod) && !a.root && a.path == p;
      assert root in matching && a in Artifacts(matching);
    }
  }

  lemma ListedIsOwned(own: Ownership, mod: Mod, p: string, asRoot: bool)
    requires Listed(own, mod, p, asRoot)
    ensures p in Owned(own.roots) && Select(own.roots, mod, true) != []
  {
    var root, a :| root in own.roots && a in root.artifacts && Matches(root, mod) && a.root == asRoot && a.path == p;
    assert a in Artifacts(own.roots) && root in Select(own.roots, mod, true);
  }

  /** A deleted path can stay tracked, as an orphan: exactly when nothing is cleaned up and the matching
      roots list the path both as a root's own file and as a dependency. */
  lemma DeletedButTrackedExactlyWhen(own: Ownership, mod: Mod, cleanUp: bool, p: string)
    requires (exists root <- own.roots :: Matches(root, mod)) && OrphansUnowned(own)
    ensures p in Deletions(own, mod, cleanUp) && p in Tracked(Released(own, mod, cleanUp)) <==>
              && !cleanUp && p !in Owned(Select(own.roots, mod, false))
              && Listed(own, mod, p, true) && Listed(own, mod, p, false)
  {
    DeletionsExactly(own, mod, cleanUp, p);
    ReleasedExactly(own, mod, cleanUp, p);
    if Listed(own, mod, p, true) {
      ListedIsOwned(own, mod, p, true);
    }
  }

  /** Two roots with the removed slug, one depending on the other's file. */
  lemma DeletedFileStaysAnOrphan()
    ensures exists own: Ownership, mod: Mod, p: string ::
              && Keyed(own.roots) && OrphansUnowned(own)
              && p in Deletions(own, mod, false) && p in Tracked(Released(own, mod, false))
  {
    hide Select;
    hide Artifacts;
    hide Deletions;
    hide Released;
    hide Tracked;
    var first, second := Root("A", "m", [Artifact("A", "mods/a", true)]),
        Root("B", "m", [Artifact("A", "mods/a", false)]);
    var own, mod, p := Ownership([first, second], []), Mod("A", "m", "a"), "mods/a";
    assert first.projectId[0] != second.projectId[0];
    assert own.roots[0] == first && own.roots[1] == second;
    assert Listed(own, mod, p, true) by {
      assert first in own.roots && first.artifacts[0] in first.artifacts && Matches(first, mod);
    }
    assert Listed(own, mod, p, false) by {
      assert second in own.roots && second.artifacts[0] in second.artifacts && Matches(second, mod);
    }
    NothingSelected(own.roots, mod);
    NothingOwned();
    DeletionsExactly(own, mod, false, p);
    ReleasedExactly(own, mod, false, p);
    assert Keyed(own.roots) && OrphansUnowned(own);
  }

  lemma NothingOwned()
    ensures Owned([]) == {}
  {
  }

  // ---------- one installation ----------

  ghost predicate LastOfProject(resolved: seq<Root>, i: nat)
    requires i < |resolved|
  {
    forall j :: i < j < |resolved| ==> resolved[j].projectId != resolved[i].projectId
  }

  /** Of several resolved roots for one project the last counts. */
  lemma LastResolvedCounts(resolved: seq<Root>, x: Root)
    ensures x in ByProject(resolved) <==>
            exists i :: 0 <= i < |resolved| && LastOfProject(resolved, i) && resolved[i] == x
  {
    if x in ByProject(resolved) {
      var _ := LastPlace(resolved, x);
    }
    forall i | 0 <= i < |resolved| && LastOfProject(resolved, i) ensures resolved[i] in ByProject(resolved) {
      LastIsKept(resolved, i);
    }
  }

  lemma ByProjectStep(front: seq<Root>, last: Root, x: Root)
    ensures x in ByProject(front + [last]) <==> x == last || (x in ByProject(front) && x.projectId != last.projectId)
  {
    assert (front + [last])[..|front|] == front;
  }

  lemma LastExtends(front: seq<Root>, last: Root, i: nat)
    requires i < |front|
    ensures LastOfProject(front + [last], i) <==> LastOfProject(front, i) && last.projectId != front[i].projectId
  {
    var all := front + [last];
    assert forall j :: 0 <= j < |front| ==> all[j] == front[j];
    assert all[|front|] == last;
  }

  lemma {:induction false} LastPlace(resolved: seq<Root>, x: Root) returns (i: nat)
    requires x in ByProject(resolved)
    ensures i < |resolved| && LastOfProject(resolved, i) && resolved[i] == x
  {
    var front, last := resolved[..|resolved| - 1], resolved[|resolved| - 1];
    assert resolved == front + [last];
    ByProjectStep(front, last, x);
    hide ByProject;
    if x == last {
      i := |front|;
    } else {
      i := LastPlace(front, x);
      LastExtends(front, last, i);
    }
  }

  lemma {:induction false} LastIsKept(resolved: seq<Root>, i: nat)
    requires i < |resolved| && LastOfProject(resolved, i)
    ensures resolved[i] in ByProject(resolved)
  {
    hide ByProject;
    hide LastOfProject;
    var front, last := resolved[..|resolved| - 1], resolved[|resolved| - 1];
    assert resolved == front + [last];
    ByProjectStep(front, last, resolved[i]);
    if i < |front| {
      LastExtends(front, last, i);
      LastIsKept(front, i);
    }
  }

  lemma {:induction false} TakeAllExactly(own: Ownership, roots: seq<Root>, x: Root, p: string)
    requires Keyed(own.roots) && Keyed(roots)
    ensures var after := TakeAll(own, roots);
            && (x in after.roots <==> x in roots || (x in own.roots && forall y <- roots :: y.projectId != x.projectId))
            && (p in after.orphans <==> p in own.orphans && p !in Owned(roots))
    decreases |roots|
  {
    if roots != [] {
      assert roots == [roots[0]] + roots[1..];
      assert forall y <- roots[1..] :: y.projectId != roots[0].projectId;
      TakeAllExactly(Take(own, roots[0]), roots[1..], x, p);
      assert Owned(roots) == (set a <- roots[0].artifacts :: a.path) + Owned(roots[1..]);
    }
  }

  /** A root that no resolved root replaces and that lists the path. */
  ghost predicate KeptOwner(own: Ownership, resolved: seq<Root>, p: string) {
    exists root <- own.roots, a <- root.artifacts :: a.path == p
        && forall y <- resolved :: y.projectId != root.projectId
  }

  lemma {:induction false} ResolvedIds(resolved: seq<Root>, id: string)
    ensures (exists y <- ByProject(resolved) :: y.projectId == id) <==> exists y <- resolved :: y.projectId == id
  {
    if resolved != [] {
      var n := |resolved| - 1;
      assert resolved == resolved[..n] + [resolved[n]];
      ResolvedIds(resolved[..n], id);
      assert resolved[n] in ByProject(resolved);
      if resolved[n].projectId != id {
        assert forall y: Root :: y.projectId == id ==> (y in ByProject(resolved) <==> y in ByProject(resolved[..n]));
      }
    }
  }

  lemma OwnedAfterInstall(own: Ownership, resolved: seq<Root>, p: string)
    requires Keyed(own.roots)
    ensures p in Owned(Install(own, resolved).roots) <==> p in Owned(ByProject(resolved)) || KeptOwner(own, resolved, p)
  {
    var roots, after := ByProject(resolved), Install(own, resolved);
    if p in Owned(after.roots) {
      var a :| a in Artifacts(after.roots) && a.path == p;
      var x :| x in after.roots && a in x.artifacts;
      TakeAllExactly(own, roots, x, p);
      ResolvedIds(resolved, x.projectId);
      assert x in roots ==> a in Artifacts(roots);
    }
    if p in Owned(roots) {
      var a :| a in Artifacts(roots) && a.path == p;
      var x :| x in roots && a in x.artifacts;
      TakeAllExactly(own, roots, x, p);
      assert a in Artifacts(after.roots);
    }
    if KeptOwner(own, resolved, p) {
      var x, a :| x in own.roots && a in x.artifacts && a.path == p
          && forall y <- resolved :: y.projectId != x.projectId;
      TakeAllExactly(own, roots, x, p);
      ResolvedIds(resolved, x.projectId);
      assert a in Artifacts(after.roots);
    }
  }

  /** An installation forgets a path exactly when only replaced roots list it and no new one does; the file
      stays. */
  lemma InstallForgetsExactly(own: Ownership, resolved: seq<Root>, p: string)
    requires Keyed(own.roots) && p in Tracked(own)
    ensures p !in Tracked(Install(own, resolved)) <==>
              p !in own.orphans && p !in Owned(ByProject(resolved)) && !KeptOwner(own, resolved, p)
  {
    OwnedAfterInstall(own, resolved, p);
    TakeAllExactly(own, ByProject(resolved), Root("", "", []), p);
  }

  /** What a sweep does: it stops at the first path that cannot be deleted, and until then deletes what is there. */
  lemma {:induction false} SweptExactly(files: set<string>, paths: seq<string>, faulty: set<string>, p: string)
    ensures var s := Swept(files, paths, faulty);
            && s.files == files - (set x <- s.removed) && Distinct(s.removed)
            && (s.failed <==> exists x <- paths :: x in faulty)
            && (p in s.removed <==> p in files && Gets(paths, faulty, p))
    decreases |paths|
  {
    if paths != [] {
      var head, rest := paths[0], paths[1..];
      assert paths == [head] + rest;
      SweptExactly(files, rest, faulty, p);
      SweptExactly(files - {head}, rest, faulty, p);
      GetsLater(paths, faulty, p);
    }
  }

  lemma GetsLater(paths: seq<string>, faulty: set<string>, p: string)
    requires paths != []
    ensures Gets(paths, faulty, p) <==> paths[0] !in faulty && (p == paths[0] || Gets(paths[1..], faulty, p))
  {
    if Gets(paths, faulty, p) {
      var i :| 0 <= i < |paths| && paths[i] == p && forall j :: 0 <= j <= i ==> paths[j] !in faulty;
      if i > 0 {
        assert paths[1..][i - 1] == p;
        forall j | 0 <= j <= i - 1 ensures paths[1..][j] !in faulty {
          assert paths[1..][j] == paths[j + 1];
        }
      }
    }
    if paths[0] !in faulty && Gets(paths[1..], faulty, p) {
      var i :| 0 <= i < |paths[1..]| && paths[1..][i] == p && forall j :: 0 <= j <= i ==> paths[1..][j] !in faulty;
      assert paths[i + 1] == p;
      forall j | 0 <= j <= i + 1 ensures paths[j] !in faulty {
        if j > 0 {
          assert paths[1..][j - 1] == paths[j];
        }
      }
    }
  }

  /** A whole removal: it reports what it deleted, fails exactly if a file cannot be deleted or the ownership
      cannot be written, and changes the ownership only if it does not fail and a root matches. */
  lemma RemovalExactly(pack: Pack, mod: Mod, cleanUp: bool, faults: Faults, p: string)
    ensures var r := Remove(pack, mod, cleanUp, faults);
            var paths := Deletions(pack.own, mod, cleanUp);
            var matches := exists root <- pack.own.roots :: Matches(root, mod);
            && r.pack.files == pack.files - (set x <- r.removed)
            && (p in r.removed <==> p in pack.files && Gets(paths, faults.paths, p))
            && (r.failed <==> (exists x <- paths :: x in faults.paths) || (matches && faults.write))
            && r.pack.own == (if matches && !r.failed then Released(pack.own, mod, cleanUp) else pack.own)
  {
    hide Swept;
    hide Deletions;
    hide Released;
    SweptExactly(pack.files, Deletions(pack.own, mod, cleanUp), faults.paths, p);
    var matching := Select(pack.own.roots, mod, true);
    assert matching != [] ==> matching[0] in matching;
    assert forall root <- pack.own.roots :: Matches(root, mod) ==> root in matching;
  }

  // ---------- sequences of installs and removals ----------

  datatype Call =
    | InstallCall(resolved: seq<Root>, written: set<string>, fails: bool)
    | RemoveCall(mod: Mod, cleanUp: bool, faults: Faults)

  /** `written`: the files the download part has put in place, all of them unless it fails. */
  function After(pack: Pack, call: Call): Pack {
    match call
    case InstallCall(resolved, written, fails) =>
      Pack(if fails then pack.own else Install(pack.own, resolved), pack.files + written)
    case RemoveCall(mod, cleanUp, faults) => Remove(pack, mod, cleanUp, faults).pack
  }

  /** A call that fails leaves the ownership as it was. */
  lemma FailedCallsKeepOwnership(pack: Pack, call: Call)
    requires if call.InstallCall? then call.fails
             else Remove(pack, call.mod, call.cleanUp, call.faults).failed
    ensures After(pack, call).own == pack.own
  {
    if call.RemoveCall? {
      RemovalExactly(pack, call.mod, call.cleanUp, call.faults, "");
    }
  }

  lemma {:induction false} SelectKeyed(roots: seq<Root>, mod: Mod, want: bool)
    requires Keyed(roots)
    ensures Keyed(Select(roots, mod, want))
  {
    if roots != [] {
      SelectKeyed(roots[1..], mod, want);
      assert forall x <- roots[1..] :: x.projectId != roots[0].projectId;
    }
  }

  lemma TakeKeeps(own: Ownership, root: Root)
    requires Keyed(own.roots) && OrphansUnowned(own)
    ensures OrphansUnowned(Take(own, root))
  {
    var after := Take(own, root);
    forall p | p in after.orphans ensures p !in Owned(after.roots) {
      forall a | a in Artifacts(after.roots) ensures a.path != p {
        var x :| x in after.roots && a in x.artifacts;
        if x != root {
          assert x in own.roots && a in Artifacts(own.roots);
        }
      }
    }
  }

  lemma {:induction false} TakeAllKeeps(own: Ownership, roots: seq<Root>)
    requires Keyed(own.roots) && OrphansUnowned(own)
    ensures OrphansUnowned(TakeAll(own, roots))
    decreases |roots|
  {
    if roots != [] {
      TakeKeeps(own, roots[0]);
      TakeAllKeeps(Take(own, roots[0]), roots[1..]);
    }
  }

  lemma ReleasedKeeps(own: Ownership, mod: Mod, cleanUp: bool)
    requires Keyed(own.roots) && OrphansUnowned(own)
    ensures Keyed(Released(own, mod, cleanUp).roots) && OrphansUnowned(Released(own, mod, cleanUp))
  {
    SelectKeyed(own.roots, mod, false);
    var after := Released(own, mod, cleanUp);
    forall p | p in after.orphans ensures p !in Owned(after.roots) {
      forall a | a in Artifacts(after.roots) ensures a in Artifacts(own.roots) {
      }
    }
  }

  /** Any calls, one after another, on an ownership file that is in order at the start. */
  ghost predicate IsHistory(packs: seq<Pack>, calls: seq<Call>) {
    && |packs| == |calls| + 1
    && Keyed(packs[0].own.roots) && OrphansUnowned(packs[0].own)
    && forall i :: 0 <= i < |calls| ==> packs[i + 1] == After(packs[i], calls[i])
  }

  /** Orphans and owned paths stay disjoint under every sequence of installs and removals, failed ones
      included. */
  lemma {:induction false} OrphansStayUnowned(packs: seq<Pack>, calls: seq<Call>, i: nat)
    requires IsHistory(packs, calls) && i < |packs|
    ensures Keyed(packs[i].own.roots) && OrphansUnowned(packs[i].own)
  {
    hide Tracked;
    hide Swept;
    hide Deletions;
    hide Released;
    hide TakeAll;
    hide ByProject;
    hide OrphansUnowned;
    hide Keyed;
    if i > 0 {
      OrphansStayUnowned(packs, calls, i - 1);
      var own := packs[i - 1].own;
      match calls[i - 1] {
        case InstallCall(resolved, _, _) => TakeAllKeeps(own, ByProject(resolved));
        case RemoveCall(mod, cleanUp, _) => ReleasedKeeps(own, mod, cleanUp);
      }
    }
  }

  lemma RemovalLeavesTracked(pack: Pack, mod: Mod, cleanUp: bool, faults: Faults, p: string)
    ensures var after := Remove(pack, mod, cleanUp, faults).pack;
            after.files <= pack.files && (p in Tracked(pack.own) && p in after.files ==> p in Tracked(after.own))
  {
    if Select(pack.own.roots, mod, true) != [] {
      TrackedIsKeptOrDeleted(pack.own, mod, cleanUp);
    }
  }

  /** Through any removals, failed ones included, a tracked file that is still there is still tracked. */
  lemma {:induction false} LeftoversAreTracked(packs: seq<Pack>, calls: seq<Call>, i: nat, p: string)
    requires IsHistory(packs, calls) && i < |packs| && forall call <- calls :: call.RemoveCall?
    requires p in Tracked(packs[0].own)
    ensures packs[i].files <= packs[0].files && (p in packs[i].files ==> p in Tracked(packs[i].own))
  {
    hide Tracked;
    hide Remove;
    hide OrphansUnowned;
    hide Keyed;
    if i > 0 {
      LeftoversAreTracked(packs, calls, i - 1, p);
      var call := calls[i - 1];
      RemovalLeavesTracked(packs[i - 1], call.mod, call.cleanUp, call.faults, p);
    }
  }

  lemma {:induction false} NothingSelected(roots: seq<Root>, mod: Mod)
    requires forall root <- roots :: Matches(root, mod)
    ensures Select(roots, mod, false) == []
  {
    if roots != [] {
      NothingSelected(roots[1..], mod);
    }
  }

  /** Removing every root, cleaning up with the last one, deletes every file that was ever tracked at the
      start, however the removals before went. */
  lemma RemovingAllDeletesAll(packs: seq<Pack>, calls: seq<Call>)
    requires IsHistory(packs, calls) && calls != [] && forall call <- calls :: call.RemoveCall?
    requires var pack, call := packs[|calls| - 1], calls[|calls| - 1];
             && call.cleanUp && !Remove(pack, call.mod, true, call.faults).failed
             && pack.own.roots != [] && forall root <- pack.own.roots :: Matches(root, call.mod)
    ensures var end := packs[|calls|]; Tracked(end.own) == {} && end.files !! Tracked(packs[0].own)
  {
    var n := |calls|;
    var own, mod := packs[n - 1].own, calls[n - 1].mod;
    assert own.roots[0] in own.roots && own.roots[0] in Select(own.roots, mod, true);
    assert packs[n].own == Released(own, mod, true);
    assert Artifacts(packs[n].own.roots) == [] by {
      NothingSelected(own.roots, mod);
    }
    forall p | p in Tracked(packs[0].own) ensures p !in packs[n].files {
      LeftoversAreTracked(packs, calls, n, p);
    }
  }

  /** A removal that failed can be repeated: without faults the second attempt ends where an undisturbed
      first one would have. */
  lemma RetryCompletes(pack: Pack, mod: Mod, cleanUp: bool, faults: Faults)
    requires Remove(pack, mod, cleanUp, faults).failed
    ensures Remove(Remove(pack, mod, cleanUp, faults).pack, mod, cleanUp, NO_FAULTS).pack
            == Remove(pack, mod, cleanUp, NO_FAULTS).pack
  {
    var paths := Deletions(pack.own, mod, cleanUp);
    var first := Swept(pack.files, paths, faults.paths);
    SweepNeverFails(pack.files, paths);
    SweepNeverFails(first.files, paths);
    assert first.files - (set p <- paths) == pack.files - set p <- paths;
  }

  lemma {:induction false} SweepNeverFails(files: set<string>, paths: seq<string>)
    ensures !Swept(files, paths, {}).failed
    decreases |paths|
  {
    if paths != [] {
      SweepNeverFails(if paths[0] in files then files - {paths[0]} else files, paths[1..]);
    }
  }

  // ---------- the methods of the service ----------

  /** One round of the deletion. */
  lemma SweptFrom(files: set<string>, paths: seq<string>, i: nat, faulty: set<string>)
    requires i < |paths|
    ensures var p, all := paths[i], Swept(files, paths[i..], faulty);
            && (p in faulty ==>
                  all == Sweep(files, [], true) && forall removed: seq<string> :: removed + all.removed == removed)
            && (p !in faulty && p !in files ==> all == Swept(files, paths[i + 1..], faulty))
            && (p !in faulty && p in files ==>
                  var rest := Swept(files - {p}, paths[i + 1..], faulty);
                  && all.files == rest.files && all.failed == rest.failed
                  && forall removed: seq<string> :: removed + all.removed == (removed + [p]) + rest.removed)
  {
    assert paths[i..][0] == paths[i] && paths[i..][1..] == paths[i + 1..];
  }

  lemma SweptNothing(files: set<string>, faulty: set<string>)
    ensures Swept(files, [], faulty) == Sweep(files, [], false)
    ensures forall removed: seq<string> :: removed + Swept(files, [], faulty).removed == removed
  {
  }

  lemma PickFrom(artifacts: seq<Artifact>, i: nat, retained: set<string>, kind: Kind)
    requires i < |artifacts|
    ensures var rest := Pick(artifacts[i + 1..], retained, kind);
            Pick(artifacts[i..], retained, kind) ==
            if Wanted(artifacts[i], kind) && artifacts[i].path !in retained then [artifacts[i].path] + rest else rest
  {
    assert artifacts[i..][1..] == artifacts[i + 1..];
  }

  lemma WithoutFrom(paths: seq<string>, i: nat, gone: set<string>)
    requires i < |paths|
    ensures var rest := Without(paths[i + 1..], gone);
            Without(paths[i..], gone) == if paths[i] in gone then rest else [paths[i]] + rest
  {
    assert paths[i..][1..] == paths[i + 1..];
  }

  lemma AddFirst(s: seq<string>, p: string, rest: seq<string>)
    ensures AddAll(s, [p] + rest) == AddAll(Add(s, p), rest)
  {
    assert ([p] + rest)[1..] == rest;
  }

  class ServerMods {
    var own: Ownership
    var files: set<string>

    ghost function State(): Pack
      reads this
    {
      Pack(own, files)
    }

    constructor (own: Ownership, files: set<string>)
      ensures State() == Pack(own, files)
    {
      this.own, this.files := own, files;
    }

    /** The paths of `artifacts`, added to a set one by one. */
    static method PathSet(artifacts: seq<Artifact>) returns (r: set<string>)
      ensures r == set a <- artifacts :: a.path
    {
      r := {};
      for i := 0 to |artifacts|
        invariant r == set a <- artifacts[..i] :: a.path
      {
        assert artifacts[..i + 1] == artifacts[..i] + [artifacts[i]];
        r := r + {artifacts[i].path};
      }
      assert artifacts[..|artifacts|] == artifacts;
    }

    /** `removeFile` for each path in turn; an absent file is ignored. */
    method DeleteFiles(paths: seq<string>, faulty: set<string>) returns (removed: seq<string>, failed: bool)
      modifies this`files
      ensures Sweep(files, removed, failed) == Swept(old(files), paths, faulty)
    {
      removed, failed := [], false;
      ghost var goal := Swept(files, paths, faulty);
      assert paths[0..] == paths;
      assert goal.(removed := [] + goal.removed) == goal;
      hide Swept;
      for i := 0 to |paths|
        invariant Swept(files, paths[i..], faulty).files == goal.files
        invariant Swept(files, paths[i..], faulty).failed == goal.failed
        invariant removed + Swept(files, paths[i..], faulty).removed == goal.removed
      {
        SweptFrom(files, paths, i, faulty);
        if paths[i] in faulty {
          failed := true;
          return;
        }
        if paths[i] in files {
          files := files - {paths[i]};
          removed := removed + [paths[i]];
        }
      }
      SweptNothing(files, faulty);
      assert paths[|paths|..] == [];
    }

    /** Adds the paths of the artifacts of a kind, the retained ones excepted. */
    static method AddPicked(paths: seq<string>, artifacts: seq<Artifact>, retained: set<string>, kind: Kind)
      returns (r: seq<string>)
      ensures r == AddAll(paths, Pick(artifacts, retained, kind))
    {
      r := paths;
      for i := 0 to |artifacts|
        invariant AddAll(r, Pick(artifacts[i..], retained, kind)) == AddAll(paths, Pick(artifacts, retained, kind))
      {
        PickFrom(artifacts, i, retained, kind);
        AddFirst(r, artifacts[i].path, Pick(artifacts[i + 1..], retained, kind));
        if Wanted(artifacts[i], kind) && artifacts[i].path !in retained {
          r := Add(r, artifacts[i].path);
        }
      }
    }

    /** Adds the paths that are not retained. */
    static method AddOthers(paths: seq<string>, candidates: seq<string>, retained: set<string>) returns (r: seq<string>)
      ensures r == AddAll(paths, Without(candidates, retained))
    {
      r := paths;
      for i := 0 to |candidates|
        invariant AddAll(r, Without(candidates[i..], retained)) == AddAll(paths, Without(candidates, retained))
      {
        WithoutFrom(candidates, i, retained);
        AddFirst(r, candidates[i], Without(candidates[i + 1..], retained));
        if candidates[i] !in retained {
          r := Add(r, candidates[i]);
        }
      }
    }

    method RemoveMod(mod: Mod, cleanUp: bool, faults: Faults) returns (removed: seq<string>, failed: bool)
      modifies this
      ensures Removal(State(), removed, failed) == Remove(old(State()), mod, cleanUp, faults)
    {
      var matching, kept := Select(own.roots, mod, true), Select(own.roots, mod, false);
      var retained := PathSet(Artifacts(kept));
      var paths := AddPicked([], Artifacts(matching), retained, RootsOnly);
      var orphans := [];
      if cleanUp {
        paths := AddOthers(paths, own.orphans, retained);
        paths := AddPicked(paths, Artifacts(matching), retained, Any);
      } else {
        orphans := AddAll([], own.orphans + Pick(Artifacts(matching), retained, DependenciesOnly));
      }
      if matching == [] && !Referenced(own.roots, mod) {
        paths := Add(paths, FallbackPath(mod));
      }
      removed, failed := DeleteFiles(paths, faults.paths);
      if !failed && matching != [] {
        if faults.write {
          failed := true;
        } else {
          own := Ownership(kept, orphans);
        }
      }
    }

    /** The ownership part of `installMods`. */
    method InstallMods(resolved: seq<Root>)
      modifies this`own
      ensures own == Install(old(own), resolved)
    {
      var resolvedRoots: seq<Root> := [];
      for i := 0 to |resolved|
        invariant resolvedRoots == ByProject(resolved[..i]) && own == old(own)
      {
        assert resolved[..i + 1][..i] == resolved[..i];
        resolvedRoots := SetRoot(resolvedRoots, resolved[i]);
      }
      assert resolved[..|resolved|] == resolved;
      var next := own;
      for i := 0 to |resolvedRoots|
        invariant own == old(own)
        invariant TakeAll(next, resolvedRoots[i..]) == TakeAll(own, resolvedRoots)
      {
        var root := resolvedRoots[i];
        assert resolvedRoots[i..][1..] == resolvedRoots[i + 1..];
        var installedPaths := PathSet(root.artifacts);
        next := Ownership(SetRoot(next.roots, root), Without(next.orphans, installedPaths));
      }
      own := next;
    }
  }
}
