/** Downloading Minecraft assets: several workers share one list of objects, and the asset index file is
    written only when every worker has returned (minecraft-assets.service.ts). Workers are interleaved at
    every await, and go on after another one has failed. */
module Assets {
  import opened Base

  const CONCURRENCY: nat := 6

  const MAX_ASSET: nat := 128 * 1024 * 1024

  /** What matters of a file: its size and its SHA-1. */
  datatype Content = Content(size: nat, hash: string)

  /** One value of the downloaded index with a well-formed hash and size. */
  datatype Object = Object(hash: string, size: nat)

  // ---------- the list of objects ----------

  ghost predicate DistinctHashes(objects: seq<Object>) {
    forall i, j :: 0 <= i < j < |objects| ==> objects[i].hash != objects[j].hash
  }

  /** Setting a key of a map that keeps insertion order. */
  function Put(objects: seq<Object>, o: Object): (r: seq<Object>)
    requires DistinctHashes(objects)
    ensures DistinctHashes(r) && forall x :: x in r <==> x == o || (x in objects && x.hash != o.hash)
  {
    if objects == [] then [o]
    else
      assert objects == [objects[0]] + objects[1..];
      assert forall x <- objects[1..] :: x.hash != objects[0].hash;
      if objects[0].hash == o.hash then [o] + objects[1..]
      else
        var rest := Put(objects[1..], o);
        assert forall x <- rest :: x.hash != objects[0].hash;
        [objects[0]] + rest
  }

  /** The objects to have, one for a hash; an invalid entry fails the whole call. */
  function Collect(entries: seq<Option<Object>>): (r: Option<seq<Object>>)
    ensures r.Some? <==> forall e <- entries :: e.Some? && e.value.size <= 134_217_728
    ensures r.Some? ==> DistinctHashes(r.value)
  {
    if entries == [] then Some([])
    else
      var n := |entries| - 1;
      assert entries == entries[..n] + [entries[n]];
      var front := Collect(entries[..n]);
      if front.None? || entries[n].None? || entries[n].value.size > MAX_ASSET then None
      else Some(Put(front.value, entries[n].value))
  }

  /** Every hash of the index is among the objects, with the size of its last entry. */
  lemma {:induction false} LastEntryCounts(entries: seq<Option<Object>>, x: Object)
    requires Collect(entries).Some?
    ensures x in Collect(entries).value <==>
              exists i :: 0 <= i < |entries| && entries[i] == Some(x) && LastOfHash(entries, i)
  {
    if entries != [] {
      var n := |entries| - 1;
      var front, last := entries[..n], entries[n].value;
      assert entries == front + [Some(last)];
      LastEntryCounts(front, x);
      if x == last {
        assert LastOfHash(entries, n);
      } else if x in Collect(front).value && x.hash != last.hash {
        var i :| 0 <= i < n && front[i] == Some(x) && LastOfHash(front, i);
        assert entries[i] == Some(x) && LastOfHash(entries, i) by {
          forall j | i < j < |entries| ensures HashAt(entries, j) != HashAt(entries, i) {
            assert j < n ==> HashAt(front, j) != HashAt(front, i);
          }
        }
      }
      if i :| 0 <= i < n && entries[i] == Some(x) && LastOfHash(entries, i) {
        assert front[i] == Some(x) && LastOfHash(front, i) by {
          forall j | i < j < n ensures HashAt(front, j) != HashAt(front, i) {
            assert HashAt(entries, j) != HashAt(entries, i);
          }
        }
        assert HashAt(entries, n) != HashAt(entries, i);
      }
    }
  }

  function HashAt(entries: seq<Option<Object>>, i: nat): Option<string>
    requires i < |entries|
  {
    if entries[i].None? then None else Some(entries[i].value.hash)
  }

  ghost predicate LastOfHash(entries: seq<Option<Object>>, i: nat)
    requires i < |entries|
  {
    forall j :: i < j < |entries| ==> HashAt(entries, j) != HashAt(entries, i)
  }

  // ---------- the workers ----------

  /** Where a worker is suspended, with the object it works on. */
  datatype Worker =
    | Ready
    | Checking(asset: Object)
    | Fetching(asset: Object)
    | Writing(asset: Object)
    | Done
    | Failed

  datatype Phase = Waiting | Writable | Committed | Rejected

  datatype Grab = Grab(worker: nat, asset: Object)

  /** `pool`: the shared list. `taken`, `counted`, `downloads`: which worker took what, which objects were
      finished, and how many files were downloaded (history). */
  datatype State = State(
    objects: seq<Object>, pool: seq<Object>, workers: seq<Worker>, completed: nat, reused: nat, reports: seq<int>,
    disk: map<string, Content>, index: bool, phase: Phase, aborted: bool,
    taken: seq<Grab>, counted: set<Object>, downloads: nat)

  datatype Step =
    | Take(i: nat)
    | Check(i: nat, throws: bool)
    | Fetch(i: nat, bytes: Option<Content>)
    | Write(i: nat, ok: bool)
    | Abort
    | Resolve
    | Reject
    | WriteIndex(ok: bool)

  function Real(n: nat): real {
    n as real
  }

  function Share(completed: nat, total: nat): real {
    Real(completed) / Real(if total == 0 then 1 else total)
  }

  /** The percentage of `completed` out of `total`, in the window of this part of the job. */
  function Percentage(completed: nat, total: nat): int {
    Min(85, 55 + (Share(completed, total) * 30.0).Floor)
  }

  function Start(objects: seq<Object>, disk: map<string, Content>): State {
    var n := Min(CONCURRENCY, if |objects| == 0 then 1 else |objects|);
    State(objects, objects, seq(n, i => Ready), 0, 0, [55], disk, false, Waiting, false, [], {}, 0)
  }

  predicate OnDisk(s: State, o: Object) {
    o.hash in s.disk && s.disk[o.hash] == Content(o.size, o.hash)
  }

  ghost predicate Enabled(s: State, step: Step) {
    match step
    case Take(i) => i < |s.workers| && s.workers[i].Ready?
    case Check(i, _) => i < |s.workers| && s.workers[i].Checking?
    case Fetch(i, _) => i < |s.workers| && s.workers[i].Fetching?
    case Write(i, _) => i < |s.workers| && s.workers[i].Writing?
    case Abort => true
    case Resolve => s.phase == Waiting && forall w <- s.workers :: w.Done?
    case Reject => s.phase == Waiting && exists w <- s.workers :: w.Failed?
    case WriteIndex(_) => s.phase == Writable
  }

  function Move(s: State, i: nat, w: Worker): State
    requires i < |s.workers|
  {
    s.(workers := s.workers[i := w])
  }

  /** An object is done: count it, and report every 25th and the last; reporting throws after an abort. */
  function Finish(s: State, i: nat, o: Object): State
    requires i < |s.workers|
  {
    var completed := s.completed + 1;
    var counted := s.(completed := completed, counted := s.counted + {o});
    if completed % 25 == 0 || completed == |s.objects| then
      if s.aborted then Move(counted, i, Failed)
      else Move(counted, i, Ready).(reports := s.reports + [Percentage(completed, |s.objects|)])
    else Move(counted, i, Ready)
  }

  function Next(s: State, step: Step): State
    requires Enabled(s, step)
  {
    match step
    case Take(i) =>
      if s.aborted then Move(s, i, Failed)
      else if s.pool == [] then Move(s, i, Done)
      else
        var last := |s.pool| - 1;
        Move(s, i, Checking(s.pool[last]))
          .(pool := s.pool[..last], taken := s.taken + [Grab(i, s.pool[last])])
    case Check(i, throws) =>
      var o := s.workers[i].asset;
      if throws then Move(s, i, Failed)
      else if OnDisk(s, o) then Finish(s.(reused := s.reused + 1), i, o)
      else Move(s, i, Fetching(o))
    case Fetch(i, bytes) =>
      var o := s.workers[i].asset;
      Move(s, i, if bytes == Some(Content(o.size, o.hash)) then Writing(o) else Failed)
    case Write(i, ok) =>
      var o := s.workers[i].asset;
      if ok then Finish(s.(disk := s.disk[o.hash := Content(o.size, o.hash)], downloads := s.downloads + 1), i, o)
      else Move(s, i, Failed)
    case Abort => s.(aborted := true)
    case Resolve => s.(phase := Writable)
    case Reject => s.(phase := Rejected)
    case WriteIndex(ok) => if ok then s.(phase := Committed, index := true) else s.(phase := Rejected)
  }

  // ---------- invariant ----------

  ghost predicate Holds(w: Worker, o: Object) {
    (w.Checking? || w.Fetching? || w.Writing?) && w.asset == o
  }

  ghost predicate PoolInv(s: State) {
    && DistinctHashes(s.objects) && s.workers != []
    && |s.taken| + |s.pool| == |s.objects| && s.pool == s.objects[..|s.pool|]
    && forall k :: 0 <= k < |s.taken| ==>
         s.taken[k].asset == s.objects[|s.objects| - 1 - k] && s.taken[k].worker < |s.workers|
  }

  /** Each object taken is counted, or its taker still holds it or has failed. */
  ghost predicate PlaceOk(s: State, k: nat)
    requires k < |s.taken| && s.taken[k].worker < |s.workers|
  {
    var w, o := s.workers[s.taken[k].worker], s.taken[k].asset;
    && (o in s.counted ==> OnDisk(s, o) && !Holds(w, o))
    && (o in s.counted || Holds(w, o) || w.Failed?)
  }

  ghost predicate WorkerOk(s: State, i: nat)
    requires i < |s.workers|
  {
    var w := s.workers[i];
    && (w.Checking? || w.Fetching? || w.Writing? ==> Grab(i, w.asset) in s.taken)
    && (w.Done? ==> s.pool == [])
  }

  ghost predicate PlacesOk(s: State) {
    forall k :: 0 <= k < |s.taken| ==> s.taken[k].worker < |s.workers| && PlaceOk(s, k)
  }

  ghost predicate WorkersOk(s: State) {
    forall i :: 0 <= i < |s.workers| ==> WorkerOk(s, i)
  }

  ghost predicate CountInv(s: State) {
    && s.counted <= TakenAssets(s.taken)
    && |s.counted| == s.completed && s.reused + s.downloads == s.completed
  }

  ghost predicate PhaseInv(s: State) {
    && (s.index <==> s.phase.Committed?)
    && (s.phase.Writable? || s.phase.Committed? ==> forall w <- s.workers :: w.Done?)
  }

  ghost predicate ReportInv(s: State) {
    && s.reports != [] && s.reports[0] == 55
    && (forall i, j :: 0 <= i < j < |s.reports| ==> s.reports[i] <= s.reports[j])
    && s.reports[|s.reports| - 1] <= Percentage(s.completed, |s.objects|)
    && (0 < s.completed == |s.objects| && !s.aborted ==> s.reports[|s.reports| - 1] == 85)
  }

  ghost predicate Inv(s: State) {
    && PoolInv(s) && CountInv(s) && PhaseInv(s)
    && PlacesOk(s) && WorkersOk(s)
  }

  ghost function TakenAssets(taken: seq<Grab>): set<Object> {
    set g <- taken :: g.asset
  }

  lemma {:induction false} TakenAssetsSize(taken: seq<Grab>)
    requires forall i, j :: 0 <= i < j < |taken| ==> taken[i].asset != taken[j].asset
    ensures |TakenAssets(taken)| == |taken|
  {
    if taken != [] {
      var front, last := taken[..|taken| - 1], taken[|taken| - 1];
      TakenAssetsSize(front);
      assert taken == front + [last];
      assert TakenAssets(taken) == TakenAssets(front) + {last.asset};
    }
  }

  lemma TakenDiffer(s: State, j: nat, k: nat)
    requires PoolInv(s) && j < |s.taken| && k < |s.taken| && j != k
    ensures s.taken[j].asset.hash != s.taken[k].asset.hash
  {
    var n := |s.objects|;
    assert j < k ==> s.objects[n - 1 - k].hash != s.objects[n - 1 - j].hash;
    assert k < j ==> s.objects[n - 1 - j].hash != s.objects[n - 1 - k].hash;
  }

  lemma CountedFits(s: State)
    requires PoolInv(s) && CountInv(s)
    ensures s.completed <= |s.taken| <= |s.objects| && |TakenAssets(s.taken)| == |s.taken|
  {
    forall i, j | 0 <= i < j < |s.taken| ensures s.taken[i].asset != s.taken[j].asset {
      TakenDiffer(s, i, j);
    }
    TakenAssetsSize(s.taken);
    SubsetSize(s.counted, TakenAssets(s.taken));
  }

  // ---------- progress ----------

  lemma PercentageFacts(completed: nat, total: nat)
    requires completed <= total
    ensures 55 <= Percentage(completed, total) <= 85
    ensures 0 < completed == total ==> Percentage(completed, total) == 85
    ensures completed < total ==> Percentage(completed, total) <= Percentage(completed + 1, total)
  {
    ShareBounds(completed, total);
    FloorGrows(0.0, Share(completed, total) * 30.0);
    FloorGrows(Share(completed, total) * 30.0, 30.0);
    if completed < total {
      ShareBounds(completed + 1, total);
      ShareGrows(completed, total);
      FloorGrows(Share(completed, total) * 30.0, Share(completed + 1, total) * 30.0);
    }
  }

  lemma FloorGrows(x: real, y: real)
    requires x <= y
    ensures x.Floor <= y.Floor
  {
  }

  lemma ShareBounds(completed: nat, total: nat)
    requires completed <= total
    ensures 0.0 <= Share(completed, total) <= 1.0
    ensures 0 < completed == total ==> Share(completed, total) == 1.0
  {
    if total > 0 {
      Quotient(Real(completed), Real(total), 0.0);
      Quotient(Real(completed), Real(total), 1.0);
    }
  }

  lemma ShareGrows(completed: nat, total: nat)
    requires completed < total
    ensures Share(completed, total) <= Share(completed + 1, total)
  {
    Quotient(Real(completed + 1), Real(total), Share(completed, total));
  }

  /** Comparing a quotient. */
  lemma Quotient(x: real, t: real, q: real)
    requires t > 0.0
    ensures q * t <= x <==> q <= x / t
    ensures q * t == x <==> q == x / t
  {
    var r := x / t;
    assert r * t == x;
    Scaled(q, r, t);
    Scaled(r, q, t);
  }

  lemma Scaled(a: real, b: real, t: real)
    requires t > 0.0
    ensures a <= b ==> a * t <= b * t
    ensures a < b ==> a * t < b * t
  {
  }

  lemma FinishKeepsReports(s: State, i: nat, o: Object)
    requires ReportInv(s) && i < |s.workers| && s.completed < |s.objects|
    ensures ReportInv(Finish(s, i, o))
  {
    PercentageFacts(s.completed, |s.objects|);
    PercentageFacts(s.completed + 1, |s.objects|);
  }

  // ---------- each step keeps the invariant ----------

  lemma TakeKeepsInv(s: State, i: nat)
    requires Inv(s) && Enabled(s, Take(i))
    ensures Inv(Next(s, Take(i)))
  {
    StillWaiting(s, i);
    if !s.aborted && s.pool != [] {
      GrabKeepsInv(s, i);
    } else {
      StopKeepsInv(s, i, if s.aborted then Failed else Done);
    }
  }

  lemma StopKeepsInv(s: State, i: nat, w: Worker)
    requires Inv(s) && i < |s.workers| && s.workers[i].Ready? && s.phase != Writable && s.phase != Committed
    requires w == Failed || (w == Done && s.pool == [])
    ensures Inv(Move(s, i, w))
  {
    var v := Move(s, i, w);
    forall k | 0 <= k < |v.taken| ensures PlaceOk(v, k) {
      assert PlaceOk(s, k);
    }
    forall j | 0 <= j < |v.workers| ensures WorkerOk(v, j) {
      assert WorkerOk(s, j);
    }
  }

  lemma GrabKeepsInv(s: State, i: nat)
    requires Inv(s) && Enabled(s, Take(i)) && s.phase != Writable && s.phase != Committed && !s.aborted && s.pool != []
    ensures Inv(Next(s, Take(i)))
  {
    var v := Next(s, Take(i));
    var last := |s.pool| - 1;
    assert v.taken == s.taken + [Grab(i, s.pool[last])] && s.pool[last] == s.objects[last];
    assert PoolInv(v) && PhaseInv(v) by {
      hide DistinctHashes;
      hide PlacesOk;
      hide WorkersOk;
      hide CountInv;
    }
    forall k | 0 <= k < |v.taken| ensures PlaceOk(v, k) {
      if k < |s.taken| {
        assert PlaceOk(s, k);
      } else {
        NewIsUncounted(s, last);
      }
    }
    forall j | 0 <= j < |v.workers| ensures WorkerOk(v, j) {
      assert WorkerOk(s, j);
    }
    assert forall x <- TakenAssets(s.taken) :: x in TakenAssets(v.taken);
  }

  lemma NewIsUncounted(s: State, k: nat)
    requires PoolInv(s) && CountInv(s) && k < |s.pool|
    ensures s.pool[k] !in s.counted
  {
    assert s.pool[k] == s.objects[k];
    forall g | g in s.taken ensures g.asset != s.pool[k] {
      var j :| 0 <= j < |s.taken| && s.taken[j] == g;
      assert s.objects[k].hash != s.objects[|s.objects| - 1 - j].hash;
    }
  }

  lemma FinishShape(s: State, i: nat, o: Object)
    requires i < |s.workers|
    ensures var v := Finish(s, i, o);
            && (v.workers == s.workers[i := Ready] || v.workers == s.workers[i := Failed])
            && v.counted == s.counted + {o} && v.completed == s.completed + 1
            && v.objects == s.objects && v.pool == s.pool && v.taken == s.taken && v.disk == s.disk
               && v.index == s.index
            && v.phase == s.phase && v.reused == s.reused && v.downloads == s.downloads && v.aborted == s.aborted
  {
  }

  /** An object held and not counted can be finished once it is on disk. */
  lemma FinishKeepsInv(s: State, i: nat, o: Object)
    requires PoolInv(s) && PhaseInv(s) && s.phase != Writable && s.phase != Committed
    requires s.counted <= TakenAssets(s.taken) && |s.counted| == s.completed
             && s.reused + s.downloads == s.completed + 1
    requires PlacesOk(s) && WorkersOk(s)
    requires i < |s.workers| && Holds(s.workers[i], o) && OnDisk(s, o)
    ensures Inv(Finish(s, i, o)) && s.completed < |s.objects|
  {
    assert WorkerOk(s, i);
    var k := HeldIsTaken(s, i, o);
    assert PlaceOk(s, k) && o !in s.counted;
    var v := Finish(s, i, o);
    FinishShape(s, i, o);
    hide Finish;
    hide Holds;
    hide OnDisk;
    hide PoolInv;
    hide PhaseInv;
    hide CountInv;
    hide PlacesOk;
    hide WorkersOk;
    FinishKeepsAccount(s, i, o, k, v);
    FinishKeepsPlaces(s, i, o, k, v);
    FinishKeepsWorkers(s, i, v);
    CountedFits(v);
  }

  lemma FinishKeepsAccount(s: State, i: nat, o: Object, k: nat, v: State)
    requires PoolInv(s) && PhaseInv(s) && s.phase != Writable && s.phase != Committed
    requires s.counted <= TakenAssets(s.taken) && |s.counted| == s.completed
    requires s.reused + s.downloads == s.completed + 1
    requires i < |s.workers| && k < |s.taken| && s.taken[k] == Grab(i, o) && o !in s.counted
    requires v.workers == s.workers[i := Ready] || v.workers == s.workers[i := Failed]
    requires v.counted == s.counted + {o} && v.completed == s.completed + 1
    requires v.objects == s.objects && v.pool == s.pool && v.taken == s.taken && v.index == s.index
    requires v.phase == s.phase && v.reused == s.reused && v.downloads == s.downloads
    ensures PoolInv(v) && PhaseInv(v) && CountInv(v)
  {
    hide DistinctHashes;
  }

  lemma FinishKeepsPlaces(s: State, i: nat, o: Object, k: nat, v: State)
    requires PoolInv(s) && PlacesOk(s) && i < |s.workers| && Holds(s.workers[i], o) && OnDisk(s, o)
    requires k < |s.taken| && s.taken[k] == Grab(i, o)
    requires v.taken == s.taken && v.disk == s.disk && v.counted == s.counted + {o}
    requires v.workers == s.workers[i := Ready] || v.workers == s.workers[i := Failed]
    ensures PlacesOk(v)
  {
    forall j | 0 <= j < |v.taken| ensures v.taken[j].worker < |v.workers| && PlaceOk(v, j) {
      assert PlaceOk(s, j);
      if j != k {
        TakenDiffer(s, j, k);
      }
      hide PoolInv;
    }
  }

  lemma FinishKeepsWorkers(s: State, i: nat, v: State)
    requires WorkersOk(s) && i < |s.workers| && v.taken == s.taken && v.pool == s.pool
    requires v.workers == s.workers[i := Ready] || v.workers == s.workers[i := Failed]
    ensures WorkersOk(v)
  {
    forall j | 0 <= j < |v.workers| ensures WorkerOk(v, j) {
      assert WorkerOk(s, j);
    }
  }

  lemma HeldIsTaken(s: State, i: nat, o: Object) returns (k: nat)
    requires i < |s.workers| && WorkerOk(s, i) && Holds(s.workers[i], o)
    ensures k < |s.taken| && s.taken[k] == Grab(i, o)
  {
    k :| 0 <= k < |s.taken| && s.taken[k] == Grab(i, o);
  }

  lemma MoveKeepsInv(s: State, i: nat, w: Worker)
    requires Inv(s) && i < |s.workers| && s.phase != Writable && s.phase != Committed
    requires s.workers[i].Checking? || s.workers[i].Fetching? || s.workers[i].Writing?
    requires w.Failed? || Holds(w, s.workers[i].asset)
    ensures Inv(Move(s, i, w))
  {
    var v := Move(s, i, w);
    forall k | 0 <= k < |v.taken| ensures PlaceOk(v, k) {
      assert PlaceOk(s, k);
    }
    forall j | 0 <= j < |v.workers| ensures WorkerOk(v, j) {
      assert WorkerOk(s, j);
    }
  }

  lemma WriteKeepsPlaces(s: State, k: nat, v: State)
    requires Inv(s) && k < |s.taken|
    requires var o := s.taken[k].asset;
             v == s.(disk := s.disk[o.hash := Content(o.size, o.hash)], downloads := s.downloads + 1)
    ensures OnDisk(v, s.taken[k].asset) && PoolInv(v) && PhaseInv(v)
    ensures PlacesOk(v) && WorkersOk(v)
  {
    forall j | 0 <= j < |v.taken| ensures PlaceOk(v, j) {
      assert PlaceOk(s, j);
      if j != k {
        TakenDiffer(s, j, k);
      }
    }
    forall j | 0 <= j < |v.workers| ensures WorkerOk(v, j) {
      assert WorkerOk(s, j);
    }
  }

  lemma ReuseKeepsPlaces(s: State, v: State)
    requires Inv(s) && v == s.(reused := s.reused + 1)
    ensures PoolInv(v) && PhaseInv(v)
    ensures PlacesOk(v) && WorkersOk(v)
  {
    forall j | 0 <= j < |s.taken| ensures PlaceOk(v, j) {
      assert PlaceOk(s, j);
    }
    forall j | 0 <= j < |s.workers| ensures WorkerOk(v, j) {
      assert WorkerOk(s, j);
    }
  }

  /** The call goes on only when every worker has returned. */
  lemma StillWaiting(s: State, i: nat)
    requires Inv(s) && i < |s.workers| && !s.workers[i].Done?
    ensures s.phase != Writable && s.phase != Committed
  {
    assert s.workers[i] in s.workers;
  }

  lemma ReuseKeepsInv(s: State, i: nat)
    requires Inv(s) && i < |s.workers| && s.workers[i].Checking? && OnDisk(s, s.workers[i].asset)
    ensures Inv(Finish(s.(reused := s.reused + 1), i, s.workers[i].asset)) && s.completed < |s.objects|
  {
    var v := s.(reused := s.reused + 1);
    StillWaiting(s, i);
    ReuseKeepsPlaces(s, v);
    assert CountInv(s);
    hide Finish;
    hide PoolInv;
    hide PhaseInv;
    hide PlacesOk;
    hide WorkersOk;
    hide Inv;
    FinishKeepsInv(v, i, s.workers[i].asset);
  }

  lemma LandKeepsInv(s: State, i: nat)
    requires Inv(s) && i < |s.workers| && s.workers[i].Writing?
    ensures var o := s.workers[i].asset;
            var v := s.(disk := s.disk[o.hash := Content(o.size, o.hash)], downloads := s.downloads + 1);
            Inv(Finish(v, i, o)) && s.completed < |s.objects|
  {
    var o := s.workers[i].asset;
    var v := s.(disk := s.disk[o.hash := Content(o.size, o.hash)], downloads := s.downloads + 1);
    StillWaiting(s, i);
    assert WorkerOk(s, i);
    var k := HeldIsTaken(s, i, o);
    WriteKeepsPlaces(s, k, v);
    assert CountInv(s);
    hide Finish;
    hide PoolInv;
    hide PhaseInv;
    hide PlacesOk;
    hide WorkersOk;
    hide Inv;
    FinishKeepsInv(v, i, o);
  }

  lemma CheckKeepsInv(s: State, i: nat, throws: bool)
    requires Inv(s) && Enabled(s, Check(i, throws))
    ensures Inv(Next(s, Check(i, throws)))
    ensures Next(s, Check(i, throws)).completed > s.completed ==> s.completed < |s.objects|
  {
    hide Finish;
    hide Inv;
    StillWaiting(s, i);
    if throws {
      MoveKeepsInv(s, i, Failed);
    } else if OnDisk(s, s.workers[i].asset) {
      ReuseKeepsInv(s, i);
    } else {
      MoveKeepsInv(s, i, Fetching(s.workers[i].asset));
    }
  }

  lemma FetchKeepsInv(s: State, i: nat, bytes: Option<Content>)
    requires Inv(s) && Enabled(s, Fetch(i, bytes))
    ensures Inv(Next(s, Fetch(i, bytes)))
  {
    hide Inv;
    var o := s.workers[i].asset;
    StillWaiting(s, i);
    MoveKeepsInv(s, i, if bytes == Some(Content(o.size, o.hash)) then Writing(o) else Failed);
  }

  lemma WriteKeepsInv(s: State, i: nat, ok: bool)
    requires Inv(s) && Enabled(s, Write(i, ok))
    ensures Inv(Next(s, Write(i, ok)))
    ensures Next(s, Write(i, ok)).completed > s.completed ==> s.completed < |s.objects|
  {
    hide Finish;
    hide Inv;
    StillWaiting(s, i);
    if ok {
      LandKeepsInv(s, i);
    } else {
      MoveKeepsInv(s, i, Failed);
    }
  }

  /** Steps that move no worker. */
  lemma OtherStepKeepsInv(s: State, step: Step)
    requires Inv(s) && Enabled(s, step) && (step.Abort? || step.Resolve? || step.Reject? || step.WriteIndex?)
    ensures Inv(Next(s, step))
  {
    var v := Next(s, step);
    forall k | 0 <= k < |v.taken| ensures PlaceOk(v, k) {
      assert PlaceOk(s, k);
    }
    forall j | 0 <= j < |v.workers| ensures WorkerOk(v, j) {
      assert WorkerOk(s, j);
    }
  }

  lemma StepKeepsInv(s: State, step: Step)
    requires Inv(s) && Enabled(s, step)
    ensures Inv(Next(s, step))
  {
    match step {
      case Take(i) => TakeKeepsInv(s, i);
      case Check(i, throws) => CheckKeepsInv(s, i, throws);
      case Fetch(i, bytes) => FetchKeepsInv(s, i, bytes);
      case Write(i, ok) => WriteKeepsInv(s, i, ok);
      case _ => OtherStepKeepsInv(s, step);
    }
  }

  lemma FinishedReports(s: State, v: State, i: nat, o: Object)
    requires ReportInv(s) && i < |s.workers| && s.completed < |s.objects|
    requires v.workers == s.workers && v.completed == s.completed && v.objects == s.objects
    requires v.reports == s.reports && v.aborted == s.aborted
    ensures ReportInv(Finish(v, i, o))
  {
    FinishKeepsReports(v, i, o);
  }

  lemma StepKeepsReports(s: State, step: Step)
    requires ReportInv(s) && Enabled(s, step)
    requires Next(s, step).completed > s.completed ==> s.completed < |s.objects|
    ensures ReportInv(Next(s, step))
  {
    hide Percentage;
    hide Finish;
    match step {
      case Check(i, throws) =>
        var o := s.workers[i].asset;
        if !throws && OnDisk(s, o) {
          var v := s.(reused := s.reused + 1);
          FinishShape(v, i, o);
          hide ReportInv;
          FinishedReports(s, v, i, o);
        }
      case Write(i, ok) =>
        var o := s.workers[i].asset;
        if ok {
          var v := s.(disk := s.disk[o.hash := Content(o.size, o.hash)], downloads := s.downloads + 1);
          FinishShape(v, i, o);
          hide ReportInv;
          FinishedReports(s, v, i, o);
        }
      case _ =>
    }
  }

  /** The counter never passes the number of objects. */
  lemma CompletedFits(s: State, step: Step)
    requires Inv(s) && Enabled(s, step)
    ensures Next(s, step).completed > s.completed ==> s.completed < |s.objects|
  {
    match step {
      case Check(i, throws) => CheckKeepsInv(s, i, throws);
      case Write(i, ok) => WriteKeepsInv(s, i, ok);
      case _ =>
    }
  }

  lemma FailedStays(s: State, step: Step, w: nat)
    requires Enabled(s, step) && w < |s.workers| && s.workers[w].Failed?
    ensures w < |Next(s, step).workers| && Next(s, step).workers[w].Failed?
  {
  }

  // ---------- runs ----------

  ghost predicate IsRun(states: seq<State>, steps: seq<Step>) {
    && |states| == |steps| + 1
    && DistinctHashes(states[0].objects) && states[0] == Start(states[0].objects, states[0].disk)
    && forall i :: 0 <= i < |steps| ==> Enabled(states[i], steps[i]) && states[i + 1] == Next(states[i], steps[i])
  }

  lemma StartInv(objects: seq<Object>, disk: map<string, Content>)
    requires DistinctHashes(objects)
    ensures Inv(Start(objects, disk)) && ReportInv(Start(objects, disk))
  {
    PercentageFacts(0, |objects|);
  }

  lemma SameObjects(s: State, step: Step)
    requires Enabled(s, step)
    ensures Next(s, step).objects == s.objects
  {
  }

  lemma {:induction false} RunInv(states: seq<State>, steps: seq<Step>, i: nat)
    requires IsRun(states, steps) && i < |states|
    ensures Inv(states[i]) && ReportInv(states[i]) && states[i].objects == states[0].objects
  {
    if i == 0 {
      StartInv(states[0].objects, states[0].disk);
    } else {
      RunInv(states, steps, i - 1);
      StepKeepsInv(states[i - 1], steps[i - 1]);
      CompletedFits(states[i - 1], steps[i - 1]);
      SameObjects(states[i - 1], steps[i - 1]);
      StepKeepsReports(states[i - 1], steps[i - 1]);
    }
  }

  /** The index file is the commit record: if this call has written it, then under any interleaving every
      object is on disk with the right size and SHA-1, every worker has returned normally, and every object
      was counted once. */
  lemma IndexIsCommitRecord(states: seq<State>, steps: seq<Step>, i: nat)
    requires IsRun(states, steps) && i < |states| && states[i].index
    ensures var s := states[i];
            && (forall o <- states[0].objects :: OnDisk(s, o))
            && (forall w <- s.workers :: w.Done?)
            && s.completed == |states[0].objects| == s.reused + s.downloads && s.pool == []
  {
    RunInv(states, steps, i);
    AllReturned(states[i]);
  }

  lemma AllReturned(s: State)
    requires Inv(s) && forall w <- s.workers :: w.Done?
    ensures (forall o <- s.objects :: OnDisk(s, o)) && s.completed == |s.objects| && s.pool == []
  {
    var n := |s.objects|;
    assert s.workers[0] in s.workers && WorkerOk(s, 0);
    forall o | o in TakenAssets(s.taken) ensures o in s.counted {
      var k :| 0 <= k < n && s.taken[k].asset == o;
      CountedOnReturn(s, k);
    }
    CountedFits(s);
    SubsetSize(TakenAssets(s.taken), s.counted);
    forall j | 0 <= j < n ensures OnDisk(s, s.objects[j]) {
      CountedOnReturn(s, n - 1 - j);
    }
  }

  lemma CountedOnReturn(s: State, k: nat)
    requires PoolInv(s) && k < |s.taken| && PlaceOk(s, k) && forall w <- s.workers :: w.Done?
    ensures s.taken[k].asset in s.counted && OnDisk(s, s.objects[|s.objects| - 1 - k])
  {
    assert s.workers[s.taken[k].worker] in s.workers;
  }

  /** No object is ever taken twice, by the same worker or by two. */
  lemma TakenOnce(states: seq<State>, steps: seq<Step>, i: nat, k: nat, l: nat)
    requires IsRun(states, steps) && i < |states| && k < l < |states[i].taken|
    ensures states[i].taken[k].asset.hash != states[i].taken[l].asset.hash
    ensures states[i].taken[k].asset !in states[i].pool
  {
    RunInv(states, steps, i);
    var s := states[i];
    var n := |s.objects|;
    TakenDiffer(s, k, l);
    forall j | 0 <= j < |s.pool| ensures s.pool[j] != s.taken[k].asset {
      assert s.pool[j] == s.objects[j] && s.objects[j].hash != s.objects[n - 1 - k].hash;
    }
  }

  /** Reported progress starts at 55, never decreases, stays within 55..85, and a call that was not aborted
      and counted all of at least one object has reported 85. */
  lemma ProgressInWindow(states: seq<State>, steps: seq<Step>, i: nat, a: nat, b: nat)
    requires IsRun(states, steps) && i < |states| && a <= b < |states[i].reports|
    ensures var s := states[i];
            && 55 <= s.reports[a] <= s.reports[b] <= 85
            && (0 < |s.objects| == s.completed && !s.aborted ==> s.reports[|s.reports| - 1] == 85)
  {
    RunInv(states, steps, i);
    CountedFits(states[i]);
    PercentageFacts(states[i].completed, |states[i].objects|);
  }

  /** Once a worker has failed, this call never writes the index, whatever the others still do. */
  lemma {:induction false} FailureBlocksIndex(states: seq<State>, steps: seq<Step>, i: nat, j: nat, w: nat)
    requires IsRun(states, steps) && i <= j < |states| && w < |states[i].workers| && states[i].workers[w].Failed?
    ensures w < |states[j].workers| && states[j].workers[w].Failed? && !states[j].index
    decreases j - i
  {
    hide Inv;
    hide Next;
    hide Enabled;
    if i < j {
      FailureBlocksIndex(states, steps, i, j - 1, w);
      FailedStays(states[j - 1], steps[j - 1], w);
    }
    NoIndexBesideFailure(states, steps, j, w);
  }

  lemma NoIndexBesideFailure(states: seq<State>, steps: seq<Step>, i: nat, w: nat)
    requires IsRun(states, steps) && i < |states| && w < |states[i].workers| && states[i].workers[w].Failed?
    ensures !states[i].index
  {
    RunInv(states, steps, i);
    assert states[i].workers[w] in states[i].workers;
  }

  // ---------- exactly what is reported, and what ends the call ----------

  function Times(a: nat, b: nat): nat {
    a * b
  }

  function Whole(n: nat, t: nat): nat
    requires t > 0
  {
    n / t
  }

  /** The share in whole percent of the window, never rounded up. */
  lemma PercentageIsShare(completed: nat, total: nat)
    requires completed <= total && total > 0
    ensures Percentage(completed, total) == 55 + 30 * completed / total
  {
    ShareFloor(completed, total);
    WholeBounds(30 * completed, total);
    hide Share;
  }

  lemma ShareFloor(completed: nat, total: nat)
    requires total > 0
    ensures (Share(completed, total) * 30.0).Floor == Whole(30 * completed, total)
  {
    hide Share;
    hide Real;
    hide Times;
    hide Whole;
    var q := Whole(30 * completed, total);
    ShareTimes(completed, total);
    WholeBounds(30 * completed, total);
    ThirtyTimes(Share(completed, total), Real(total), completed);
    BetweenWholes(Share(completed, total) * 30.0, q, total, 30 * completed);
  }

  lemma ShareTimes(completed: nat, total: nat)
    requires total > 0
    ensures Share(completed, total) * Real(total) == Real(completed)
  {
    Quotient(Real(completed), Real(total), Share(completed, total));
  }

  lemma ThirtyTimes(x: real, t: real, c: nat)
    requires x * t == Real(c)
    ensures (x * 30.0) * t == Real(30 * c)
  {
    assert (x * 30.0) * t == (x * t) * 30.0;
  }

  lemma WholeBounds(n: nat, t: nat)
    requires t > 0
    ensures Times(Whole(n, t), t) <= n < Times(Whole(n, t) + 1, t)
    ensures n <= 30 * t ==> Whole(n, t) <= 30
  {
  }

  lemma RealTimes(q: nat, t: nat)
    ensures Real(q) * Real(t) == Real(Times(q, t))
  {
  }

  lemma RealGrows(a: nat, b: nat)
    ensures a <= b <==> Real(a) <= Real(b)
  {
  }

  lemma BetweenWholes(x: real, q: nat, t: nat, n: nat)
    requires t > 0 && x * Real(t) == Real(n) && Times(q, t) <= n < Times(q + 1, t)
    ensures x.Floor == q
  {
    hide Times;
    RealTimes(q, t);
    RealTimes(q + 1, t);
    RealGrows(Times(q, t), n);
    RealGrows(Times(q + 1, t), n);
    assert Real(t) > 0.0;
    FloorBetween(x, q, Real(t));
  }

  lemma FloorBetween(x: real, q: nat, t: real)
    requires t > 0.0 && Real(q) * t <= x * t < Real(q + 1) * t
    ensures x.Floor == q
  {
    Scaled(x, Real(q), t);
    Scaled(Real(q + 1), x, t);
  }

  /** A report for every 25th object and for the last. */
  function Milestones(completed: nat, total: nat): seq<int> {
    if completed == 0 then []
    else
      Milestones(completed - 1, total)
      + (if completed % 25 == 0 || completed == total then [Percentage(completed, total)] else [])
  }

  lemma StepReports(s: State, step: Step)
    requires Enabled(s, step) && s.reports == [55] + Milestones(s.completed, |s.objects|) && !s.aborted
    ensures var v := Next(s, step); v.reports == [55] + Milestones(v.completed, |v.objects|)
  {
    hide Percentage;
    var v := Next(s, step);
    assert v.completed == s.completed || v.completed == s.completed + 1;
    if v.completed == s.completed + 1 {
      assert v.reports == s.reports + (Milestones(v.completed, |s.objects|)[|Milestones(s.completed, |s.objects|)|..]);
    }
  }

  lemma AbortStays(s: State, step: Step)
    requires Enabled(s, step) && s.aborted
    ensures var v := Next(s, step); v.aborted && v.reports == s.reports && v.taken == s.taken && v.pool == s.pool
  {
  }

  /** Without an abort the reports are 55 and one for every 25th object and for the last, in order. */
  lemma {:induction false} ReportsExactly(states: seq<State>, steps: seq<Step>, i: nat)
    requires IsRun(states, steps) && i < |states| && !states[i].aborted
    ensures states[i].reports == [55] + Milestones(states[i].completed, |states[i].objects|)
  {
    hide Next;
    hide Enabled;
    if i == 0 {
      assert states[0].reports == [55] + [];
    } else {
      assert Enabled(states[i - 1], steps[i - 1]) && states[i] == Next(states[i - 1], steps[i - 1]);
      if states[i - 1].aborted {
        AbortStays(states[i - 1], steps[i - 1]);
      } else {
        ReportsExactly(states, steps, i - 1);
        StepReports(states[i - 1], steps[i - 1]);
      }
    }
  }

  /** After an abort nothing more is taken or reported. */
  lemma {:induction false} AbortSilences(states: seq<State>, steps: seq<Step>, i: nat, j: nat)
    requires IsRun(states, steps) && i <= j < |states| && states[i].aborted
    ensures states[j].aborted && states[j].reports == states[i].reports && states[j].taken == states[i].taken
    decreases j
  {
    hide Next;
    hide Enabled;
    if i < j {
      AbortSilences(states, steps, i, j - 1);
      assert Enabled(states[j - 1], steps[j - 1]) && states[j] == Next(states[j - 1], steps[j - 1]);
      AbortStays(states[j - 1], steps[j - 1]);
    }
  }

  /** Once every worker has returned the call can go on, write the index, and is then committed; a write that
      fails rejects it. */
  lemma ReturnedCommits(s: State, ok: bool)
    requires s.phase == Waiting && !s.index && forall w <- s.workers :: w.Done?
    ensures Enabled(s, Resolve) && Enabled(Next(s, Resolve), WriteIndex(ok))
    ensures var v := Next(Next(s, Resolve), WriteIndex(ok));
            v.index == ok && v.phase == (if ok then Committed else Rejected)
  {
  }

  lemma SettledStays(s: State, step: Step)
    requires Enabled(s, step)
    ensures step.Resolve? || step.Reject? ==> s.phase == Waiting && Next(s, step).phase != Waiting
    ensures s.phase != Waiting ==> Next(s, step).phase != Waiting
  {
  }

  lemma {:induction false} SettledForEver(states: seq<State>, steps: seq<Step>, i: nat, j: nat)
    requires IsRun(states, steps) && i <= j < |states| && states[i].phase != Waiting
    ensures states[j].phase != Waiting
    decreases j
  {
    hide Next;
    hide Enabled;
    if i < j {
      SettledForEver(states, steps, i, j - 1);
      assert Enabled(states[j - 1], steps[j - 1]) && states[j] == Next(states[j - 1], steps[j - 1]);
      SettledStays(states[j - 1], steps[j - 1]);
    }
  }

  /** The wait for the workers ends once, one way or the other. */
  lemma SettlesOnce(states: seq<State>, steps: seq<Step>, i: nat, j: nat)
    requires IsRun(states, steps) && i < j < |steps| && (steps[i].Resolve? || steps[i].Reject?)
    ensures !steps[j].Resolve? && !steps[j].Reject?
  {
    assert Enabled(states[i], steps[i]) && states[i + 1] == Next(states[i], steps[i]) && Enabled(states[j], steps[j]);
    hide Next;
    hide Enabled;
    SettledStays(states[i], steps[i]);
    SettledForEver(states, steps, i + 1, j);
    SettledStays(states[j], steps[j]);
  }

  /** Six workers, or one for each object if there are fewer, but at least one. */
  lemma {:induction false} WorkersCount(states: seq<State>, steps: seq<Step>, i: nat)
    requires IsRun(states, steps) && i < |states|
    ensures var n := |states[0].objects|;
            |states[i].workers| == if n == 0 then 1 else if n < 6 then n else 6
  {
    if i > 0 {
      WorkersCount(states, steps, i - 1);
      assert Enabled(states[i - 1], steps[i - 1]) && states[i] == Next(states[i - 1], steps[i - 1]);
    }
  }
}
