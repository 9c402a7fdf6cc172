/** The variables that the workers of `ensureAssets` share, updated in place. The methods are the stretches
    of a worker between two awaits, each proved to be a step of the machine in Assets.dfy. */
module AssetWorkers {
  import opened Base
  import opened Assets

  /** The objects of the index, one for a hash. */
  method CollectObjects(entries: seq<Option<Object>>) returns (objects: Option<seq<Object>>)
    ensures objects == Collect(entries)
  {
    var found: seq<Object> := [];
    for i := 0 to |entries|
      invariant Collect(entries[..i]) == Some(found)
    {
      assert entries[..i + 1][..i] == entries[..i];
      if entries[i].None? || entries[i].value.size > MAX_ASSET {
        OneBadEntry(entries, i);
        return None;
      }
      found := Put(found, entries[i].value);
    }
    assert entries[..|entries|] == entries;
    objects := Some(found);
  }

  lemma OneBadEntry(entries: seq<Option<Object>>, i: nat)
    requires i < |entries| && (entries[i].None? || entries[i].value.size > MAX_ASSET)
    ensures Collect(entries) == None
  {
    assert entries[i] in entries;
  }

  class Download {
    const objects: seq<Object>
    var pool: seq<Object>
    var completed: nat
    var reused: nat
    /** The percentages reported to the job. */
    var reports: seq<int>
    var disk: map<string, Content>
    var aborted: bool
    /** Where the workers and the call itself are suspended. */
    var workers: seq<Worker>
    var phase: Phase
    var index: bool
    ghost var taken: seq<Grab>
    ghost var counted: set<Object>
    ghost var downloads: nat

    ghost function State(): Assets.State
      reads this
    {
      Assets.State(objects, pool, workers, completed, reused, reports, disk, index, phase, aborted, taken, counted,
                   downloads)
    }

    constructor (objects: seq<Object>, disk: map<string, Content>)
      ensures this.objects == objects && State() == Start(objects, disk)
    {
      this.objects, pool, this.disk := objects, objects, disk;
      completed, reused, reports, aborted := 0, 0, [55], false;
      workers := seq(Min(CONCURRENCY, if |objects| == 0 then 1 else |objects|), i => Ready);
      phase, index, taken, counted, downloads := Waiting, false, [], {}, 0;
    }

    /** `signal.throwIfAborted(); objects.pop()` */
    method TakeNext(i: nat)
      requires Enabled(State(), Take(i))
      modifies this
      ensures State() == Next(old(State()), Take(i))
    {
      if aborted {
        workers := workers[i := Failed];
      } else if pool == [] {
        workers := workers[i := Done];
      } else {
        var last := pool[|pool| - 1];
        pool := pool[..|pool| - 1];
        workers := workers[i := Checking(last)];
        taken := taken + [Grab(i, last)];
      }
    }

    /** `completed += 1` and the report. */
    method CountOne(i: nat)
      requires i < |workers| && (workers[i].Checking? || workers[i].Fetching? || workers[i].Writing?)
      modifies this
      ensures State() == Finish(old(State()), i, old(workers[i].asset))
    {
      counted := counted + {workers[i].asset};
      completed := completed + 1;
      workers := workers[i := Ready];
      if completed % 25 == 0 || completed == |objects| {
        if aborted {
          workers := workers[i := Failed];
        } else {
          reports := reports + [Percentage(completed, |objects|)];
        }
      }
    }

    /** After `existingFileMatches`. */
    method AfterCheck(i: nat, throws: bool)
      requires Enabled(State(), Check(i, throws))
      modifies this
      ensures State() == Next(old(State()), Check(i, throws))
    {
      var o := workers[i].asset;
      if throws {
        workers := workers[i := Failed];
      } else if o.hash in disk && disk[o.hash] == Content(o.size, o.hash) {
        reused := reused + 1;
        CountOne(i);
      } else {
        workers := workers[i := Fetching(o)];
      }
    }

    /** After the download: verify. */
    method AfterFetch(i: nat, bytes: Option<Content>)
      requires Enabled(State(), Fetch(i, bytes))
      modifies this
      ensures State() == Next(old(State()), Fetch(i, bytes))
    {
      var o := workers[i].asset;
      if bytes.None? || bytes.value.size != o.size || bytes.value.hash != o.hash {
        workers := workers[i := Failed];
      } else {
        workers := workers[i := Writing(o)];
      }
    }

    /** After `writeAtomic`, which has replaced the file or left it alone. */
    method AfterWrite(i: nat, ok: bool)
      requires Enabled(State(), Write(i, ok))
      modifies this
      ensures State() == Next(old(State()), Write(i, ok))
    {
      if !ok {
        workers := workers[i := Failed];
        return;
      }
      var o := workers[i].asset;
      disk := disk[o.hash := Content(o.size, o.hash)];
      downloads := downloads + 1;
      CountOne(i);
    }
  }
}
