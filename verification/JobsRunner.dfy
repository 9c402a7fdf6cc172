/** `JobsRunner` updated in place. Its methods are the stretches of jobs.runner.ts between two awaits,
    each proved to be a step of the machine in Jobs.dfy. */
module JobsRunners {
  import opened Base
  import opened Jobs

  class JobsRunner {
    /** The `jobs` table, each row with the state of its run. */
    var jobs: map<Id, Job>
    var running: set<Id>
    var cancelled: set<Id>
    var queues: map<Key, seq<Id>>
    /** Scheduled microtasks and suspended calls. */
    var direct: set<Id>
    var drains: multiset<Drain>
    /** The `job_events` table. */
    var log: seq<Event>
    /** Whether the constructor has returned, and other history. */
    ghost var alive: bool
    ghost var torn: set<Id>
    ghost var enqueued: map<Key, seq<Id>>
    ghost var invoked: map<Key, seq<Id>>

    ghost function State(): Runner
      reads this
    {
      Runner(jobs, running, cancelled, direct, queues, drains, log, alive, torn, enqueued, invoked)
    }

    /** A new process over the stored rows and events. `listed` is the answer to
        `listByStatuses(['queued', 'running'])`: the unfinished rows, each once. Afterwards there are none. */
    constructor (stored: map<Id, Job>, events: seq<Event>, listed: seq<Id>, ghost history: set<Id>)
      requires Distinct(listed)
      requires forall id :: id in listed <==>
                 id in stored && (stored[id].status == Queued || stored[id].status == Running)
      ensures State() == Recover(Runner(stored, {}, {}, {}, map[], multiset{}, events, false, history, map[], map[]),
                                 listed)
                           .(alive := true)
      ensures forall id <- stored :: id in State().jobs && Terminal(State().jobs[id].status)
      ensures forall id <- stored :: Terminal(stored[id].status) ==> State().jobs[id] == stored[id]
    {
      jobs, running, cancelled, queues, direct, drains, log := stored, {}, {}, map[], {}, multiset{}, events;
      alive, torn, enqueued, invoked := false, history, map[], map[];
      new;
      RecoverInterrupted(listed);
      RecoverKeeps(Runner(stored, {}, {}, {}, map[], multiset{}, events, false, history, map[], map[]), listed);
      alive := true;
    }

    method EmitEvent(id: Id, kind: EventKind, progress: Option<int>)
      modifies `log
      ensures State() == Emit(old(State()), id, kind, progress)
    {
      log := log + [Event(id, kind, progress)];
    }

    method CreateJob(id: Id)
      requires Enabled(State(), Create(id))
      modifies this
      ensures State() == Next(old(State()), Create(id))
    {
      jobs := jobs[id := NewJob(None)];
      EmitEvent(id, QueuedEvent, Some(0));
      direct := direct + {id};
    }

    method CreateQueuedJob(key: Key, id: Id)
      requires Enabled(State(), CreateQueued(key, id))
      modifies this
      ensures State() == Next(old(State()), CreateQueued(key, id))
    {
      jobs := jobs[id := NewJob(Some(key))];
      EmitEvent(id, QueuedEvent, Some(0));
      var queue := (if key in queues then queues[key] else []) + [id];
      queues := queues[key := queue];
      enqueued := enqueued[key := HistoryOf(enqueued, key) + [id]];
      if |queue| == 1 {
        drains := drains + multiset{Drain(key, false)};
      }
    }

    method CancelById(id: Id)
      requires alive
      modifies this
      ensures State() == Next(old(State()), Cancel(id))
    {
      if id !in jobs {
        return;
      }
      var job := jobs[id];
      if (job.status != Queued && job.status != Running) || id in cancelled {
        return;
      }
      cancelled := cancelled + {id};
      var aborted := job.aborted || id in running;
      if job.status == Running {
        jobs := jobs[id := job.(aborted := aborted, accepted := true)];
        EmitEvent(id, LogEvent, None);
        return;
      }
      jobs := jobs[id := job.(status := Cancelled, aborted := aborted, accepted := true)];
      EmitEvent(id, CancelledEvent, None);
    }

    /** `runJob` up to the call of its task; the result says whether it is called. */
    method StartRun(id: Id) returns (entered: bool)
      requires id in jobs
      modifies `jobs, `running, `cancelled, `log
      ensures State() == RunJob(old(State()), id)
      ensures entered <==> id !in old(cancelled)
    {
      if id in cancelled {
        cancelled := cancelled - {id};
        jobs := jobs[id := jobs[id].(stage := Over)];
        return false;
      }
      running := running + {id};
      jobs := jobs[id := jobs[id].(status := Running, stage := InTask, aborted := false, entered := true)];
      EmitEvent(id, StartedEvent, Some(0));
      return true;
    }

    method RunDirectJob(id: Id)
      requires Enabled(State(), RunDirect(id))
      modifies this
      ensures State() == Next(old(State()), RunDirect(id))
    {
      direct := direct - {id};
      var _ := StartRun(id);
    }

    /** The `catch` block. */
    method CatchError(id: Id)
      requires id in jobs
      modifies `jobs, `log
      ensures State() == Catch(old(State()), id)
    {
      if jobs[id].aborted || jobs[id].status == Cancelled {
        if jobs[id].status != Cancelled {
          jobs := jobs[id := jobs[id].(status := Cancelled)];
          EmitEvent(id, CancelledEvent, None);
        }
        return;
      }
      jobs := jobs[id := jobs[id].(status := Failed)];
      EmitEvent(id, FailedEvent, None);
    }

    /** The `finally` block. */
    method FinishRun(id: Id)
      requires id in jobs
      modifies `jobs, `running, `cancelled
      ensures State() == Finally(old(State()), id)
    {
      jobs := jobs[id := jobs[id].(stage := Over)];
      running := running - {id};
      cancelled := cancelled - {id};
    }

    /** `runJob` from the end of its task: `returned` tells a result from an error. */
    method EndRun(id: Id, returned: bool)
      requires Enabled(State(), Resolve(id))
      modifies `jobs, `running, `cancelled, `log
      ensures State() == Next(old(State()), if returned then Resolve(id) else Reject(id))
    {
      if !returned {
        CatchError(id);
      } else {
        if id in cancelled && !jobs[id].aborted {
          jobs := jobs[id := jobs[id].(aborted := true)];
        }
        assert jobs == old(jobs)[id := old(jobs)[id].(aborted := old(jobs)[id].aborted || id in cancelled)];
        if jobs[id].aborted {
          CatchError(id);
        } else if jobs[id].status != Cancelled {
          jobs := jobs[id := jobs[id].(status := Succeeded, progress := 100)];
          EmitEvent(id, CompletedEvent, Some(100));
        }
      }
      FinishRun(id);
    }

    /** The loop body of `drainQueue`, or its end when nothing is left. */
    method DrainNext(key: Key, awaiting: bool)
      modifies this
      ensures State() == DrainHead(old(State()), Drain(key, awaiting))
    {
      var queue := HistoryOf(queues, key);
      if queue == [] || queue[0] !in jobs {
        queues := queues - {key};
        drains := drains - multiset{Drain(key, awaiting)};
        return;
      }
      var _ := StartRun(queue[0]);
      drains := drains - multiset{Drain(key, awaiting)} + multiset{Drain(key, true)};
      invoked := invoked[key := HistoryOf(invoked, key) + [queue[0]]];
    }

    /** `drainQueue` up to its next await, or to its end. */
    method DrainTurn(key: Key, awaiting: bool)
      requires Enabled(State(), if awaiting then DrainResume(key) else DrainStart(key))
      modifies this
      ensures State() == Next(old(State()), if awaiting then DrainResume(key) else DrainStart(key))
    {
      if awaiting {
        queues := queues[key := queues[key][1..]];
        assert State() == Shifted(old(State()), key);
      }
      DrainNext(key, awaiting);
    }

    /** `recoverInterruptedJobs` over the jobs the store lists as queued or running. */
    method RecoverInterrupted(ids: seq<Id>)
      requires forall id <- ids :: id in jobs
      modifies `jobs, `log
      ensures State() == Recover(old(State()), ids)
    {
      for i := 0 to |ids|
        invariant forall id <- ids :: id in jobs
        invariant forall id <- ids[i..] :: id in State().jobs
        invariant Recover(State(), ids[i..]) == Recover(old(State()), ids)
      {
        assert ids[i] in ids && ids[i..][1..] == ids[i + 1..];
        jobs := jobs[ids[i] := jobs[ids[i]].(status := Failed, interrupted := true)];
        EmitEvent(ids[i], FailedEvent, None);
      }
    }
  }
}
