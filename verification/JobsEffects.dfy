/** What the calls of the job runner and of its tasks do for sure, beside what they never do (Jobs.dfy). */
module JobsEffects {
  import opened Base
  import opened Jobs

  // ---------- cancelling ----------

  /** A cancel that comes while the job is queued or running counts, at once: a queued job is cancelled and has
      its event, a running one has its signal aborted. */
  lemma CancelCounts(r: Runner, id: Id)
    requires Inv(r) && r.alive && id in r.jobs && (r.jobs[id].status == Queued || r.jobs[id].status == Running)
    ensures var s := Next(r, Cancel(id));
            && id in s.jobs && s.jobs[id].accepted && id in s.cancelled
            && (r.jobs[id].status == Queued ==> s.jobs[id].status == Cancelled && TerminalEvents(s.log, id) == 1)
            && (r.jobs[id].status == Running ==> s.jobs[id].status == Running && s.jobs[id].aborted)
  {
    assert JobOk(r, id);
    CancelStepKeeps(r, id);
    var s := Next(r, Cancel(id));
    if s != r {
      CancelShape(r, id);
    }
    assert JobOk(s, id);
    hide TerminalEvents;
    hide CancelJob;
  }

  lemma CancelStepKeeps(r: Runner, id: Id)
    requires Inv(r) && r.alive
    ensures Inv(Next(r, Cancel(id)))
  {
    StepKeepsInv(r, Cancel(id));
  }

  /** A finished job is not touched by a cancel, and neither is an unknown one. */
  lemma LateCancelDoesNothing(r: Runner, id: Id)
    requires r.alive && (id in r.jobs ==> Terminal(r.jobs[id].status))
    ensures Next(r, Cancel(id)) == r
  {
  }

  /** In every run: a job that is cancelled while it is queued or running never succeeds. It ends cancelled,
      unless a restart came first and failed it; a queued one is cancelled for good and never starts. */
  lemma CancelTakesEffect(states: seq<Runner>, steps: seq<Step>, i: nat, j: nat, id: Id)
    requires IsRun(states, steps) && i < j < |states| && steps[i] == Cancel(id)
    requires id in states[i].jobs && (states[i].jobs[id].status == Queued || states[i].jobs[id].status == Running)
    ensures id in states[j].jobs && states[j].jobs[id].status != Succeeded
    ensures Terminal(states[j].jobs[id].status) ==>
              states[j].jobs[id].status == Cancelled
              || (states[j].jobs[id].status == Failed && states[j].jobs[id].interrupted)
    ensures states[i].jobs[id].status == Queued ==>
              states[j].jobs[id].status == Cancelled && states[j].jobs[id].stage != InTask
  {
    RunInv(states, steps, i);
    RunInv(states, steps, j);
    assert Enabled(states[i], steps[i]) && states[i + 1] == Next(states[i], steps[i]);
    CancelCounts(states[i], id);
    AcceptedStays(states, steps, i + 1, j, id);
    TerminalForEver(states, steps, i + 1, j, id);
    assert JobOk(states[j], id);
    hide IsRun;
    hide TerminalEvents;
  }

  // ---------- progress and log ----------

  /** A task whose signal is not aborted has its progress stored and told, and its log lines told; an aborted
      one throws and changes nothing. */
  lemma TaskCallsExactly(r: Runner, id: Id, value: int)
    requires Enabled(r, TaskLog(id))
    ensures var s := Next(r, TaskProgress(id, value));
            if r.jobs[id].aborted then s == r
            else
              && id in s.jobs && s.jobs[id].progress == value
              && s.jobs == r.jobs[id := r.jobs[id].(progress := value)]
              && s.log == r.log + [Event(id, ProgressEvent, Some(value))]
    ensures var s := Next(r, TaskLog(id));
            if r.jobs[id].aborted then s == r
            else s.jobs == r.jobs && s.log == r.log + [Event(id, LogEvent, None)]
  {
  }

  /** The progress in the last event about a job that carries one. */
  function LastProgress(log: seq<Event>, id: Id): int {
    if log == [] then 0
    else
      var last := log[|log| - 1];
      if last.job == id && last.progress.Some? then last.progress.value else LastProgress(log[..|log| - 1], id)
  }

  /** What subscribers were told last is what the store says, and a job that waits has made no progress. */
  ghost predicate ProgressOk(r: Runner) {
    forall id <- r.jobs ::
      r.jobs[id].progress == LastProgress(r.log, id) && (r.jobs[id].stage == Waiting ==> r.jobs[id].progress == 0)
  }

  lemma LastAfter(log: seq<Event>, e: Event, id: Id)
    ensures LastProgress(log + [e], id) ==
            if e.job == id && e.progress.Some? then e.progress.value else LastProgress(log, id)
  {
    assert (log + [e])[..|log|] == log;
  }

  /** One event about one job. */
  lemma TellingKeepsProgress(r: Runner, s: Runner, id: Id, kind: EventKind, progress: Option<int>)
    requires ProgressOk(r) && id in s.jobs && s.jobs == r.jobs[id := s.jobs[id]]
    requires s.log == r.log + [Event(id, kind, progress)]
    requires if progress.Some? then s.jobs[id].progress == progress.value
             else id in r.jobs && s.jobs[id].progress == r.jobs[id].progress
    requires s.jobs[id].stage == Waiting ==> s.jobs[id].progress == 0
    ensures ProgressOk(s)
  {
    forall x | x in s.jobs
      ensures s.jobs[x].progress == LastProgress(s.log, x) && (s.jobs[x].stage == Waiting ==> s.jobs[x].progress == 0)
    {
      LastAfter(r.log, Event(id, kind, progress), x);
    }
  }

  /** No event, and no job makes progress. */
  lemma SilenceKeepsProgress(r: Runner, s: Runner, id: Id)
    requires ProgressOk(r) && id in r.jobs && id in s.jobs && s.jobs == r.jobs[id := s.jobs[id]] && s.log == r.log
    requires s.jobs[id].progress == r.jobs[id].progress && s.jobs[id].stage != Waiting
    ensures ProgressOk(s)
  {
  }

  lemma StartKeepsProgress(r: Runner, id: Id)
    requires ProgressOk(r) && id in r.jobs && r.jobs[id].stage == Waiting
    ensures ProgressOk(RunJob(r, id))
  {
    if id in r.cancelled {
      SilenceKeepsProgress(r, RunJob(r, id), id);
    } else {
      TellingKeepsProgress(r, RunJob(r, id), id, StartedEvent, Some(0));
    }
  }

  lemma EndKeepsProgress(r: Runner, step: Step)
    requires Inv(r) && ProgressOk(r) && Enabled(r, step) && (step.Resolve? || step.Reject?)
    ensures ProgressOk(Next(r, step))
  {
    var id := Ended(step);
    assert JobOk(r, id);
    hide TerminalEvents;
    var kind := EndKind(r.jobs[id], step.Resolve?);
    EndProgressShape(r, step);
    EndShape(r, step);
    hide Next;
    TellingKeepsProgress(r, Next(r, step), id, kind, EndProgress(kind));
  }

  /** A job that succeeds is at 100 percent; otherwise its progress stays. */
  lemma EndProgressShape(r: Runner, step: Step)
    requires Enabled(r, step) && (step.Resolve? || step.Reject?)
    requires var job := r.jobs[Ended(step)]; job.status == Running && (job.aborted <==> Ended(step) in r.cancelled)
    ensures var id := Ended(step);
            id in Next(r, step).jobs && Next(r, step).jobs[id].progress ==
              if step.Resolve? && !r.jobs[id].aborted then 100 else r.jobs[id].progress
  {
  }

  lemma DrainKeepsProgress(r: Runner, step: Step)
    requires Inv(r) && ProgressOk(r) && Enabled(r, step) && (step.DrainStart? || step.DrainResume?)
    ensures ProgressOk(Next(r, step))
  {
    var d := DrainOf(step);
    assert KeyOk(r, d.key);
    DrainIsTurn(r, step);
    hide Next;
    if Rest(r, d.key) != [] {
      RestHead(r, d.key);
      StartKeepsProgress(r, Rest(r, d.key)[0]);
    }
  }

  lemma StepKeepsProgress(r: Runner, step: Step)
    requires Inv(r) && r.alive && ProgressOk(r) && Enabled(r, step) && !step.Die?
    ensures ProgressOk(Next(r, step)) && Next(r, step).alive
  {
    AliveStays(r, step);
    hide *;
    if step.Resolve? || step.Reject? {
      EndKeepsProgress(r, step);
    } else if step.DrainStart? || step.DrainResume? {
      DrainKeepsProgress(r, step);
    } else {
      CallKeepsProgress(r, step);
    }
  }

  /** Only a death ends a process. */
  lemma AliveStays(r: Runner, step: Step)
    requires Enabled(r, step) && r.alive && !step.Die?
    ensures Next(r, step).alive
  {
    hide CancelJob;
    hide RunJob;
    hide DrainHead;
    hide TaskReturned;
    hide Finally;
    hide Catch;
    match step {
      case Cancel(id) => CancelKeepsAlive(r, id);
      case RunDirect(id) => RunKeepsAlive(r, id);
      case DrainStart(key) => HeadKeepsAlive(r, Drain(key, false));
      case DrainResume(key) => HeadKeepsAlive(Shifted(r, key), Drain(key, true));
      case Resolve(id) => EndKeepsAlive(r, id);
      case Reject(id) => EndKeepsAlive(r, id);
      case _ =>
    }
  }

  lemma CancelKeepsAlive(r: Runner, id: Id)
    ensures CancelJob(r, id).alive == r.alive
  {
  }

  lemma RunKeepsAlive(r: Runner, id: Id)
    requires id in r.jobs
    ensures RunJob(r, id).alive == r.alive
  {
  }

  lemma HeadKeepsAlive(r: Runner, d: Drain)
    ensures DrainHead(r, d).alive == r.alive
  {
  }

  lemma EndKeepsAlive(r: Runner, id: Id)
    requires id in r.jobs
    ensures TaskReturned(r, id).alive == r.alive && Finally(Catch(r, id), id).alive == r.alive
  {
    CatchKeepsAlive(r, id);
    CatchKeepsAlive(Put(r, id, r.jobs[id].(aborted := r.jobs[id].aborted || id in r.cancelled)), id);
    hide Catch;
  }

  lemma CatchKeepsAlive(r: Runner, id: Id)
    requires id in r.jobs
    ensures id in Catch(r, id).jobs && Catch(r, id).alive == r.alive
  {
  }

  lemma CallKeepsProgress(r: Runner, step: Step)
    requires Inv(r) && r.alive && ProgressOk(r) && Enabled(r, step) && !step.Die?
    requires !step.Resolve? && !step.Reject? && !step.DrainStart? && !step.DrainResume?
    ensures ProgressOk(Next(r, step))
  {
    var s := Next(r, step);
    match step {
      case Create(id) => TellingKeepsProgress(r, s, id, QueuedEvent, Some(0));
      case CreateQueued(key, id) => TellingKeepsProgress(r, s, id, QueuedEvent, Some(0));
      case Cancel(id) =>
        if s != r {
          CancelShape(r, id);
          TellingKeepsProgress(r, s, id, if r.jobs[id].status == Running then LogEvent else CancelledEvent, None);
        }
      case RunDirect(id) =>
        assert PlaceOk(r, id);
        StartKeepsProgress(r, id);
      case TaskLog(id) =>
        if !r.jobs[id].aborted {
          assert r.jobs[id := r.jobs[id]] == r.jobs;
          assert ProgressOk(r);
          TellingKeepsProgress(r, s, id, LogEvent, None);
        }
      case TaskProgress(id, value) =>
        if !r.jobs[id].aborted {
          assert JobOk(r, id);
          TellingKeepsProgress(r, s, id, ProgressEvent, Some(value));
        }
    }
  }

  /** In every run without the death of a process: the stored progress of a job is the one its last event told. */
  lemma {:induction false} StoredProgressIsTold(states: seq<Runner>, steps: seq<Step>, i: nat, id: Id)
    requires IsRun(states, steps) && i < |states| && id in states[i].jobs
    requires forall k :: 0 <= k < i ==> !steps[k].Die?
    ensures states[i].jobs[id].progress == LastProgress(states[i].log, id)
  {
    RunProgress(states, steps, i);
  }

  lemma {:induction false} RunProgress(states: seq<Runner>, steps: seq<Step>, i: nat)
    requires IsRun(states, steps) && i < |states| && forall k :: 0 <= k < i ==> !steps[k].Die?
    ensures ProgressOk(states[i]) && states[i].alive
  {
    hide Next;
    hide Enabled;
    hide ProgressOk;
    if i == 0 {
      EmptyProgress();
    } else {
      RunProgress(states, steps, i - 1);
      RunInv(states, steps, i - 1);
      StepKeepsProgress(states[i - 1], steps[i - 1]);
    }
  }

  lemma EmptyProgress()
    ensures ProgressOk(Empty())
  {
  }
}
