/** The job runner of jobs.runner.ts as a step machine. JavaScript runs each stretch between two awaits
    without interruption, so a step is one such stretch: a call from outside, the start of `runJob` up
    to its task, the end of that task up to the end of `runJob`, one turn of a drain loop, or a callback
    of a task. Tasks are arbitrary: they may keep calling `log` and `progress` after they have ended.

    The store is written statement by statement, so the process can also die inside a stretch, between the
    update of a job's row and the event that goes with it. A new process first fails the jobs it finds
    unfinished, and can die in the middle of that as well. */
module Jobs {
  import opened Base

  type Id = string
  type Key = string

  datatype Status = Queued | Running | Succeeded | Failed | Cancelled

  datatype EventKind =
    QueuedEvent | StartedEvent | LogEvent | ProgressEvent | CompletedEvent | FailedEvent | CancelledEvent

  datatype Event = Event(job: Id, kind: EventKind, progress: Option<int>)

  /** Waiting: `runJob` has not been called; InTask: its task is running; Over: `runJob` has returned. */
  datatype Stage = Waiting | InTask | Over

  /** `aborted` is the state of the job's abort signal, `entered` whether a task holds it, `queue` the
      queue the job was created on. `accepted` (a cancel was accepted) and `interrupted` (failed by
      restart recovery) are history. */
  datatype Job = Job(status: Status, progress: int, stage: Stage, aborted: bool, entered: bool, queue: Option<Key>,
                     accepted: bool, interrupted: bool)

  /** A `drainQueue` call: scheduled as a microtask, or awaiting `runJob` of the first entry. */
  datatype Drain = Drain(key: Key, awaiting: bool)

  /** `alive`: the process has come through its recovery. `torn` (the process died between the job's
      terminal update and its event), `enqueued` and `invoked` (since the process started, the jobs pushed
      to each queue and those `runJob` was called for, in order) are history. */
  datatype Runner = Runner(
    jobs: map<Id, Job>, running: set<Id>, cancelled: set<Id>, direct: set<Id>,
    queues: map<Key, seq<Id>>, drains: multiset<Drain>, log: seq<Event>, alive: bool,
    torn: set<Id>, enqueued: map<Key, seq<Id>>, invoked: map<Key, seq<Id>>)

  /** A stretch that got no further than the update of a job's row. */
  datatype Half =
    | HalfCreate(created: Id, queue: Option<Key>)
    | HalfCancel(cancelled: Id)
    | HalfStart(started: Id)
    | HalfProgress(progressed: Id, value: int)
    | HalfEnd(ended: Id, returned: bool)

  datatype Step =
    | Create(id: Id)
    | CreateQueued(key: Key, queuedId: Id)
    | Cancel(cancelId: Id)
    | RunDirect(directId: Id)
    | DrainStart(started: Key)
    | DrainResume(resumed: Key)
    | TaskLog(logId: Id)
    | TaskProgress(progressId: Id, value: int)
    | Resolve(resolved: Id)
    | Reject(rejected: Id)
    | Die(half: Option<Half>)
    | RecoverOne(recovered: Id)
    | DieRecovering(unreported: Id)
    | Start

  predicate Terminal(s: Status) {
    s == Succeeded || s == Failed || s == Cancelled
  }

  predicate TerminalKind(k: EventKind) {
    k == CompletedEvent || k == FailedEvent || k == CancelledEvent
  }

  function Empty(): Runner {
    Runner(map[], {}, {}, {}, map[], multiset{}, [], true, {}, map[], map[])
  }

  function Emit(r: Runner, id: Id, kind: EventKind, progress: Option<int>): Runner {
    r.(log := r.log + [Event(id, kind, progress)])
  }

  function Put(r: Runner, id: Id, job: Job): Runner {
    r.(jobs := r.jobs[id := job])
  }

  function HistoryOf(h: map<Key, seq<Id>>, key: Key): seq<Id> {
    if key in h then h[key] else []
  }

  function NewJob(queue: Option<Key>): Job {
    Job(Queued, 0, Waiting, false, false, queue, false, false)
  }

  function Created(r: Runner, id: Id): Runner {
    Emit(Put(r, id, NewJob(None)), id, QueuedEvent, Some(0)).(direct := r.direct + {id})
  }

  function Enqueued(r: Runner, key: Key, id: Id): Runner {
    var q := HistoryOf(r.queues, key) + [id];
    Emit(Put(r, id, NewJob(Some(key))), id, QueuedEvent, Some(0))
      .(queues := r.queues[key := q],
        drains := if |q| == 1 then r.drains + multiset{Drain(key, false)} else r.drains,
        enqueued := r.enqueued[key := HistoryOf(r.enqueued, key) + [id]])
  }

  function CancelJob(r: Runner, id: Id): Runner {
    if id !in r.jobs then r else
    var job := r.jobs[id];
    if (job.status != Queued && job.status != Running) || id in r.cancelled then r
    else if job.status == Running then
      Emit(Put(r, id, job.(aborted := job.aborted || id in r.running, accepted := true)), id, LogEvent, None)
        .(cancelled := r.cancelled + {id})
    else
      Emit(Put(r, id, job.(status := Cancelled, aborted := job.aborted || id in r.running, accepted := true)),
           id, CancelledEvent, None)
        .(cancelled := r.cancelled + {id})
  }

  /** `runJob` up to the call of its task. */
  function RunJob(r: Runner, id: Id): Runner
    requires id in r.jobs
  {
    var job := r.jobs[id];
    if id in r.cancelled then
      Put(r, id, job.(stage := Over)).(cancelled := r.cancelled - {id})
    else
      Emit(Put(r, id, job.(status := Running, stage := InTask, aborted := false, entered := true)), id, StartedEvent,
           Some(0))
        .(running := r.running + {id})
  }

  /** The `finally` block. */
  function Finally(r: Runner, id: Id): Runner
    requires id in r.jobs
  {
    Put(r, id, r.jobs[id].(stage := Over)).(running := r.running - {id}, cancelled := r.cancelled - {id})
  }

  /** The `catch` block. */
  function Catch(r: Runner, id: Id): Runner
    requires id in r.jobs
  {
    var job := r.jobs[id];
    if job.aborted || job.status == Cancelled then
      if job.status != Cancelled then Emit(Put(r, id, job.(status := Cancelled)), id, CancelledEvent, None) else r
    else
      Emit(Put(r, id, job.(status := Failed)), id, FailedEvent, None)
  }

  /** `runJob` from the end of a task that returned. */
  function TaskReturned(r: Runner, id: Id): Runner
    requires id in r.jobs
  {
    var job := r.jobs[id].(aborted := r.jobs[id].aborted || id in r.cancelled);
    var s := Put(r, id, job);
    if job.aborted then Finally(Catch(s, id), id)
    else if job.status == Cancelled then Finally(s, id)
    else Finally(Emit(Put(s, id, job.(status := Succeeded, progress := 100)), id, CompletedEvent, Some(100)), id)
  }

  /** A turn of the `drainQueue` call `d`: call `runJob` for the first entry, or leave. */
  function DrainHead(r: Runner, d: Drain): Runner {
    var q := HistoryOf(r.queues, d.key);
    if q == [] || q[0] !in r.jobs then
      r.(drains := r.drains - multiset{d}, queues := r.queues - {d.key})
    else
      RunJob(r, q[0]).(drains := r.drains - multiset{d} + multiset{Drain(d.key, true)},
                       invoked := r.invoked[d.key := HistoryOf(r.invoked, d.key) + [q[0]]])
  }

  function Shifted(r: Runner, key: Key): Runner
    requires key in r.queues && r.queues[key] != []
  {
    r.(queues := r.queues[key := r.queues[key][1..]])
  }

  function FailRow(r: Runner, id: Id): Runner
    requires id in r.jobs
  {
    Put(r, id, r.jobs[id].(status := Failed, interrupted := true))
  }

  /** One round of `recoverInterruptedJobs`. */
  function FailJob(r: Runner, id: Id): Runner
    requires id in r.jobs
  {
    Emit(FailRow(r, id), id, FailedEvent, None)
  }

  /** `recoverInterruptedJobs`, for the jobs the store lists. */
  function Recover(r: Runner, ids: seq<Id>): Runner
    requires forall id <- ids :: id in r.jobs
    decreases |ids|
  {
    if ids == [] then r else Recover(FailJob(r, ids[0]), ids[1..])
  }

  /** The job a half stretch is about, and the row it has written. */
  function HalfId(half: Half): Id {
    match half
    case HalfCreate(id, _) => id
    case HalfCancel(id) => id
    case HalfStart(id) => id
    case HalfProgress(id, _) => id
    case HalfEnd(id, _) => id
  }

  ghost predicate HalfEnabled(r: Runner, half: Half) {
    match half
    case HalfCreate(id, _) => id !in r.jobs
    case HalfCancel(id) => id in r.jobs && r.jobs[id].status == Queued && id !in r.cancelled
    case HalfStart(id) => id in r.jobs && r.jobs[id].stage == Waiting && id !in r.cancelled
    case HalfProgress(id, _) => id in r.jobs && r.jobs[id].entered && !r.jobs[id].aborted
    case HalfEnd(id, _) => id in r.jobs && r.jobs[id].stage == InTask && r.jobs[id].status == Running
  }

  function HalfRow(r: Runner, half: Half): Job
    requires half.HalfCreate? || HalfId(half) in r.jobs
  {
    match half
    case HalfCreate(_, queue) => NewJob(queue)
    case HalfCancel(id) => r.jobs[id].(status := Cancelled)
    case HalfStart(id) => r.jobs[id].(status := Running)
    case HalfProgress(id, value) => r.jobs[id].(progress := value)
    case HalfEnd(id, returned) =>
      var job := r.jobs[id];
      if job.aborted || (returned && id in r.cancelled) then job.(status := Cancelled)
      else if returned then job.(status := Succeeded, progress := 100)
      else job.(status := Failed)
  }

  /** The death of the process: the store and its events stay, everything in memory is gone. */
  function Died(r: Runner, jobs: map<Id, Job>, torn: set<Id>): Runner {
    Runner(map id | id in jobs :: jobs[id].(stage := Over, entered := false),
           {}, {}, {}, map[], multiset{}, r.log, false, r.torn + torn, map[], map[])
  }

  function DiedInside(r: Runner, half: Half): Runner
    requires half.HalfCreate? || HalfId(half) in r.jobs
  {
    Died(r, r.jobs[HalfId(half) := HalfRow(r, half)], if half.HalfCancel? || half.HalfEnd? then {HalfId(half)} else {})
  }

  predicate Interrupted(r: Runner, id: Id) {
    id in r.jobs && (r.jobs[id].status == Queued || r.jobs[id].status == Running)
  }

  predicate Recovering(step: Step) {
    step.RecoverOne? || step.DieRecovering? || step.Start?
  }

  ghost predicate Enabled(r: Runner, step: Step) {
    (r.alive <==> !Recovering(step)) &&
    match step
    case Create(id) => id !in r.jobs
    case CreateQueued(_, id) => id !in r.jobs
    case Cancel(_) => true
    case RunDirect(id) => id in r.direct && id in r.jobs
    case DrainStart(key) => Drain(key, false) in r.drains
    case DrainResume(key) =>
      && Drain(key, true) in r.drains && key in r.queues && r.queues[key] != []
      && r.queues[key][0] in r.jobs && r.jobs[r.queues[key][0]].stage == Over
    case TaskLog(id) => id in r.jobs && r.jobs[id].entered
    case TaskProgress(id, _) => id in r.jobs && r.jobs[id].entered
    case Resolve(id) => id in r.jobs && r.jobs[id].stage == InTask
    case Reject(id) => id in r.jobs && r.jobs[id].stage == InTask
    case Die(half) => half.None? || HalfEnabled(r, half.value)
    case RecoverOne(id) => Interrupted(r, id)
    case DieRecovering(id) => Interrupted(r, id)
    case Start => forall id :: !Interrupted(r, id)
  }

  function Next(r: Runner, step: Step): Runner
    requires Enabled(r, step)
  {
    match step
    case Create(id) => Created(r, id)
    case CreateQueued(key, id) => Enqueued(r, key, id)
    case Cancel(id) => CancelJob(r, id)
    case RunDirect(id) => RunJob(r, id).(direct := r.direct - {id})
    case DrainStart(key) => DrainHead(r, Drain(key, false))
    case DrainResume(key) => DrainHead(Shifted(r, key), Drain(key, true))
    case TaskLog(id) => if r.jobs[id].aborted then r else Emit(r, id, LogEvent, None)
    case TaskProgress(id, value) =>
      if r.jobs[id].aborted then r
      else Emit(Put(r, id, r.jobs[id].(progress := value)), id, ProgressEvent, Some(value))
    case Resolve(id) => TaskReturned(r, id)
    case Reject(id) => Finally(Catch(r, id), id)
    case Die(half) => if half.None? then Died(r, r.jobs, {}) else DiedInside(r, half.value)
    case RecoverOne(id) => FailJob(r, id)
    case DieRecovering(id) => FailRow(r, id).(torn := r.torn + {id})
    case Start => r.(alive := true)
  }

  // ---------- lifecycle ----------

  function TerminalEvents(log: seq<Event>, id: Id): nat {
    if log == [] then 0
    else
      var last := log[|log| - 1];
      TerminalEvents(log[..|log| - 1], id) + (if last.job == id && TerminalKind(last.kind) then 1 else 0)
  }

  lemma EmitCounts(r: Runner, id: Id, kind: EventKind, progress: Option<int>, x: Id)
    ensures TerminalEvents(Emit(r, id, kind, progress).log, x) ==
            TerminalEvents(r.log, x) + (if x == id && TerminalKind(kind) then 1 else 0)
  {
    assert (r.log + [Event(id, kind, progress)])[..|r.log|] == r.log;
  }

  /** What holds of one job at any time. */
  ghost predicate JobOk(r: Runner, id: Id)
    requires id in r.jobs
  {
    var job := r.jobs[id];
    && TerminalEvents(r.log, id) == (if Terminal(job.status) && id !in r.torn then 1 else 0)
    && (id in r.torn ==> Terminal(job.status))
    && (id in r.running <==> job.stage == InTask)
    && (r.alive || (job.stage == Over && !job.entered))
    && match job.stage
       case Waiting =>
         && (job.status == Queued || job.status == Cancelled)
         && (job.status == Cancelled <==> id in r.cancelled) && (job.accepted <==> id in r.cancelled)
         && !job.entered && !job.interrupted
       case InTask =>
         && job.status == Running && (job.aborted <==> id in r.cancelled) && (job.accepted <==> id in r.cancelled)
         && !job.interrupted
       case Over =>
         && (r.alive ==> Terminal(job.status)) && id !in r.cancelled
         && (job.accepted ==> job.status == Running || job.status == Cancelled
                              || (job.status == Failed && job.interrupted))
  }

  ghost predicate JobsOk(r: Runner) {
    && (forall id <- r.jobs :: JobOk(r, id))
    && (forall id: Id :: id !in r.jobs ==> TerminalEvents(r.log, id) == 0)
    && r.running <= r.jobs.Keys && r.cancelled <= r.jobs.Keys && r.torn <= r.jobs.Keys
  }

  /** The moves a job's status may make. */
  ghost predicate Allowed(before: Status, after: Status, step: Step) {
    || after == before
    || (before == Queued && (after == Running || after == Cancelled))
    || (before == Running && Terminal(after))
    || (Recovering(step) && before == Queued && after == Failed)
  }

  ghost predicate StatusesMove(r: Runner, s: Runner, step: Step) {
    r.jobs.Keys <= s.jobs.Keys && forall id <- r.jobs :: Allowed(r.jobs[id].status, s.jobs[id].status, step)
  }

  /** `s` differs from `r` only in what concerns job `id`. */
  ghost predicate Touches(r: Runner, s: Runner, id: Id) {
    s.alive == r.alive && forall x: Id :: x != id ==>
      && (x in s.jobs <==> x in r.jobs)
      && (x in s.torn <==> x in r.torn)
      && (x in r.jobs ==> s.jobs[x] == r.jobs[x])
      && (x in s.running <==> x in r.running)
      && (x in s.cancelled <==> x in r.cancelled)
      && TerminalEvents(s.log, x) == TerminalEvents(r.log, x)
  }

  lemma TouchKeeps(r: Runner, s: Runner, id: Id)
    requires JobsOk(r) && Touches(r, s, id) && id in s.jobs && JobOk(s, id)
    ensures JobsOk(s)
  {
    forall x: Id | x != id ensures x in s.jobs ==> JobOk(s, x)
                           ensures x !in s.jobs ==> TerminalEvents(s.log, x) == 0
    {
      assert x in r.jobs ==> JobOk(r, x);
    }
  }

  lemma EmitTouches(r: Runner, id: Id, kind: EventKind, progress: Option<int>)
    ensures Touches(r, Emit(r, id, kind, progress), id)
    ensures TerminalEvents(Emit(r, id, kind, progress).log, id)
            == TerminalEvents(r.log, id) + (if TerminalKind(kind) then 1 else 0)
  {
    forall x: Id ensures TerminalEvents(Emit(r, id, kind, progress).log, x) ==
                         TerminalEvents(r.log, x) + (if x == id && TerminalKind(kind) then 1 else 0)
    {
      EmitCounts(r, id, kind, progress, x);
    }
  }

  lemma NewJobOk(r: Runner, id: Id, queue: Option<Key>, s: Runner)
    requires JobsOk(r) && id !in r.jobs
    requires s.jobs == r.jobs[id := NewJob(queue)] && s.running == r.running && s.cancelled == r.cancelled
    requires s.log == r.log + [Event(id, QueuedEvent, Some(0))] && s.torn == r.torn && s.alive == r.alive && r.alive
    ensures JobsOk(s)
  {
    EmitTouches(r, id, QueuedEvent, Some(0));
    assert s.log == Emit(r, id, QueuedEvent, Some(0)).log;
    TouchKeeps(r, s, id);
  }

  lemma CancelShape(r: Runner, id: Id)
    requires CancelJob(r, id) != r
    ensures id in r.jobs && (r.jobs[id].status == Queued || r.jobs[id].status == Running) && id !in r.cancelled
    ensures var s, job := CancelJob(r, id), r.jobs[id];
            && s.jobs == r.jobs[id := s.jobs[id]] && s.cancelled == r.cancelled + {id} && s.running == r.running
            && s.jobs[id] == job.(status := if job.status == Queued then Cancelled else Running,
                                  aborted := job.aborted || id in r.running, accepted := true)
            && s.log == r.log + [Event(id, if job.status == Running then LogEvent else CancelledEvent, None)]
            && s == r.(jobs := s.jobs, cancelled := s.cancelled, log := s.log)
  {
  }

  lemma CancelKeeps(r: Runner, id: Id)
    requires JobsOk(r) && r.alive
    ensures JobsOk(CancelJob(r, id))
  {
    hide TerminalEvents;
    var s := CancelJob(r, id);
    if s != r {
      CancelShape(r, id);
      assert JobOk(r, id);
      EmitTouches(r, id, if r.jobs[id].status == Running then LogEvent else CancelledEvent, None);
      TouchKeeps(r, s, id);
    }
  }

  lemma RunJobKeeps(r: Runner, id: Id)
    requires JobsOk(r) && r.alive && id in r.jobs && r.jobs[id].stage == Waiting
    ensures JobsOk(RunJob(r, id))
    ensures r.jobs[id].status == RunJob(r, id).jobs[id].status
            || (r.jobs[id].status == Queued && RunJob(r, id).jobs[id].status == Running)
  {
    assert JobOk(r, id);
    hide JobsOk;
    RunJobTouches(r, id);
    RunJobSettles(r, id);
    hide RunJob;
    hide JobOk;
    hide Touches;
    TouchKeeps(r, RunJob(r, id), id);
  }

  lemma RunJobTouches(r: Runner, id: Id)
    requires id in r.jobs && r.jobs[id].stage == Waiting
    ensures Touches(r, RunJob(r, id), id)
    ensures TerminalEvents(RunJob(r, id).log, id) == TerminalEvents(r.log, id)
  {
    if id !in r.cancelled {
      EmitTouches(r, id, StartedEvent, Some(0));
      assert RunJob(r, id).log == Emit(r, id, StartedEvent, Some(0)).log;
    }
    hide TerminalEvents;
  }

  lemma RunJobSettles(r: Runner, id: Id)
    requires r.alive && id in r.jobs && r.jobs[id].stage == Waiting && JobOk(r, id)
    requires TerminalEvents(RunJob(r, id).log, id) == TerminalEvents(r.log, id)
    ensures JobOk(RunJob(r, id), id)
    ensures r.jobs[id].status == RunJob(r, id).jobs[id].status
            || (r.jobs[id].status == Queued && RunJob(r, id).jobs[id].status == Running)
  {
    hide TerminalEvents;
  }

  lemma TaskCallKeeps(r: Runner, step: Step)
    requires JobsOk(r) && Enabled(r, step) && (step.TaskLog? || step.TaskProgress?)
    ensures JobsOk(Next(r, step))
  {
    hide TerminalEvents;
    var id := if step.TaskLog? then step.logId else step.progressId;
    var s := Next(r, step);
    if s != r {
      assert JobOk(r, id);
      hide JobsOk;
      EmitTouches(Put(r, id, s.jobs[id]), id, if step.TaskLog? then LogEvent else ProgressEvent,
                  if step.TaskLog? then None else Some(step.value));
      TouchKeeps(r, s, id);
    }
  }

  /** The event `runJob` ends with, after a task that was running. */
  function EndKind(job: Job, returned: bool): EventKind {
    if job.aborted then CancelledEvent else if returned then CompletedEvent else FailedEvent
  }

  function EndProgress(kind: EventKind): Option<int> {
    if kind == CompletedEvent then Some(100) else None
  }

  function EndStatus(kind: EventKind): Status {
    if kind == CompletedEvent then Succeeded else if kind == FailedEvent then Failed else Cancelled
  }

  function Ended(step: Step): Id
    requires step.Resolve? || step.Reject?
  {
    if step.Resolve? then step.resolved else step.rejected
  }

  /** What the end of a task makes of its job: the row, the event, and nothing in memory about it. */
  ghost predicate Settles(r: Runner, s: Runner, id: Id, kind: EventKind)
    requires id in r.jobs
  {
    && id in s.jobs && s.jobs == r.jobs[id := s.jobs[id]]
    && s.jobs[id].status == EndStatus(kind) && s.jobs[id].stage == Over
    && s.jobs[id].queue == r.jobs[id].queue
    && s.jobs[id].accepted == r.jobs[id].accepted && s.jobs[id].interrupted == r.jobs[id].interrupted
    && s.log == r.log + [Event(id, kind, EndProgress(kind))]
    && s.running == r.running - {id} && s.cancelled == r.cancelled - {id}
    && s == r.(jobs := s.jobs, log := s.log, running := s.running, cancelled := s.cancelled)
  }

  lemma ReturnedSettles(r: Runner, id: Id)
    requires id in r.jobs && r.jobs[id].status == Running && (r.jobs[id].aborted <==> id in r.cancelled)
    ensures Settles(r, TaskReturned(r, id), id, EndKind(r.jobs[id], true))
  {
    assert r.jobs[id].(aborted := r.jobs[id].aborted || id in r.cancelled) == r.jobs[id];
    assert Put(r, id, r.jobs[id]) == r by {
      assert r.jobs[id := r.jobs[id]] == r.jobs;
    }
    if r.jobs[id].aborted {
      CaughtSettles(r, id);
    }
  }

  lemma CaughtSettles(r: Runner, id: Id)
    requires id in r.jobs && r.jobs[id].status == Running
    ensures Settles(r, Finally(Catch(r, id), id), id, EndKind(r.jobs[id], false))
  {
    hide TaskReturned;
  }

  /** A task's end settles its job in one step: aborted means cancelled, whatever the task did. */
  lemma EndShape(r: Runner, step: Step)
    requires Enabled(r, step) && (step.Resolve? || step.Reject?)
    requires var job := r.jobs[Ended(step)]; job.status == Running && (job.aborted <==> Ended(step) in r.cancelled)
    ensures Settles(r, Next(r, step), Ended(step), EndKind(r.jobs[Ended(step)], step.Resolve?))
  {
    hide TaskReturned;
    hide Settles;
    if step.Resolve? {
      ReturnedSettles(r, step.resolved);
    } else {
      CaughtSettles(r, step.rejected);
    }
  }

  lemma EndedKeeps(r: Runner, s: Runner, id: Id, resolved: bool)
    requires JobsOk(r) && id in r.jobs && r.jobs[id].stage == InTask
    requires Settles(r, s, id, EndKind(r.jobs[id], resolved))
    ensures JobsOk(s) && Terminal(s.jobs[id].status) && (r.jobs[id].accepted ==> s.jobs[id].status == Cancelled)
  {
    assert JobOk(r, id);
    var kind := EndKind(r.jobs[id], resolved);
    EmitTouches(r, id, kind, EndProgress(kind));
    assert s.log == Emit(r, id, kind, EndProgress(kind)).log;
    assert JobOk(s, id);
    assert Touches(r, s, id);
    TouchKeeps(r, s, id);
  }

  lemma EndKeeps(r: Runner, step: Step)
    requires JobsOk(r) && Enabled(r, step) && (step.Resolve? || step.Reject?)
    ensures JobsOk(Next(r, step))
    ensures var id := Ended(step);
            && r.jobs[id].status == Running && Terminal(Next(r, step).jobs[id].status)
            && (r.jobs[id].accepted ==> Next(r, step).jobs[id].status == Cancelled)
  {
    assert JobOk(r, Ended(step));
    hide JobsOk;
    EndShape(r, step);
    EndedKeeps(r, Next(r, step), Ended(step), step.Resolve?);
  }

  /** Recovery fails exactly the listed jobs, with one event each, and nothing else changes. */
  lemma {:induction false} RecoverKeeps(r: Runner, ids: seq<Id>)
    requires Distinct(ids) && forall id <- ids :: id in r.jobs
    ensures Recover(r, ids).jobs.Keys == r.jobs.Keys
    ensures forall id <- r.jobs :: Recover(r, ids).jobs[id] ==
              if id in ids then r.jobs[id].(status := Failed, interrupted := true) else r.jobs[id]
    ensures forall id: Id ::
              TerminalEvents(Recover(r, ids).log, id) == TerminalEvents(r.log, id) + (if id in ids then 1 else 0)
    ensures Recover(r, ids) == r.(jobs := Recover(r, ids).jobs, log := Recover(r, ids).log)
    decreases |ids|
  {
    if ids != [] {
      var id := ids[0];
      assert ids == [id] + ids[1..];
      DistinctTail(ids);
      RecoverKeeps(FailJob(r, id), ids[1..]);
      forall x: Id
        ensures TerminalEvents(FailJob(r, id).log, x) == TerminalEvents(r.log, x) + (if x == id then 1 else 0)
      {
        EmitCounts(FailRow(r, id), id, FailedEvent, None, x);
      }
    }
  }

  /** The recovery of a process that comes through is one recovery step for every job it lists. */
  lemma {:induction false} RecoveryIsSteps(r: Runner, ids: seq<Id>) returns (states: seq<Runner>)
    requires !r.alive && Distinct(ids) && (forall id <- ids :: id in r.jobs) && forall id <- ids :: Interrupted(r, id)
    ensures |states| == |ids| + 1 && states[0] == r && states[|ids|] == Recover(r, ids)
    ensures forall i :: 0 <= i < |ids| ==>
              Enabled(states[i], RecoverOne(ids[i])) && states[i + 1] == Next(states[i], RecoverOne(ids[i]))
    decreases |ids|
  {
    if ids == [] {
      states := [r];
    } else {
      DistinctTail(ids);
      assert ids == [ids[0]] + ids[1..];
      forall id | id in ids[1..] ensures Interrupted(FailJob(r, ids[0]), id) {
        assert id in ids && id != ids[0];
      }
      var others := RecoveryIsSteps(FailJob(r, ids[0]), ids[1..]);
      states := [r] + others;
      forall i | 0 <= i < |ids|
        ensures Enabled(states[i], RecoverOne(ids[i])) && states[i + 1] == Next(states[i], RecoverOne(ids[i]))
      {
        if i > 0 {
          assert states[i] == others[i - 1] && ids[i] == ids[1..][i - 1];
        }
      }
    }
  }

  /** Failing an unfinished job of a dead process, with or without its event. */
  lemma FailedKeeps(r: Runner, s: Runner, id: Id, reported: bool)
    requires JobsOk(r) && !r.alive && Interrupted(r, id)
    requires s.jobs == r.jobs[id := r.jobs[id].(status := Failed, interrupted := true)]
    requires s.running == r.running && s.cancelled == r.cancelled && !s.alive
    requires s.torn == if reported then r.torn else r.torn + {id}
    requires forall x: Id ::
               TerminalEvents(s.log, x) == TerminalEvents(r.log, x) + (if reported && x == id then 1 else 0)
    ensures JobsOk(s)
  {
    assert JobOk(r, id);
    hide TerminalEvents;
    assert JobOk(s, id) && Touches(r, s, id);
    TouchKeeps(r, s, id);
  }

  lemma FailJobCounts(r: Runner, id: Id)
    requires id in r.jobs
    ensures forall x: Id ::
              TerminalEvents(FailJob(r, id).log, x) == TerminalEvents(r.log, x) + (if x == id then 1 else 0)
  {
    forall x: Id
      ensures TerminalEvents(FailJob(r, id).log, x) == TerminalEvents(r.log, x) + (if x == id then 1 else 0)
    {
      EmitCounts(FailRow(r, id), id, FailedEvent, None, x);
    }
  }

  lemma RecoverOneKeeps(r: Runner, id: Id)
    requires JobsOk(r) && !r.alive && Interrupted(r, id)
    ensures JobsOk(FailJob(r, id))
  {
    hide JobsOk;
    FailJobCounts(r, id);
    hide TerminalEvents;
    FailedKeeps(r, FailJob(r, id), id, true);
  }

  lemma DieRecoveringKeeps(r: Runner, id: Id)
    requires JobsOk(r) && !r.alive && Interrupted(r, id)
    ensures JobsOk(FailRow(r, id).(torn := r.torn + {id}))
  {
    hide JobsOk;
    hide TerminalEvents;
    FailedKeeps(r, FailRow(r, id).(torn := r.torn + {id}), id, false);
  }

  lemma RecoverStepKeeps(r: Runner, step: Step)
    requires JobsOk(r) && Enabled(r, step) && (step.RecoverOne? || step.DieRecovering?)
    ensures JobsOk(Next(r, step)) && StatusesMove(r, Next(r, step), step)
  {
    hide JobsOk;
    if step.RecoverOne? {
      RecoverOneKeeps(r, step.recovered);
    } else {
      DieRecoveringKeeps(r, step.unreported);
    }
    hide Emit;
  }

  lemma StartKeeps(r: Runner)
    requires JobsOk(r) && Enabled(r, Start)
    ensures JobsOk(Next(r, Start))
  {
    forall id | id in r.jobs ensures JobOk(Next(r, Start), id) {
      assert JobOk(r, id) && !Interrupted(r, id);
    }
  }

  /** Whatever the process was doing when it died, at most the event of one terminal update is missing. */
  lemma DieKeeps(r: Runner, half: Option<Half>)
    requires JobsOk(r) && Enabled(r, Die(half))
    ensures JobsOk(Next(r, Die(half))) && StatusesMove(r, Next(r, Die(half)), Die(half))
  {
    hide JobOk;
    hide HalfRow;
    hide Allowed;
    var s := Next(r, Die(half));
    forall id | id in s.jobs
      ensures JobOk(s, id) && (id in r.jobs ==> Allowed(r.jobs[id].status, s.jobs[id].status, Die(half)))
    {
      DieKeepsJob(r, half, id);
    }
  }

  lemma DieKeepsJob(r: Runner, half: Option<Half>, id: Id)
    requires JobsOk(r) && Enabled(r, Die(half)) && id in Next(r, Die(half)).jobs
    ensures JobOk(Next(r, Die(half)), id)
    ensures id in r.jobs ==> Allowed(r.jobs[id].status, Next(r, Die(half)).jobs[id].status, Die(half))
  {
    assert id in r.jobs ==> JobOk(r, id);
    assert id !in r.jobs ==> TerminalEvents(r.log, id) == 0;
    hide JobsOk;
    hide TerminalEvents;
  }

  // ---------- the queues ----------

  ghost predicate Awaited(r: Runner, key: Key) {
    Drain(key, true) in r.drains
  }

  /** The jobs of a queue that `runJob` has not been called for. */
  ghost function Rest(r: Runner, key: Key): seq<Id> {
    var q := HistoryOf(r.queues, key);
    if Awaited(r, key) && q != [] then q[1..] else q
  }

  /** A queue that exists is not empty and has exactly one drain; no other drain exists. Its entries are
      jobs of this queue, each once; the first of an awaited queue has been started, the rest wait. */
  ghost predicate KeyOk(r: Runner, key: Key) {
    && r.drains[Drain(key, true)] + r.drains[Drain(key, false)] == (if key in r.queues then 1 else 0)
    && (key in r.queues ==>
          var q := r.queues[key];
          && q != [] && Distinct(q)
          && (forall id <- q :: id in r.jobs && r.jobs[id].queue == Some(key))
          && (forall id <- Rest(r, key) :: id in r.jobs && r.jobs[id].stage == Waiting)
          && (Awaited(r, key) ==> q[0] in r.jobs && r.jobs[q[0]].stage != Waiting))
  }

  /** A queue's job that is in its task is the first entry of its awaited queue; one that waits is still
      in the queue. A job created without a queue waits for its microtask. */
  ghost predicate PlaceOk(r: Runner, id: Id)
    requires id in r.jobs
  {
    match r.jobs[id].queue
    case None => r.jobs[id].stage == Waiting <==> id in r.direct
    case Some(key) =>
      && id !in r.direct
      && (r.jobs[id].stage == InTask ==>
            key in r.queues && Awaited(r, key) && r.queues[key] != [] && r.queues[key][0] == id)
      && (r.jobs[id].stage == Waiting ==> key in r.queues && id in Rest(r, key))
  }

  /** Started jobs followed by waiting ones are exactly the pushed jobs, in order. */
  ghost predicate OrderOk(r: Runner, key: Key) {
    HistoryOf(r.enqueued, key) == HistoryOf(r.invoked, key) + Rest(r, key)
  }

  ghost predicate QueuesOk(r: Runner) {
    && (forall key: Key :: KeyOk(r, key))
    && (forall id <- r.jobs :: PlaceOk(r, id))
    && (forall key: Key :: OrderOk(r, key))
    && r.direct <= r.jobs.Keys
  }

  lemma RestIsQueued(r: Runner, key: Key, id: Id)
    requires id in Rest(r, key)
    ensures key in r.queues && id in r.queues[key]
  {
  }

  /** Only job `id` has changed, and it has not started on behalf of a queue. */
  ghost predicate LocalChange(r: Runner, s: Runner, id: Id) {
    && s.queues == r.queues && s.drains == r.drains && s.enqueued == r.enqueued && s.invoked == r.invoked
    && id in r.jobs && id in s.jobs && s.jobs == r.jobs[id := s.jobs[id]]
    && s.jobs[id].queue == r.jobs[id].queue
    && ((s.direct == r.direct && s.jobs[id].stage == r.jobs[id].stage)
        || (s.direct == r.direct && r.jobs[id].stage == InTask && s.jobs[id].stage == Over)
        || (id in r.direct && s.direct == r.direct - {id} && s.jobs[id].stage != Waiting))
  }

  lemma LocalKeepsKey(r: Runner, s: Runner, id: Id, key: Key)
    requires LocalChange(r, s, id) && KeyOk(r, key) && PlaceOk(r, id)
    ensures KeyOk(s, key) && Rest(s, key) == Rest(r, key)
  {
    assert Rest(s, key) == Rest(r, key);
    forall x | x in Rest(s, key) ensures x in s.jobs && s.jobs[x].stage == Waiting {
      RestIsQueued(r, key, x);
    }
    if Awaited(s, key) && key in s.queues {
      assert r.queues[key][0] in r.queues[key];
    }
  }

  lemma LocalKeepsQueues(r: Runner, s: Runner, id: Id)
    requires QueuesOk(r) && LocalChange(r, s, id)
    ensures QueuesOk(s)
  {
    assert PlaceOk(r, id);
    forall key: Key ensures KeyOk(s, key) && OrderOk(s, key) {
      assert KeyOk(r, key) && OrderOk(r, key);
      LocalKeepsKey(r, s, id, key);
    }
    forall x | x in s.jobs ensures PlaceOk(s, x) {
      assert PlaceOk(r, x);
      if r.jobs[x].queue.Some? {
        assert Rest(s, r.jobs[x].queue.value) == Rest(r, r.jobs[x].queue.value);
      }
    }
  }

  lemma CreateKeepsKey(r: Runner, id: Id, key: Key)
    requires KeyOk(r, key) && id !in r.jobs
    ensures KeyOk(Created(r, id), key) && Rest(Created(r, id), key) == Rest(r, key)
  {
    assert Rest(Created(r, id), key) == Rest(r, key);
  }

  lemma CreateKeepsQueues(r: Runner, id: Id)
    requires QueuesOk(r) && id !in r.jobs
    ensures QueuesOk(Created(r, id))
  {
    var s := Created(r, id);
    forall key: Key ensures KeyOk(s, key) && OrderOk(s, key) {
      assert KeyOk(r, key) && OrderOk(r, key);
      CreateKeepsKey(r, id, key);
    }
    forall x | x in s.jobs ensures PlaceOk(s, x) {
      assert x != id ==> PlaceOk(r, x);
      if x != id && r.jobs[x].queue.Some? {
        assert Rest(s, r.jobs[x].queue.value) == Rest(r, r.jobs[x].queue.value);
      }
    }
  }

  lemma EnqueueKeepsKey(r: Runner, key: Key, id: Id, k: Key)
    requires KeyOk(r, k) && id !in r.jobs
    ensures KeyOk(Enqueued(r, key, id), k)
    ensures Rest(Enqueued(r, key, id), k) == if k == key then Rest(r, key) + [id] else Rest(r, k)
    ensures Awaited(Enqueued(r, key, id), k) <==> Awaited(r, k)
  {
    var s := Enqueued(r, key, id);
    assert Rest(s, k) == if k == key then Rest(r, key) + [id] else Rest(r, k);
    if k == key && k in r.queues {
      assert id !in r.queues[k];
      assert Awaited(r, k) ==> r.queues[k][0] in r.queues[k];
    }
  }

  lemma EnqueueKeepsQueues(r: Runner, key: Key, id: Id)
    requires QueuesOk(r) && id !in r.jobs
    ensures QueuesOk(Enqueued(r, key, id))
  {
    var s := Enqueued(r, key, id);
    forall k: Key ensures KeyOk(s, k) && OrderOk(s, k) {
      assert KeyOk(r, k) && OrderOk(r, k);
      EnqueueKeepsKey(r, key, id, k);
    }
    forall x | x in s.jobs ensures PlaceOk(s, x) {
      assert x != id ==> PlaceOk(r, x);
      if s.jobs[x].queue.Some? {
        assert KeyOk(r, s.jobs[x].queue.value);
        EnqueueKeepsKey(r, key, id, s.jobs[x].queue.value);
      }
    }
  }

  /** One turn of a drain: both its start and its resumption look at the first job not yet started. */
  ghost function Turn(r: Runner, d: Drain): Runner
    requires Rest(r, d.key) != [] ==> Rest(r, d.key)[0] in r.jobs
  {
    var rest := Rest(r, d.key);
    if rest == [] then r.(drains := r.drains - multiset{d}, queues := r.queues - {d.key})
    else RunJob(r, rest[0]).(queues := r.queues[d.key := rest],
                             drains := r.drains - multiset{d} + multiset{Drain(d.key, true)},
                             invoked := r.invoked[d.key := HistoryOf(r.invoked, d.key) + [rest[0]]])
  }

  lemma RestHead(r: Runner, key: Key)
    requires KeyOk(r, key) && Rest(r, key) != []
    ensures key in r.queues && Rest(r, key)[0] in r.jobs && Rest(r, key)[0] in r.queues[key]
    ensures r.jobs[Rest(r, key)[0]].stage == Waiting && r.jobs[Rest(r, key)[0]].queue == Some(key)
  {
    assert Rest(r, key)[0] in Rest(r, key);
    RestIsQueued(r, key, Rest(r, key)[0]);
  }

  function DrainOf(step: Step): Drain
    requires step.DrainStart? || step.DrainResume?
  {
    if step.DrainStart? then Drain(step.started, false) else Drain(step.resumed, true)
  }

  /** `runJob` does not look at the queues. */
  lemma RunJobAside(r: Runner, queues: map<Key, seq<Id>>, id: Id)
    requires id in r.jobs
    ensures RunJob(r.(queues := queues), id) == RunJob(r, id).(queues := queues)
  {
    var job, s := r.jobs[id], r.(queues := queues);
    if id in r.cancelled {
      var over := r.jobs[id := job.(stage := Over)];
      assert RunJob(s, id) == s.(jobs := over, cancelled := r.cancelled - {id});
      assert RunJob(r, id) == r.(jobs := over, cancelled := r.cancelled - {id});
    } else {
      var inTask := r.jobs[id := job.(status := Running, stage := InTask, aborted := false, entered := true)];
      var log := r.log + [Event(id, StartedEvent, Some(0))];
      assert RunJob(s, id) == s.(jobs := inTask, log := log, running := r.running + {id});
      assert RunJob(r, id) == r.(jobs := inTask, log := log, running := r.running + {id});
    }
    hide RunJob;
  }

  lemma DrainIsTurn(r: Runner, step: Step)
    requires Enabled(r, step) && (step.DrainStart? || step.DrainResume?) && KeyOk(r, DrainOf(step).key)
    ensures Rest(r, DrainOf(step).key) != [] ==> Rest(r, DrainOf(step).key)[0] in r.jobs
    ensures Next(r, step) == Turn(r, DrainOf(step))
  {
    if step.DrainStart? {
      DrainStartIsTurn(r, step.started);
    } else {
      DrainResumeIsTurn(r, step.resumed);
    }
  }

  lemma DrainStartIsTurn(r: Runner, key: Key)
    requires KeyOk(r, key) && Drain(key, false) in r.drains
    ensures Rest(r, key) != [] ==> Rest(r, key)[0] in r.jobs
    ensures DrainHead(r, Drain(key, false)) == Turn(r, Drain(key, false))
  {
    if Rest(r, key) != [] {
      RestHead(r, key);
    }
    hide RunJob;
    assert key in r.queues ==> r.queues[key := r.queues[key]] == r.queues;
  }

  lemma DrainResumeIsTurn(r: Runner, key: Key)
    requires KeyOk(r, key) && Enabled(r, DrainResume(key))
    ensures Rest(r, key) != [] ==> Rest(r, key)[0] in r.jobs
    ensures DrainHead(Shifted(r, key), Drain(key, true)) == Turn(r, Drain(key, true))
  {
    hide RunJob;
    if Rest(r, key) != [] {
      RestHead(r, key);
      RunJobAside(r, r.queues[key := r.queues[key][1..]], Rest(r, key)[0]);
    }
    assert r.queues[key := r.queues[key][1..]] - {key} == r.queues - {key};
  }

  lemma TurnKeepsOther(r: Runner, d: Drain, k: Key)
    requires KeyOk(r, d.key) && KeyOk(r, k) && k != d.key
    requires Rest(r, d.key) != [] ==> Rest(r, d.key)[0] in r.jobs && r.jobs[Rest(r, d.key)[0]].queue == Some(d.key)
    ensures KeyOk(Turn(r, d), k) && Rest(Turn(r, d), k) == Rest(r, k)
    ensures (Awaited(Turn(r, d), k) <==> Awaited(r, k)) && (k in Turn(r, d).queues <==> k in r.queues)
    ensures k in r.queues ==> Turn(r, d).queues[k] == r.queues[k]
  {
    var s := Turn(r, d);
    if Rest(r, d.key) != [] {
      RunJobLeaves(r, Rest(r, d.key)[0]);
    }
    hide RunJob;
    assert Rest(s, k) == Rest(r, k);
    if k in r.queues {
      forall x | x in Rest(s, k) ensures x in s.jobs && s.jobs[x].stage == Waiting {
        RestIsQueued(r, k, x);
      }
      assert Awaited(r, k) ==> r.queues[k][0] in r.queues[k];
    }
  }

  lemma TurnEnds(r: Runner, d: Drain)
    requires KeyOk(r, d.key) && d in r.drains && Rest(r, d.key) == []
    ensures KeyOk(Turn(r, d), d.key) && Rest(Turn(r, d), d.key) == [] && !Awaited(Turn(r, d), d.key)
  {
  }

  lemma TurnRuns(r: Runner, d: Drain)
    requires KeyOk(r, d.key) && d in r.drains && Rest(r, d.key) != []
    ensures Rest(r, d.key)[0] in r.jobs
    ensures KeyOk(Turn(r, d), d.key) && Rest(Turn(r, d), d.key) == Rest(r, d.key)[1..] && Awaited(Turn(r, d), d.key)
    ensures Turn(r, d).queues[d.key] == Rest(r, d.key)
  {
    var rest := Rest(r, d.key);
    RestHead(r, d.key);
    DistinctTail(r.queues[d.key]);
    DistinctTail(rest);
    var s := Turn(r, d);
    assert s.queues[d.key] == rest && Awaited(s, d.key);
    assert Rest(s, d.key) == rest[1..];
    RunJobLeaves(r, rest[0]);
    hide RunJob;
    forall x | x in rest ensures x in s.jobs && s.jobs[x].queue == Some(d.key) {
      RestIsQueued(r, d.key, x);
    }
    forall x | x in rest[1..] ensures s.jobs[x].stage == Waiting {
      assert x in rest;
    }
  }

  /** `runJob` moves its own job out of the waiting stage and leaves every other job alone. */
  lemma RunJobLeaves(r: Runner, id: Id)
    requires id in r.jobs
    ensures var s := RunJob(r, id);
            && s.jobs.Keys == r.jobs.Keys && s.jobs[id].stage != Waiting && s.jobs[id].queue == r.jobs[id].queue
            && s.queues == r.queues && s.drains == r.drains && s.enqueued == r.enqueued && s.invoked == r.invoked
            && forall x <- r.jobs :: x != id ==> s.jobs[x] == r.jobs[x]
  {
    var job := r.jobs[id];
    if id in r.cancelled {
      assert RunJob(r, id).jobs == r.jobs[id := job.(stage := Over)];
    } else {
      assert RunJob(r, id).jobs == r.jobs[id := job.(status := Running, stage := InTask, aborted := false,
                                                     entered := true)];
    }
  }

  lemma TurnKeepsKey(r: Runner, d: Drain, k: Key)
    requires KeyOk(r, d.key) && KeyOk(r, k) && d in r.drains
    ensures Rest(r, d.key) != [] ==> Rest(r, d.key)[0] in r.jobs
    ensures KeyOk(Turn(r, d), k)
    ensures Rest(Turn(r, d), k) == if k == d.key then (if Rest(r, k) == [] then [] else Rest(r, k)[1..]) else Rest(r, k)
  {
    if Rest(r, d.key) == [] {
      TurnEnds(r, d);
    } else {
      RestHead(r, d.key);
      TurnRuns(r, d);
    }
    if k != d.key {
      TurnKeepsOther(r, d, k);
    }
  }

  lemma TurnHistories(r: Runner, d: Drain)
    requires Rest(r, d.key) != [] ==> Rest(r, d.key)[0] in r.jobs
    ensures Turn(r, d).enqueued == r.enqueued
    ensures Turn(r, d).invoked ==
            if Rest(r, d.key) == [] then r.invoked
            else r.invoked[d.key := HistoryOf(r.invoked, d.key) + [Rest(r, d.key)[0]]]
  {
    if Rest(r, d.key) != [] {
      RunJobLeaves(r, Rest(r, d.key)[0]);
    }
    hide RunJob;
    hide Rest;
  }

  lemma TurnKeepsOrder(r: Runner, d: Drain, k: Key)
    requires KeyOk(r, d.key) && KeyOk(r, k) && d in r.drains && OrderOk(r, k)
    ensures Rest(r, d.key) != [] ==> Rest(r, d.key)[0] in r.jobs
    ensures OrderOk(Turn(r, d), k)
  {
    hide KeyOk;
    hide Rest;
    hide RunJob;
    TurnKeepsKey(r, d, k);
    TurnHistories(r, d);
    hide Turn;
    if k == d.key && Rest(r, k) != [] {
      var rest := Rest(r, k);
      assert HistoryOf(r.invoked, k) + rest == (HistoryOf(r.invoked, k) + [rest[0]]) + rest[1..];
    }
  }

  lemma TurnKeepsPlace(r: Runner, d: Drain, x: Id)
    requires KeyOk(r, d.key) && d in r.drains && x in r.jobs && PlaceOk(r, x)
    requires r.jobs[x].queue.Some? ==> KeyOk(r, r.jobs[x].queue.value)
    requires d.awaiting && d.key in r.queues ==>
               r.queues[d.key][0] in r.jobs && r.jobs[r.queues[d.key][0]].stage == Over
    requires Rest(r, d.key) != [] ==> Rest(r, d.key)[0] in r.jobs
    ensures x in Turn(r, d).jobs && PlaceOk(Turn(r, d), x)
  {
    if Rest(r, d.key) == [] {
      TurnEnds(r, d);
    } else {
      RestHead(r, d.key);
      TurnRuns(r, d);
    }
    if r.jobs[x].queue.Some? && r.jobs[x].queue.value != d.key {
      TurnKeepsOther(r, d, r.jobs[x].queue.value);
    }
  }

  lemma TurnKeepsQueues(r: Runner, d: Drain)
    requires QueuesOk(r) && d in r.drains
    requires d.awaiting && d.key in r.queues && r.queues[d.key] != [] && r.queues[d.key][0] in r.jobs
             ==> r.jobs[r.queues[d.key][0]].stage == Over
    ensures Rest(r, d.key) != [] ==> Rest(r, d.key)[0] in r.jobs
    ensures QueuesOk(Turn(r, d))
  {
    assert KeyOk(r, d.key);
    if Rest(r, d.key) != [] {
      RestHead(r, d.key);
    }
    var s := Turn(r, d);
    forall k: Key ensures KeyOk(s, k) && OrderOk(s, k) {
      assert KeyOk(r, k) && OrderOk(r, k);
      TurnKeepsKey(r, d, k);
      TurnKeepsOrder(r, d, k);
    }
    forall x | x in s.jobs ensures PlaceOk(s, x) {
      assert PlaceOk(r, x);
      assert r.jobs[x].queue.Some? ==> KeyOk(r, r.jobs[x].queue.value);
      TurnKeepsPlace(r, d, x);
    }
  }

  // ---------- every step, every run ----------

  ghost predicate Inv(r: Runner) {
    JobsOk(r) && QueuesOk(r)
  }

  lemma SameJobs(r: Runner, s: Runner)
    requires JobsOk(r) && s.jobs == r.jobs && s.running == r.running && s.cancelled == r.cancelled && s.log == r.log
    requires s.torn == r.torn && s.alive == r.alive
    ensures JobsOk(s)
  {
    forall id | id in s.jobs ensures JobOk(s, id) {
      assert JobOk(r, id);
    }
  }

  lemma TurnKeepsJobs(r: Runner, d: Drain)
    requires JobsOk(r) && r.alive && KeyOk(r, d.key)
    ensures Rest(r, d.key) != [] ==> Rest(r, d.key)[0] in r.jobs
    ensures var s := Turn(r, d);
            && JobsOk(s) && r.jobs.Keys == s.jobs.Keys
            && forall id <- r.jobs ::
                 s.jobs[id].status == r.jobs[id].status || (r.jobs[id].status == Queued && s.jobs[id].status == Running)
  {
    if Rest(r, d.key) == [] {
      SameJobs(r, Turn(r, d));
    } else {
      RestHead(r, d.key);
      var id := Rest(r, d.key)[0];
      hide KeyOk;
      hide Rest;
      RunJobKeeps(r, id);
      RunJobLeaves(r, id);
      hide JobOk;
      SameJobs(RunJob(r, id), Turn(r, d));
      hide JobsOk;
      hide RunJob;
    }
  }

  lemma DrainKeepsJobs(r: Runner, step: Step)
    requires JobsOk(r) && Enabled(r, step) && (step.DrainStart? || step.DrainResume?) && KeyOk(r, DrainOf(step).key)
    ensures JobsOk(Next(r, step)) && StatusesMove(r, Next(r, step), step)
  {
    DrainIsTurn(r, step);
    TurnKeepsJobs(r, DrainOf(step));
    hide Next;
    hide JobsOk;
    hide KeyOk;
    hide Turn;
  }

  lemma DrainKeepsQueues(r: Runner, step: Step)
    requires QueuesOk(r) && Enabled(r, step) && (step.DrainStart? || step.DrainResume?)
    ensures QueuesOk(Next(r, step))
  {
    assert KeyOk(r, DrainOf(step).key);
    DrainIsTurn(r, step);
    TurnKeepsQueues(r, DrainOf(step));
  }

  lemma RunDirectKeeps(r: Runner, id: Id)
    requires Inv(r) && Enabled(r, RunDirect(id))
    ensures Inv(Next(r, RunDirect(id))) && StatusesMove(r, Next(r, RunDirect(id)), RunDirect(id))
  {
    assert PlaceOk(r, id);
    RunJobKeeps(r, id);
    SameJobs(RunJob(r, id), Next(r, RunDirect(id)));
    LocalKeepsQueues(r, Next(r, RunDirect(id)), id);
  }

  lemma CancelStepKeeps(r: Runner, id: Id)
    requires Inv(r) && r.alive
    ensures Inv(CancelJob(r, id)) && StatusesMove(r, CancelJob(r, id), Cancel(id))
  {
    CancelKeeps(r, id);
    if CancelJob(r, id) != r {
      CancelShape(r, id);
      LocalKeepsQueues(r, CancelJob(r, id), id);
    }
  }

  lemma CallStepKeeps(r: Runner, step: Step)
    requires Inv(r) && Enabled(r, step) && (step.TaskLog? || step.TaskProgress?)
    ensures Inv(Next(r, step)) && StatusesMove(r, Next(r, step), step)
  {
    TaskCallKeeps(r, step);
    if Next(r, step) != r {
      LocalKeepsQueues(r, Next(r, step), if step.TaskLog? then step.logId else step.progressId);
    }
  }

  lemma EndStepKeeps(r: Runner, step: Step)
    requires Inv(r) && Enabled(r, step) && (step.Resolve? || step.Reject?)
    ensures Inv(Next(r, step)) && StatusesMove(r, Next(r, step), step)
  {
    assert JobOk(r, Ended(step));
    EndKeeps(r, step);
    EndShape(r, step);
    LocalKeepsQueues(r, Next(r, step), Ended(step));
  }

  lemma CreationKeeps(r: Runner, step: Step)
    requires Inv(r) && Enabled(r, step) && (step.Create? || step.CreateQueued?)
    ensures Inv(Next(r, step)) && StatusesMove(r, Next(r, step), step)
  {
    if step.Create? {
      NewJobOk(r, step.id, None, Next(r, step));
      CreateKeepsQueues(r, step.id);
    } else {
      NewJobOk(r, step.queuedId, Some(step.key), Next(r, step));
      EnqueueKeepsQueues(r, step.key, step.queuedId);
    }
  }

  lemma RecoveryKeepsInv(r: Runner, step: Step)
    requires Inv(r) && Enabled(r, step) && Recovering(step)
    ensures Inv(Next(r, step)) && StatusesMove(r, Next(r, step), step)
  {
    if step.Start? {
      StartKeeps(r);
      OnlyJobs(r, Next(r, step));
    } else {
      RecoverStepKeeps(r, step);
      LocalKeepsQueues(r, Next(r, step), if step.RecoverOne? then step.recovered else step.unreported);
    }
  }

  /** The queues do not depend on whether the process has recovered. */
  lemma OnlyJobs(r: Runner, s: Runner)
    requires QueuesOk(r) && s == r.(alive := true)
    ensures QueuesOk(s)
  {
    forall key: Key ensures KeyOk(s, key) && OrderOk(s, key) && Rest(s, key) == Rest(r, key) {
      assert KeyOk(r, key) && OrderOk(r, key);
    }
    forall id | id in s.jobs ensures PlaceOk(s, id) {
      assert PlaceOk(r, id);
    }
  }

  lemma DieKeepsInv(r: Runner, half: Option<Half>)
    requires Inv(r) && Enabled(r, Die(half))
    ensures Inv(Next(r, Die(half))) && StatusesMove(r, Next(r, Die(half)), Die(half))
  {
    DieKeeps(r, half);
    hide JobsOk;
  }

  lemma StepKeepsInv(r: Runner, step: Step)
    requires Inv(r) && Enabled(r, step)
    ensures Inv(Next(r, step)) && StatusesMove(r, Next(r, step), step)
  {
    match step {
      case Create(_) => CreationKeeps(r, step);
      case CreateQueued(_, _) => CreationKeeps(r, step);
      case RunDirect(id) => RunDirectKeeps(r, id);
      case DrainStart(key) =>
        assert KeyOk(r, key);
        DrainKeepsJobs(r, step);
        DrainKeepsQueues(r, step);
      case DrainResume(key) =>
        assert KeyOk(r, key);
        DrainKeepsJobs(r, step);
        DrainKeepsQueues(r, step);
      case Die(half) => DieKeepsInv(r, half);
      case RecoverOne(_) => RecoveryKeepsInv(r, step);
      case DieRecovering(_) => RecoveryKeepsInv(r, step);
      case Start => RecoveryKeepsInv(r, step);
      case Cancel(id) => CancelStepKeeps(r, id);
      case TaskLog(_) => CallStepKeeps(r, step);
      case TaskProgress(_, _) => CallStepKeeps(r, step);
      case Resolve(_) => EndStepKeeps(r, step);
      case Reject(_) => EndStepKeeps(r, step);
    }
  }

  ghost predicate IsRun(states: seq<Runner>, steps: seq<Step>) {
    && |states| == |steps| + 1
    && states[0] == Empty()
    && forall i :: 0 <= i < |steps| ==> Enabled(states[i], steps[i]) && states[i + 1] == Next(states[i], steps[i])
  }

  lemma {:induction false} RunInv(states: seq<Runner>, steps: seq<Step>, i: nat)
    requires IsRun(states, steps) && i < |states|
    ensures Inv(states[i])
  {
    if i > 0 {
      RunInv(states, steps, i - 1);
      StepKeepsInv(states[i - 1], steps[i - 1]);
    }
  }

  /** The step is the death of the process between the terminal update of this job and its event. */
  ghost predicate Tears(step: Step, id: Id) {
    || step == DieRecovering(id)
    || (step.Die? && step.half.Some?
        && (step.half.value == HalfCancel(id) || (step.half.value.HalfEnd? && step.half.value.ended == id)))
  }

  lemma {:induction false} TornExactly(states: seq<Runner>, steps: seq<Step>, i: nat, id: Id)
    requires IsRun(states, steps) && i < |states|
    ensures id in states[i].torn <==> exists j :: 0 <= j < i && Tears(steps[j], id)
  {
    hide Next;
    hide Enabled;
    hide Tears;
    if i > 0 {
      TornExactly(states, steps, i - 1, id);
      StepTears(states[i - 1], steps[i - 1], id);
    }
  }

  lemma StepTears(r: Runner, step: Step, id: Id)
    requires Enabled(r, step)
    ensures id in Next(r, step).torn <==> id in r.torn || Tears(step, id)
  {
    if step.Die? {
      hide HalfRow;
    } else if Recovering(step) {
      hide RunJob;
    } else {
      LivingStepTorn(r, step);
      hide Next;
    }
  }

  lemma LivingStepTorn(r: Runner, step: Step)
    requires Enabled(r, step) && !step.Die? && !Recovering(step)
    ensures Next(r, step).torn == r.torn
  {
    match step {
      case Cancel(other) => CancelTorn(r, other);
      case RunDirect(other) => RunJobTorn(r, other);
      case DrainStart(key) => DrainHeadTorn(r, Drain(key, false));
      case DrainResume(key) => DrainHeadTorn(Shifted(r, key), Drain(key, true));
      case Resolve(other) => ReturnTorn(r, other);
      case Reject(other) => CatchTorn(r, other);
      case _ =>
    }
    hide DrainHead;
    hide RunJob;
    hide CancelJob;
    hide TaskReturned;
    hide Catch;
  }

  lemma CancelTorn(r: Runner, id: Id)
    ensures CancelJob(r, id).torn == r.torn
  {
  }

  lemma RunJobTorn(r: Runner, id: Id)
    requires id in r.jobs
    ensures RunJob(r, id).torn == r.torn
  {
  }

  lemma CatchTorn(r: Runner, id: Id)
    requires id in r.jobs
    ensures id in Catch(r, id).jobs && Finally(Catch(r, id), id).torn == r.torn
  {
  }

  lemma ReturnTorn(r: Runner, id: Id)
    requires id in r.jobs
    ensures TaskReturned(r, id).torn == r.torn
  {
    var s := Put(r, id, r.jobs[id].(aborted := r.jobs[id].aborted || id in r.cancelled));
    CatchTorn(s, id);
    hide Catch;
  }

  lemma DrainHeadTorn(r: Runner, d: Drain)
    ensures DrainHead(r, d).torn == r.torn
  {
    var q := HistoryOf(r.queues, d.key);
    if q != [] && q[0] in r.jobs {
      RunJobTorn(r, q[0]);
    }
    hide RunJob;
  }

  /** In every run a job has at most one terminal event, and none before it is finished. A finished job has
      its event exactly when no process died between that job's terminal update and its event. */
  lemma OneTerminalEvent(states: seq<Runner>, steps: seq<Step>, i: nat, id: Id)
    requires IsRun(states, steps) && i < |states| && id in states[i].jobs
    ensures TerminalEvents(states[i].log, id) <= 1
    ensures TerminalEvents(states[i].log, id) == 1 <==>
              Terminal(states[i].jobs[id].status) && !exists j :: 0 <= j < i && Tears(steps[j], id)
  {
    RunInv(states, steps, i);
    assert JobOk(states[i], id);
    TornExactly(states, steps, i, id);
  }

  /** Such a death is possible: a job that succeeded and whose log never says so. */
  lemma DeathLosesTheEvent(id: Id) returns (states: seq<Runner>, steps: seq<Step>)
    ensures IsRun(states, steps) && id in states[|steps|].jobs && states[|steps|].alive
    ensures states[|steps|].jobs[id].status == Succeeded && TerminalEvents(states[|steps|].log, id) == 0
  {
    steps := [Create(id), RunDirect(id), Die(Some(HalfEnd(id, true))), Start];
    var r1, r2 := RunningJob(id);
    var r3 := DiedInside(r2, HalfEnd(id, true));
    assert r3 == Next(r2, steps[2]) && r3.jobs[id].status == Succeeded && r3.log == r2.log;
    assert forall x :: !Interrupted(r3, x);
    states := [Empty(), r1, r2, r3, r3.(alive := true)];
    assert states[4] == Next(r3, steps[3]);
  }

  /** A job that was just started. */
  lemma RunningJob(id: Id) returns (r1: Runner, r2: Runner)
    ensures Enabled(Empty(), Create(id)) && r1 == Next(Empty(), Create(id))
    ensures Enabled(r1, RunDirect(id)) && r2 == Next(r1, RunDirect(id))
    ensures r2.alive && r2.jobs.Keys == {id} && r2.jobs[id].status == Running && r2.jobs[id].stage == InTask
    ensures !r2.jobs[id].aborted && r2.cancelled == {} && TerminalEvents(r2.log, id) == 0
  {
    r1 := Next(Empty(), Create(id));
    r2 := Next(r1, RunDirect(id));
    EmitCounts(Empty(), id, QueuedEvent, Some(0), id);
    EmitCounts(r1, id, StartedEvent, Some(0), id);
    assert r2.log == Emit(r1, id, StartedEvent, Some(0)).log && r1.log == Emit(Empty(), id, QueuedEvent, Some(0)).log;
  }

  /** A status only makes allowed moves, and a terminal status never changes. */
  lemma {:induction false} TerminalForEver(states: seq<Runner>, steps: seq<Step>, i: nat, j: nat, id: Id)
    requires IsRun(states, steps) && i <= j < |states| && id in states[i].jobs
    ensures id in states[j].jobs
    ensures Terminal(states[i].jobs[id].status) ==> states[j].jobs[id].status == states[i].jobs[id].status
    ensures states[i].jobs[id].status == Running ==> states[j].jobs[id].status != Queued
    decreases j - i
  {
    hide Enabled;
    hide QueuesOk;
    hide Next;
    hide JobsOk;
    if i < j {
      TerminalForEver(states, steps, i, j - 1, id);
      RunInv(states, steps, j - 1);
      StepMovesStatus(states[j - 1], steps[j - 1], id);
    }
  }

  lemma StepMovesStatus(r: Runner, step: Step, id: Id)
    requires Inv(r) && Enabled(r, step) && id in r.jobs
    ensures id in Next(r, step).jobs && Allowed(r.jobs[id].status, Next(r, step).jobs[id].status, step)
  {
    StepKeepsInv(r, step);
  }

  /** A cancel is accepted when it changes anything. */
  ghost predicate Accepts(r: Runner, step: Step, id: Id) {
    r.alive && step == Cancel(id) && Next(r, step) != r
  }

  /** A job whose cancel was accepted never succeeds: it ends cancelled, or failed by a restart that came
      before its task ended. */
  lemma CancelledNeverSucceeds(states: seq<Runner>, steps: seq<Step>, i: nat, j: nat, id: Id)
    requires IsRun(states, steps) && i < j < |states| && Accepts(states[i], steps[i], id)
    ensures id in states[j].jobs && states[j].jobs[id].status != Succeeded
    ensures Terminal(states[j].jobs[id].status) ==>
              states[j].jobs[id].status == Cancelled
              || (states[j].jobs[id].status == Failed && states[j].jobs[id].interrupted)
  {
    CancelShape(states[i], id);
    AcceptedStays(states, steps, i + 1, j, id);
    RunInv(states, steps, j);
    assert JobOk(states[j], id);
  }

  lemma {:induction false} AcceptedStays(states: seq<Runner>, steps: seq<Step>, i: nat, j: nat, id: Id)
    requires IsRun(states, steps) && i <= j < |states| && id in states[i].jobs && states[i].jobs[id].accepted
    ensures id in states[j].jobs && states[j].jobs[id].accepted
    decreases j - i
  {
    hide Enabled;
    hide Next;
    hide JobsOk;
    hide QueuesOk;
    if i < j {
      AcceptedStays(states, steps, i, j - 1, id);
      RunInv(states, steps, j - 1);
      StepKeepsAccepted(states[j - 1], steps[j - 1], id);
    }
  }

  ghost predicate AcceptedIn(r: Runner, id: Id) {
    id in r.jobs && r.jobs[id].accepted
  }

  lemma DrainHeadKeepsAccepted(r: Runner, d: Drain, id: Id)
    requires id in r.jobs && r.jobs[id].accepted
    ensures AcceptedIn(DrainHead(r, d), id)
  {
    var q := HistoryOf(r.queues, d.key);
    if q != [] && q[0] in r.jobs {
      assert DrainHead(r, d).jobs == RunJob(r, q[0]).jobs;
    }
  }

  lemma StepKeepsAccepted(r: Runner, step: Step, id: Id)
    requires JobsOk(r) && Enabled(r, step) && id in r.jobs && r.jobs[id].accepted
    ensures AcceptedIn(Next(r, step), id)
  {
    hide TerminalEvents;
    hide TaskReturned;
    hide Finally;
    hide Catch;
    hide RunJob;
    hide CancelJob;
    if step.Resolve? || step.Reject? {
      assert JobOk(r, Ended(step));
      EndShape(r, step);
    } else if step.DrainStart? || step.DrainResume? {
      DrainHeadKeepsAccepted(if step.DrainStart? then r else Shifted(r, step.resumed), DrainOf(step), id);
    } else if !step.Die? && !Recovering(step) {
      SimpleKeepsAccepted(r, step, id);
    }
  }

  lemma CancelKeepsAccepted(r: Runner, other: Id, id: Id)
    requires AcceptedIn(r, id)
    ensures AcceptedIn(CancelJob(r, other), id)
  {
  }

  lemma RunJobKeepsAccepted(r: Runner, other: Id, id: Id)
    requires AcceptedIn(r, id) && other in r.jobs
    ensures AcceptedIn(RunJob(r, other), id)
  {
  }

  lemma SimpleKeepsAccepted(r: Runner, step: Step, id: Id)
    requires Enabled(r, step) && id in r.jobs && r.jobs[id].accepted
    requires step.Create? || step.CreateQueued? || step.Cancel? || step.RunDirect? || step.TaskLog?
             || step.TaskProgress?
    ensures AcceptedIn(Next(r, step), id)
  {
    hide CancelJob;
    hide RunJob;
    match step {
      case Cancel(other) => CancelKeepsAccepted(r, other, id);
      case RunDirect(other) => RunJobKeepsAccepted(r, other, id);
      case _ =>
    }
  }

  /** At most one task of a queue runs at a time. */
  lemma OneTaskPerQueue(states: seq<Runner>, steps: seq<Step>, i: nat, a: Id, b: Id)
    requires IsRun(states, steps) && i < |states| && a in states[i].jobs && b in states[i].jobs
    requires states[i].jobs[a].queue.Some? && states[i].jobs[a].queue == states[i].jobs[b].queue
    requires states[i].jobs[a].stage == InTask && states[i].jobs[b].stage == InTask
    ensures a == b
  {
    RunInv(states, steps, i);
    assert PlaceOk(states[i], a) && PlaceOk(states[i], b);
  }

  /** Within a process, a queue's jobs start in the order they were pushed, none twice and none lost: what
      was started followed by what still waits is what was pushed. A queue with a waiting or unfinished
      entry has exactly one drain, and no queue has more. */
  lemma QueueOrder(states: seq<Runner>, steps: seq<Step>, i: nat, key: Key)
    requires IsRun(states, steps) && i < |states|
    ensures var r := states[i];
            && HistoryOf(r.enqueued, key) == HistoryOf(r.invoked, key) + Rest(r, key)
            && r.drains[Drain(key, true)] + r.drains[Drain(key, false)] == (if key in r.queues then 1 else 0)
            && (forall id <- Rest(r, key) :: key in r.queues && id in r.jobs && r.jobs[id].stage == Waiting)
            && (forall id <- r.jobs ::
                  r.jobs[id].queue == Some(key) && r.jobs[id].stage == Waiting ==> id in Rest(r, key))
  {
    RunInv(states, steps, i);
    var r := states[i];
    assert KeyOk(r, key) && OrderOk(r, key);
    forall id | id in Rest(r, key) ensures key in r.queues {
      RestIsQueued(r, key, id);
    }
    forall id | id in r.jobs && r.jobs[id].queue == Some(key) && r.jobs[id].stage == Waiting
      ensures id in Rest(r, key)
    {
      assert PlaceOk(r, id);
    }
  }
}
