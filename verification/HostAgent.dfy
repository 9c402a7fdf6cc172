/** The host agent of one binding as a step machine: the read loop of `connect`, the bounded command
    queue, the serial worker, the goroutines that wait for a result in flight, and the state file.
    A step is what one goroutine does between two points where another may run; a crash may come
    between any two steps and in the middle of a state-file write. */
module HostAgent {
  import opened Base
  import opened CommandCache

  const QUEUE_CAPACITY: nat := 64
  const MAX_CACHED_RESULTS: nat := 4096
  /** Waiting in the queue, executing, and between `begin` and the queue. */
  const IN_FLIGHT_BOUND: nat := QUEUE_CAPACITY + 2

  type Session = nat

  datatype Job = Job(session: Session, id: Id)

  datatype Outcome = Succeeded(output: string) | Errored(error: string)

  /** One start of a side effect, and how it ended if it did. */
  datatype Execution = Execution(id: Id, outcome: Option<Outcome>)

  datatype Worker =
    | Idle
    | Executing(job: Job)
    | Finished(job: Job, reply: Reply)
    | Reporting(session: Session, reply: Reply)

  datatype Reader =
    | Offline
    | Reading(session: Session)
    | Acknowledged(job: Job)
    | Granted(job: Job)
    | Rejecting(job: Job)
    | Answering(session: Session, reply: Reply)

  /** A `replayPending` goroutine; `reply` is set once the awaited result exists. */
  datatype Waiter = Waiter(session: Session, id: Id, reply: Option<Reply>)

  datatype Process = Process(cache: Cache, queue: seq<Job>, worker: Worker, reader: Reader, waiters: seq<Waiter>)

  /** What happened so far; no step reads it.
      seen: ids ever received; last: the latest of them; known: ids whose acceptance was durably
      recorded; trimmed: ids evicted from the cache; log: side effects started; verdicts: the result
      first recorded for an id; replies: terminal replies put on a socket; faulted: ids whose acceptance
      could not be written, or whose result never reached the file; saved: the cache the state file was
      written from. */
  datatype History = History(
    seen: set<Id>, last: Option<Id>, known: set<Id>, trimmed: set<Id>, log: seq<Execution>,
    verdicts: map<Id, Reply>, replies: set<Reply>, faulted: set<Id>, saved: Cache)

  datatype Agent = Agent(binding: string, process: Option<Process>, disk: Option<seq<Entry>>, past: History)

  /** A send on a socket: whether the call reported success and whether the frame left. */
  datatype Send = Send(ok: bool, wire: bool)

  /** The write, if any, whose new file had landed when the process died. */
  datatype Landed = NoWrite | ReaderWrite | WorkerWrite

  datatype Step =
    | Connect(session: Session)
    | Drop
    | Receive(id: Id, ack: Send)
    | Begin(beginWrite: WriteOutcome)
    | Enqueue
    | Reject(rejectWrite: WriteOutcome)
    | Answer(answer: Send)
    | Take
    | Finish(outcome: Outcome)
    | Record(recordWrite: WriteOutcome)
    | Report(report: Send)
    | Replay(waiter: nat, replay: Send)
    | Abandon(abandoned: nat)
    | Crash(landed: Landed)
    | Restart(restartWrite: WriteOutcome)

  datatype UpMessage = Hello | Acknowledge(id: Id) | Conclude(reply: Reply)

  function ReplyFor(id: Id, outcome: Outcome): Reply {
    match outcome
    case Succeeded(output) => Reply(CommandCompleted, id, output, "")
    case Errored(error) => Reply(CommandFailed, id, "", error)
  }

  function QueueFull(id: Id): Reply {
    Reply(CommandFailed, id, "", "command queue is full for this binding")
  }

  function NotAccepted(id: Id): Reply {
    Reply(CommandFailed, id, "", "persist accepted command")
  }

  function FileFor(binding: string, disk: Option<seq<Entry>>): StateFile {
    StateFile(STATE_VERSION, binding, if disk.Some? then disk.value else [])
  }

  ghost predicate Enabled(a: Agent, step: Step) {
    if step.Restart? then a.process.None? else
    a.process.Some? &&
    var p := a.process.value;
    match step
    case Connect(_) => p.reader.Offline?
    case Drop => p.reader.Reading?
    case Receive(_, _) => p.reader.Reading?
    case Begin(_) => p.reader.Acknowledged?
    case Enqueue => p.reader.Granted?
    case Reject(_) => p.reader.Rejecting?
    case Answer(_) => p.reader.Answering?
    case Take => p.worker.Idle? && p.queue != []
    case Finish(_) => p.worker.Executing?
    case Record(_) => p.worker.Finished?
    case Report(_) => p.worker.Reporting?
    case Replay(i, _) => i < |p.waiters| && p.waiters[i].reply.Some?
    case Abandon(i) => i < |p.waiters|
    case Crash(landed) =>
      match landed {
        case NoWrite => true
        case ReaderWrite =>
          p.reader.Rejecting? || (p.reader.Acknowledged? && BeginAnswerFor(p.cache, p.reader.job.id).Owner?)
        case WorkerWrite => p.worker.Finished?
      }
  }

  /** The state file after a write of `c`; a failed write leaves the old file or the new one. */
  ghost function Store(a: Agent, c: Cache, w: WriteOutcome): Agent {
    if w == FailedBeforeRename then a
    else a.(disk := Some(Snapshot(c)), past := a.past.(saved := c))
  }

  ghost function Fault(past: History, id: Id): History {
    past.(faulted := past.faulted + {id})
  }

  ghost function WithProcess(a: Agent, p: Process): Agent {
    a.(process := Some(p))
  }

  ghost function Emit(a: Agent, reply: Reply, send: Send): Agent {
    if send.wire then a.(past := a.past.(replies := a.past.replies + {reply})) else a
  }

  /** The worker is serial: what ends is what was started last. */
  function Ended(log: seq<Execution>, e: Execution): seq<Execution> {
    if log == [] then [e] else log[|log| - 1 := e]
  }

  /** Waiters on `id` get its result when it is recorded. */
  function Release(waiters: seq<Waiter>, id: Id, reply: Reply): (r: seq<Waiter>)
    ensures |r| == |waiters|
    ensures forall i :: 0 <= i < |r| ==>
      r[i] == if waiters[i].id == id && waiters[i].reply.None? then waiters[i].(reply := Some(reply)) else waiters[i]
  {
    seq(|waiters|, i requires 0 <= i < |waiters| =>
      if waiters[i].id == id && waiters[i].reply.None? then waiters[i].(reply := Some(reply)) else waiters[i])
  }

  ghost function Remember(past: History, id: Id, reply: Reply, before: Cache): History {
    past.(verdicts := past.verdicts[id := reply],
          trimmed := past.trimmed + ((Ids(before) + {id}) - Ids(Complete(before, id, reply))))
  }

  /** `complete`: the result is recorded in memory whatever the write does. */
  ghost function RecordResult(a: Agent, p: Process, id: Id, reply: Reply, w: WriteOutcome): Agent {
    var c := Complete(p.cache, id, reply);
    var next := p.(cache := c, waiters := if id in p.cache.pending then Release(p.waiters, id, reply) else p.waiters);
    var past := Remember(a.past, id, reply, p.cache);
    Store(WithProcess(a, next).(past := if w == FailedBeforeRename then Fault(past, id) else past), c, w)
  }

  ghost function Next(a: Agent, step: Step): Agent
    requires Enabled(a, step)
  {
    if step.Restart? then Restarted(a, step.restartWrite) else
    var p := a.process.value;
    match step
    case Connect(session) => WithProcess(a, p.(reader := Reading(session)))
    case Drop => WithProcess(a, p.(reader := Offline))
    case Receive(id, ack) => Received(a, p, id, ack)
    case Begin(w) => Begun(a, p, w)
    case Enqueue =>
      WithProcess(a, if |p.queue| < QUEUE_CAPACITY
                     then p.(queue := p.queue + [p.reader.job], reader := Reading(p.reader.job.session))
                     else p.(reader := Rejecting(p.reader.job)))
    case Reject(w) =>
      var job := p.reader.job;
      RecordResult(a, p.(reader := Answering(job.session, QueueFull(job.id))), job.id, QueueFull(job.id), w)
    case Answer(send) =>
      Emit(WithProcess(a, p.(reader := if send.ok then Reading(p.reader.session) else Offline)), p.reader.reply, send)
    case Take =>
      WithProcess(a, p.(worker := Executing(p.queue[0]), queue := p.queue[1..]))
        .(past := a.past.(log := a.past.log + [Execution(p.queue[0].id, None)]))
    case Finish(outcome) =>
      WithProcess(a, p.(worker := Finished(p.worker.job, ReplyFor(p.worker.job.id, outcome))))
        .(past := a.past.(log := Ended(a.past.log, Execution(p.worker.job.id, Some(outcome)))))
    case Record(w) =>
      var job, reply := p.worker.job, p.worker.reply;
      RecordResult(a, p.(worker := Reporting(job.session, reply)), job.id, reply, w)
    case Report(send) => Emit(WithProcess(a, p.(worker := Idle)), p.worker.reply, send)
    case Replay(i, send) =>
      Emit(WithProcess(a, p.(waiters := p.waiters[..i] + p.waiters[i + 1..])), p.waiters[i].reply.value, send)
    case Abandon(i) => WithProcess(a, p.(waiters := p.waiters[..i] + p.waiters[i + 1..]))
    case Crash(landed) => Crashed(a, p, landed)
  }

  /** A command without an id is ignored. */
  ghost function Received(a: Agent, p: Process, id: Id, ack: Send): Agent
    requires p.reader.Reading?
  {
    if id == "" then a else
    WithProcess(a, p.(reader := if ack.ok then Acknowledged(Job(p.reader.session, id)) else Offline))
      .(past := a.past.(seen := a.past.seen + {id}, last := Some(id)))
  }

  ghost function Begun(a: Agent, p: Process, w: WriteOutcome): Agent
    requires p.reader.Acknowledged?
  {
    var job := p.reader.job;
    match BeginAnswerFor(p.cache, job.id)
    case Cached(reply) => WithProcess(a, p.(reader := Answering(job.session, reply)))
    case InFlight =>
      WithProcess(a, p.(reader := Reading(job.session), waiters := p.waiters + [Waiter(job.session, job.id, None)]))
    case Owner =>
      var c := WithPending(p.cache, job.id);
      if w == Written then
        Store(WithProcess(a, p.(cache := c, reader := Granted(job))), c, w)
          .(past := a.past.(known := a.past.known + {job.id}, saved := c))
      else
        var b := WithProcess(a, p.(reader := Answering(job.session, NotAccepted(job.id))));
        Store(b.(past := Fault(a.past, job.id)), c, w)
  }

  ghost function Crashed(a: Agent, p: Process, landed: Landed): Agent
    requires a.process == Some(p) && Enabled(a, Crash(landed))
  {
    var down := a.(process := None);
    match landed
    case NoWrite => down
    case ReaderWrite =>
      var id := p.reader.job.id;
      if p.reader.Rejecting? then
        Store(down.(past := Remember(a.past, id, QueueFull(id), p.cache)), Complete(p.cache, id, QueueFull(id)),
              Written)
      else
        Store(down.(past := a.past.(known := a.past.known + {id})), WithPending(p.cache, id), Written)
    case WorkerWrite =>
      var id, reply := p.worker.job.id, p.worker.reply;
      Store(down.(past := Remember(a.past, id, reply, p.cache)), Complete(p.cache, id, reply), Written)
  }

  /** `openCommandResultCache`: load the state file and write it back; on any error the agent exits. */
  ghost function Restarted(a: Agent, w: WriteOutcome): Agent {
    match Load(MAX_CACHED_RESULTS, a.binding, FileFor(a.binding, a.disk))
    case Err(_) => a
    case Ok(c) =>
      var unknown := map id | id in a.past.saved.pending :: UnknownOutcome(id);
      var past := if w == FailedBeforeRename then a.past
                  else a.past.(verdicts := a.past.verdicts + unknown,
                               trimmed := a.past.trimmed + (Ids(a.past.saved) - Ids(c)));
      Store(a.(process := if w == Written then Some(Process(c, [], Idle, Offline, [])) else None, past := past), c, w)
  }

  /** The messages a step puts on a socket. */
  ghost function Emits(a: Agent, step: Step): seq<(Session, UpMessage)>
    requires Enabled(a, step)
  {
    match step
    case Connect(session) => [(session, Hello)]
    case Receive(id, ack) => if id != "" && ack.wire then [(a.process.value.reader.session, Acknowledge(id))] else []
    case Answer(send) =>
      if send.wire then [(a.process.value.reader.session, Conclude(a.process.value.reader.reply))] else []
    case Report(send) =>
      if send.wire then [(a.process.value.worker.session, Conclude(a.process.value.worker.reply))] else []
    case Replay(i, send) =>
      if send.wire then [(a.process.value.waiters[i].session, Conclude(a.process.value.waiters[i].reply.value))] else []
    case _ => []
  }

  function FirstBoot(binding: string): Agent {
    Agent(binding, None, None, History({}, None, {}, {}, [], map[], {}, {}, Empty(MAX_CACHED_RESULTS)))
  }

  /** The session the agent is connected on, if any. */
  function CurrentSession(r: Reader): Option<Session> {
    match r
    case Offline => None
    case Reading(s) => Some(s)
    case Acknowledged(job) => Some(job.session)
    case Granted(job) => Some(job.session)
    case Rejecting(job) => Some(job.session)
    case Answering(s, _) => Some(s)
  }
}
