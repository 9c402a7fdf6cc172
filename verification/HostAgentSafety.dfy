/** What every step of the host agent keeps, for every crash, lost write and failing send.

    The agent relies on one promise of the panel (proved in CommandProtocol.dfy): an id is only
    received again while it is still the last id received. */
module HostAgentSafety {
  import opened Base
  import opened CommandCache
  import opened HostAgent

  ghost predicate Promise(a: Agent, step: Step) {
    step.Receive? ==> Some(step.id) == a.past.last || step.id !in a.past.seen
  }

  // ---------- the invariant, group by group ----------

  ghost predicate CacheOk(c: Cache) {
    Valid(c) && c.limit == MAX_CACHED_RESULTS && |c.pending| <= IN_FLIGHT_BOUND
  }

  ghost predicate StorageOk(a: Agent) {
    && CacheOk(a.past.saved)
    && (a.disk.Some? ==> a.disk.value == Snapshot(a.past.saved))
    && (a.disk.None? ==> a.past.saved == Empty(MAX_CACHED_RESULTS))
    && (a.process.Some? ==> CacheOk(a.process.value.cache))
  }

  function WorkerIds(w: Worker): seq<Id> {
    match w
    case Executing(job) => [job.id]
    case Finished(job, _) => [job.id]
    case _ => []
  }

  function ReaderIds(r: Reader): seq<Id> {
    match r
    case Granted(job) => [job.id]
    case Rejecting(job) => [job.id]
    case _ => []
  }

  ghost function QueueIds(queue: seq<Job>): seq<Id> {
    seq(|queue|, i requires 0 <= i < |queue| => queue[i].id)
  }

  /** Every owned command that has no recorded result, in the order it will be executed. */
  ghost function OwnedIds(p: Process): seq<Id> {
    WorkerIds(p.worker) + QueueIds(p.queue) + ReaderIds(p.reader)
  }

  /** The pending set is exactly what the worker, the queue and the reader hold, each id once. */
  ghost predicate FlightOk(p: Process) {
    && |p.queue| <= QUEUE_CAPACITY
    && Distinct(OwnedIds(p))
    && Elements(OwnedIds(p)) == p.cache.pending
  }

  /** `id` cannot be trimmed before it is answered again: too few results can come behind it. */
  ghost predicate Recent(c: Cache, id: Id) {
    id in c.pending || (|c.pending| <= IN_FLIGHT_BOUND && id in Newest(c.order, IN_FLIGHT_BOUND - |c.pending|))
  }

  ghost predicate ReaderAtLast(r: Reader, last: Option<Id>) {
    (r.Acknowledged? || r.Granted? || r.Rejecting? ==> Some(r.job.id) == last && r.job.id != "")
  }

  ghost predicate MemoryOk(a: Agent) {
    && "" !in a.past.seen
    && a.past.known <= a.past.seen
    && (a.past.last.Some? ==> a.past.last.value in a.past.seen)
    && Ids(a.past.saved) <= a.past.seen
    && (a.past.last.Some? && a.past.last.value in a.past.known ==> Recent(a.past.saved, a.past.last.value))
    && (a.process.Some? ==>
          var p := a.process.value;
          && Ids(p.cache) <= a.past.seen
          && p.cache.pending <= a.past.known
          && ReaderAtLast(p.reader, a.past.last)
          && (a.past.last.Some? && a.past.last.value in a.past.known ==> Recent(p.cache, a.past.last.value)))
  }

  ghost function LogIds(log: seq<Execution>): seq<Id> {
    seq(|log|, i requires 0 <= i < |log| => log[i].id)
  }

  /** No command's side effect starts twice, and none that still waits has started. */
  ghost predicate OnceOk(a: Agent) {
    && Distinct(LogIds(a.past.log))
    && Elements(LogIds(a.past.log)) <= a.past.known
    && (a.process.Some? ==>
          var p := a.process.value;
          && (forall job <- p.queue :: job.id !in Elements(LogIds(a.past.log)))
          && (forall id <- ReaderIds(p.reader) :: id !in Elements(LogIds(a.past.log)))
          && (p.worker.Executing? ==>
                a.past.log != [] && a.past.log[|a.past.log| - 1] == Execution(p.worker.job.id, None)))
  }

  /** A success is only ever reported for an execution that ended without an error. */
  ghost predicate Honest(r: Reply, log: seq<Execution>) {
    r.kind == CommandCompleted ==> Execution(r.commandId, Some(Succeeded(r.output))) in log
  }

  /** A recorded result on its way to the panel, or kept for it. */
  ghost predicate Carried(p: Process, r: Reply) {
    || r in p.cache.completed.Values
    || (p.worker.Reporting? && p.worker.reply == r)
    || (p.reader.Answering? && p.reader.reply == r)
    || (exists w <- p.waiters :: w.reply == Some(r))
  }

  ghost predicate HonestOk(a: Agent) {
    && (forall r <- a.past.saved.completed.Values :: Honest(r, a.past.log))
    && (forall r <- a.past.replies :: Honest(r, a.past.log) && r.commandId in a.past.seen)
    && (a.process.Some? ==>
          var p := a.process.value;
          && (forall r :: Carried(p, r) ==> Honest(r, a.past.log) && r.commandId in a.past.seen)
          && (forall w <- p.waiters :: w.id in a.past.seen)
          && (p.worker.Finished? ==>
                && IsTerminal(p.worker.reply, p.worker.job.id)
                && p.worker.job.id in a.past.seen && Honest(p.worker.reply, a.past.log)))
  }

  /** Ownership is durable: an accepted id stays in memory and in the file until it is trimmed. */
  ghost predicate DurableOk(a: Agent) {
    && a.past.known <= Ids(a.past.saved) + a.past.trimmed
    && (a.process.Some? ==> a.past.known <= Ids(a.process.value.cache) + a.past.trimmed)
  }

  /** Every reply about an id is the first recorded result, unless the id's own write failed. */
  ghost predicate IdAgrees(a: Agent, id: Id) {
    && (id in a.past.verdicts ==> id in a.past.known)
    && (id in a.past.saved.pending ==> id in a.past.known && id !in a.past.verdicts)
    && (id in a.past.saved.completed ==> Agrees(a.past.verdicts, a.past.saved.completed[id], id))
    && (forall r <- a.past.replies :: r.commandId == id ==> Agrees(a.past.verdicts, r, id))
    && (a.process.Some? ==>
          var p := a.process.value;
          && (id in p.cache.pending <==> id in a.past.saved.pending)
          && (forall r :: Carried(p, r) && r.commandId == id ==> Agrees(a.past.verdicts, r, id)))
  }

  ghost predicate AgreementOk(a: Agent) {
    forall id :: id !in a.past.faulted ==> IdAgrees(a, id)
  }

  ghost predicate Agrees(verdicts: map<Id, Reply>, r: Reply, id: Id) {
    r.commandId == id && id in verdicts && verdicts[id] == r
  }

  ghost predicate Inv(a: Agent) {
    && StorageOk(a)
    && (a.process.Some? ==> FlightOk(a.process.value))
    && MemoryOk(a)
    && OnceOk(a)
    && HonestOk(a)
    && DurableOk(a)
    && AgreementOk(a)
  }

  lemma FirstBootInv(binding: string)
    ensures Inv(FirstBoot(binding))
  {
  }

  // ---------- recency: the eviction bound ----------

  lemma NewestGrows<T>(s: seq<T>, t: seq<T>, k: nat, x: T)
    requires x in Newest(s, k) || x in t
    ensures x in Newest(s + t, k + |t|)
  {
    var n := Newest(s + t, k + |t|);
    assert n == Newest(s, k) + t;
  }

  lemma NewestNested<T>(s: seq<T>, limit: nat, k: nat)
    requires k <= limit
    ensures Newest(Newest(s, limit), k) == Newest(s, k)
  {
  }

  /** Recording another result pushes one id behind, but also takes one out of flight. */
  lemma CompleteKeepsRecent(c: Cache, id: Id, other: Id, reply: Reply)
    requires CacheOk(c) && other in c.pending && IsTerminal(reply, other)
    requires Recent(c, id)
    ensures Recent(Complete(c, other, reply), id)
  {
    CompleteValid(c, other, reply);
    var next := Complete(c, other, reply);
    assert |next.pending| == |c.pending| - 1;
    if id !in next.pending {
      var k := IN_FLIGHT_BOUND - |c.pending|;
      assert id == other || id in Newest(c.order, k);
      NewestGrows(c.order, [other], k, id);
      NewestNested(c.order + [other], c.limit, k + 1);
    }
  }

  /** After a restart everything that was in flight is behind the terminal results. */
  lemma ReloadKeepsRecent(c: Cache, id: Id, binding: string)
    requires CacheOk(c) && Recent(c, id)
    ensures Recent(Reload(c), id)
  {
    SnapshotRoundTrip(c, binding);
    var sorted := SortedIds(c.pending);
    DistinctSize(sorted);
    var k := IN_FLIGHT_BOUND - |c.pending|;
    assert id in c.pending ==> id in Elements(sorted);
    NewestGrows(c.order, sorted, k, id);
    NewestNested(c.order + sorted, c.limit, k + |sorted|);
  }

  lemma RecentIsHeld(c: Cache, id: Id)
    requires Valid(c) && Recent(c, id)
    ensures id in c.pending || id in c.completed
  {
    if id !in c.pending {
      NewestDistinct(c.order, IN_FLIGHT_BOUND - |c.pending|);
      assert id in Elements(Newest(c.order, IN_FLIGHT_BOUND - |c.pending|));
    }
  }

  /** The agent never grants ownership of an id twice. */
  lemma GrantIsFresh(a: Agent)
    requires StorageOk(a) && MemoryOk(a) && a.process.Some? && a.process.value.reader.Acknowledged?
    requires BeginAnswerFor(a.process.value.cache, a.process.value.reader.job.id).Owner?
    ensures a.process.value.reader.job.id !in a.past.known
  {
    if a.process.value.reader.job.id in a.past.known {
      RecentIsHeld(a.process.value.cache, a.process.value.reader.job.id);
    }
  }

  // ---------- storage ----------

  lemma OwnedBound(p: Process)
    requires |p.queue| <= QUEUE_CAPACITY && Elements(OwnedIds(p)) == p.cache.pending
    ensures |p.cache.pending| <= |WorkerIds(p.worker)| + |p.queue| + |ReaderIds(p.reader)| <= IN_FLIGHT_BOUND
  {
    ElementsSize(OwnedIds(p));
  }

  lemma BeginCacheOk(a: Agent)
    requires StorageOk(a) && a.process.Some? && FlightOk(a.process.value) && a.process.value.reader.Acknowledged?
    requires a.process.value.reader.job.id != ""
    requires BeginAnswerFor(a.process.value.cache, a.process.value.reader.job.id).Owner?
    ensures CacheOk(WithPending(a.process.value.cache, a.process.value.reader.job.id))
  {
    OwnedBound(a.process.value);
  }

  lemma RestartLoads(a: Agent)
    requires StorageOk(a)
    ensures Load(MAX_CACHED_RESULTS, a.binding, FileFor(a.binding, a.disk)) == Ok(Reload(a.past.saved))
    ensures CacheOk(Reload(a.past.saved))
  {
    SnapshotRoundTrip(a.past.saved, a.binding);
    if a.disk.None? {
      assert SortedIds({}) == [] by {
        assert Elements(SortedIds({})) == {};
        assert forall x <- SortedIds({}) :: x in Elements(SortedIds({}));
      }
      assert Snapshot(a.past.saved) == [];
    }
  }

  // ---------- steps that do not touch the cache ----------

  predicate Quiet(step: Step) {
    !step.Begin? && !step.Reject? && !step.Record? && !step.Crash? && !step.Restart?
  }

  lemma QuietFrame(a: Agent, step: Step)
    requires Enabled(a, step) && Quiet(step)
    ensures a.process.Some? && Next(a, step).process.Some? && Next(a, step).disk == a.disk
            && Next(a, step).binding == a.binding
    ensures Next(a, step).process.value.cache == a.process.value.cache
    ensures Next(a, step).past.saved == a.past.saved && Next(a, step).past.known == a.past.known
    ensures Next(a, step).past.trimmed == a.past.trimmed && Next(a, step).past.verdicts == a.past.verdicts
    ensures Next(a, step).past.faulted == a.past.faulted
    ensures a.past.seen <= Next(a, step).past.seen && a.past.replies <= Next(a, step).past.replies
  {
  }

  lemma QuietFlight(a: Agent, step: Step)
    requires a.process.Some? && FlightOk(a.process.value) && Enabled(a, step) && Quiet(step)
    ensures Next(a, step).process.Some? && FlightOk(Next(a, step).process.value)
  {
    QuietFrame(a, step);
    var p, q := a.process.value, Next(a, step).process.value;
    match step {
      case Enqueue =>
        if |p.queue| < QUEUE_CAPACITY {
          assert QueueIds(q.queue) == QueueIds(p.queue) + [p.reader.job.id];
          assert OwnedIds(q) == OwnedIds(p);
        } else {
          assert OwnedIds(q) == OwnedIds(p);
        }
      case Take =>
        assert QueueIds(p.queue) == [p.queue[0].id] + QueueIds(q.queue);
        assert OwnedIds(q) == OwnedIds(p);
      case Finish(_) => assert OwnedIds(q) == OwnedIds(p);
      case _ =>
    }
  }

  lemma QuietMemory(a: Agent, step: Step)
    requires MemoryOk(a) && Enabled(a, step) && Quiet(step) && Promise(a, step)
    ensures MemoryOk(Next(a, step))
  {
    QuietFrame(a, step);
  }

  lemma ReplaceLast(log: seq<Execution>, e: Execution)
    requires log != [] && e.id == log[|log| - 1].id
    ensures LogIds(log[|log| - 1 := e]) == LogIds(log)
  {
  }

  lemma QuietOnce(a: Agent, step: Step)
    requires OnceOk(a) && a.process.Some? && FlightOk(a.process.value)
             && a.process.value.cache.pending <= a.past.known && Enabled(a, step) && Quiet(step)
    ensures OnceOk(Next(a, step))
  {
    QuietFrame(a, step);
    var p, b := a.process.value, Next(a, step);
    match step {
      case Enqueue =>
        if |p.queue| < QUEUE_CAPACITY {
          assert ReaderIds(p.reader)[0] == p.reader.job.id;
        } else {
          assert ReaderIds(b.process.value.reader) == ReaderIds(p.reader);
        }
      case Take => TakeOnce(a);
      case Finish(outcome) => ReplaceLast(a.past.log, Execution(p.worker.job.id, Some(outcome)));
      case _ =>
    }
  }

  lemma TakeOnce(a: Agent)
    requires OnceOk(a) && a.process.Some? && FlightOk(a.process.value)
             && a.process.value.cache.pending <= a.past.known && Enabled(a, Take)
    ensures OnceOk(Next(a, Take))
  {
    var p, b := a.process.value, Next(a, Take);
    var id := p.queue[0].id;
    assert LogIds(b.past.log) == LogIds(a.past.log) + [id];
    assert p.queue[0] in p.queue;
    assert Elements([id]) == {id};
    DistinctSum(LogIds(a.past.log), [id]);
    assert OwnedIds(p)[0] == id;
    assert id in Elements(OwnedIds(p));
    forall job <- b.process.value.queue ensures job.id !in Elements(LogIds(b.past.log)) {
      var i :| 0 <= i < |p.queue| - 1 && p.queue[1..][i] == job;
      assert job in p.queue;
      assert OwnedIds(p)[i + 1] == job.id;
    }
    forall x <- ReaderIds(p.reader) ensures x !in Elements(LogIds(b.past.log)) {
      assert OwnedIds(p)[|p.queue|] == x;
    }
  }

  /** Honesty survives whatever is added to the log. */
  lemma HonestInLongerLog(r: Reply, log: seq<Execution>, e: Execution)
    requires Honest(r, log)
    ensures Honest(r, log + [e])
    ensures log != [] && log[|log| - 1].outcome.None? ==> Honest(r, log[|log| - 1 := e])
  {
    if r.kind == CommandCompleted {
      var x := Execution(r.commandId, Some(Succeeded(r.output)));
      var i :| 0 <= i < |log| && log[i] == x;
      assert (log + [e])[i] == x;
      if log[|log| - 1].outcome.None? {
        assert log[|log| - 1 := e][i] == x;
      }
    }
  }

  lemma QuietKeepsHonest(a: Agent, step: Step, r: Reply)
    requires OnceOk(a) && Enabled(a, step) && Quiet(step) && Honest(r, a.past.log)
    ensures Honest(r, Next(a, step).past.log)
  {
    hide Snapshot;
    var p := a.process.value;
    match step {
      case Take => HonestInLongerLog(r, a.past.log, Execution(p.queue[0].id, None));
      case Finish(outcome) => HonestInLongerLog(r, a.past.log, Execution(p.worker.job.id, Some(outcome)));
      case _ =>
    }
  }

  /** Such a step carries and sends nothing that was not carried before. */
  lemma QuietCarries(a: Agent, step: Step)
    requires Enabled(a, step) && Quiet(step)
    ensures var p, b := a.process.value, Next(a, step);
            && b.process.Some?
            && (forall r :: Carried(b.process.value, r) ==> Carried(p, r))
            && (forall r <- b.past.replies :: r in a.past.replies || Carried(p, r))
  {
    var p, b := a.process.value, Next(a, step);
    match step {
      case Replay(i, _) =>
        assert forall w <- b.process.value.waiters :: w in p.waiters;
        assert p.waiters[i] in p.waiters;
        assert Carried(p, p.waiters[i].reply.value);
      case Abandon(i) => assert forall w <- b.process.value.waiters :: w in p.waiters;
      case Answer(_) => assert Carried(p, p.reader.reply);
      case Report(_) => assert Carried(p, p.worker.reply);
      case _ =>
    }
  }

  lemma QuietWaiters(a: Agent, step: Step)
    requires Enabled(a, step) && Quiet(step)
    ensures var b := Next(a, step);
            && b.process.Some? && (forall w <- b.process.value.waiters :: w in a.process.value.waiters)
            && (b.process.value.worker.Finished? ==> b.process.value.worker == a.process.value.worker || step.Finish?)
  {
  }

  /** The worker's result is honest the moment it exists. */
  lemma FinishHonest(a: Agent, step: Step)
    requires OnceOk(a) && a.past.known <= a.past.seen && Enabled(a, step) && step.Finish?
    ensures var b, job := Next(a, step), a.process.value.worker.job;
            && b.process.Some? && b.process.value.worker.Finished?
            && var reply := b.process.value.worker.reply;
            b.process.value.worker.job == job && IsTerminal(reply, job.id) && job.id in a.past.seen
            && Honest(reply, b.past.log)
  {
    var p, b := a.process.value, Next(a, step);
    assert b.past.log[|b.past.log| - 1] == Execution(p.worker.job.id, Some(step.outcome));
    assert p.worker.job.id in Elements(LogIds(a.past.log)) by {
      assert LogIds(a.past.log)[|a.past.log| - 1] == p.worker.job.id;
    }
  }

  lemma QuietHonest(a: Agent, step: Step)
    requires HonestOk(a) && OnceOk(a) && a.past.known <= a.past.seen && Enabled(a, step) && Quiet(step)
    ensures HonestOk(Next(a, step))
  {
    hide Next;
    hide Honest;
    hide Carried;
    hide Enabled;
    QuietFrame(a, step);
    QuietCarries(a, step);
    QuietWaiters(a, step);
    if step.Finish? {
      FinishHonest(a, step);
    }
    var b := Next(a, step);
    forall r: Reply | Honest(r, a.past.log) ensures Honest(r, b.past.log) {
      QuietKeepsHonest(a, step, r);
    }
  }

  lemma QuietAgreement(a: Agent, step: Step)
    requires AgreementOk(a) && Enabled(a, step) && Quiet(step)
    ensures AgreementOk(Next(a, step))
  {
    hide Next;
    hide Carried;
    hide Enabled;
    QuietFrame(a, step);
    QuietCarries(a, step);
    forall id | id !in a.past.faulted ensures IdAgrees(Next(a, step), id) {
      assert IdAgrees(a, id);
    }
  }

  // ---------- recording a result ----------

  /** The id and reply a `Reject` or `Record` step hands to `complete`. */
  function RecordedId(p: Process, step: Step): Id
    requires (step.Reject? && p.reader.Rejecting?) || (step.Record? && p.worker.Finished?)
  {
    if step.Reject? then p.reader.job.id else p.worker.job.id
  }

  function RecordedReply(p: Process, step: Step): Reply
    requires (step.Reject? && p.reader.Rejecting?) || (step.Record? && p.worker.Finished?)
  {
    if step.Reject? then QueueFull(p.reader.job.id) else p.worker.reply
  }

  predicate Records(a: Agent, step: Step) {
    && a.process.Some?
    && var p := a.process.value;
    ((step.Reject? && p.reader.Rejecting?) || (step.Record? && p.worker.Finished?))
  }

  lemma RecordedIsPending(a: Agent, step: Step)
    requires StorageOk(a) && a.process.Some? && FlightOk(a.process.value) && HonestOk(a) && Records(a, step)
    ensures RecordedId(a.process.value, step) in a.process.value.cache.pending
    ensures RecordedId(a.process.value, step) != ""
    ensures RecordedId(a.process.value, step) !in a.process.value.cache.completed
    ensures IsTerminal(RecordedReply(a.process.value, step), RecordedId(a.process.value, step))
  {
    var p := a.process.value;
    if step.Reject? {
      assert OwnedIds(p)[|OwnedIds(p)| - 1] == p.reader.job.id;
    } else {
      assert OwnedIds(p)[0] == p.worker.job.id;
    }
    assert RecordedId(p, step) in Elements(OwnedIds(p));
  }

  lemma RecordedIsHonest(a: Agent, step: Step)
    requires HonestOk(a) && MemoryOk(a) && Records(a, step)
    requires RecordedId(a.process.value, step) in a.process.value.cache.pending
    requires IsTerminal(RecordedReply(a.process.value, step), RecordedId(a.process.value, step))
    ensures Honest(RecordedReply(a.process.value, step), a.past.log)
            && RecordedReply(a.process.value, step).commandId in a.past.seen
  {
  }

  /** What a recording step changes: the cache becomes `c`, in memory whatever the write does. */
  ghost predicate Recorded(a: Agent, b: Agent, id: Id, reply: Reply, c: Cache) {
    && a.process.Some? && b.process.Some?
    && var p, q := a.process.value, b.process.value;
    && q.cache == c
    && ((b.past.saved == a.past.saved && b.disk == a.disk) || (b.past.saved == c && b.disk == Some(Snapshot(c))))
    && a.past.faulted <= b.past.faulted <= a.past.faulted + {id}
    && (id !in b.past.faulted ==> b.past.saved == c)
    && b.past.seen == a.past.seen && b.past.known == a.past.known && b.past.last == a.past.last
    && b.past.log == a.past.log && b.past.replies == a.past.replies
    && b.past.verdicts == a.past.verdicts[id := reply]
    && b.past.trimmed == a.past.trimmed + ((Ids(p.cache) + {id}) - Ids(c))
    && q.queue == p.queue
    && (q.waiters == p.waiters || q.waiters == Release(p.waiters, id, reply))
    && (q.worker == p.worker || (q.worker.Reporting? && q.worker.reply == reply))
    && (q.reader == p.reader || (q.reader.Answering? && q.reader.reply == reply))
  }

  lemma RecordShape(a: Agent, step: Step)
    requires Records(a, step)
    ensures var id, reply := RecordedId(a.process.value, step), RecordedReply(a.process.value, step);
            Recorded(a, Next(a, step), id, reply, Complete(a.process.value.cache, id, reply))
  {
    hide Complete;
    hide Snapshot;
  }

  lemma DropLast<T>(s: seq<T>, x: T)
    requires Distinct(s + [x])
    ensures Distinct(s) && Elements(s) == Elements(s + [x]) - {x}
  {
    var t := s + [x];
    forall i, j | 0 <= i < j < |s| ensures s[i] != s[j] {
      assert t[i] != t[j];
    }
    forall i | 0 <= i < |s| ensures s[i] != x {
      assert t[i] != t[|s|];
    }
    ElementsOfSum(s, [x]);
    assert Elements([x]) == {x};
  }

  lemma DropFirst<T>(x: T, s: seq<T>)
    requires Distinct([x] + s)
    ensures Distinct(s) && Elements(s) == Elements([x] + s) - {x}
  {
    var t := [x] + s;
    forall i, j | 0 <= i < j < |s| ensures s[i] != s[j] {
      assert t[i + 1] != t[j + 1];
    }
    forall i | 0 <= i < |s| ensures s[i] != x {
      assert t[0] != t[i + 1];
    }
    ElementsOfSum([x], s);
    assert Elements([x]) == {x};
  }

  /** The recorded command was the last one owned, or the first. */
  lemma OwnedAfterRecord(a: Agent, step: Step)
    requires Records(a, step)
    ensures Next(a, step).process.Some?
    ensures var owned, rest, id := OwnedIds(a.process.value), OwnedIds(Next(a, step).process.value),
            RecordedId(a.process.value, step);
            owned == rest + [id] || owned == [id] + rest
  {
    hide Complete;
    hide Snapshot;
    var p, q := a.process.value, Next(a, step).process.value;
    assert q.queue == p.queue;
    if step.Reject? {
      assert OwnedIds(p) == OwnedIds(q) + [RecordedId(p, step)];
    } else {
      assert OwnedIds(p) == [RecordedId(p, step)] + OwnedIds(q);
    }
  }

  lemma RecordFlight(a: Agent, step: Step)
    requires Records(a, step) && FlightOk(a.process.value)
    ensures Next(a, step).process.Some? && FlightOk(Next(a, step).process.value)
  {
    hide Next;
    hide Complete;
    hide Snapshot;
    hide OwnedIds;
    var p := a.process.value;
    var id := RecordedId(p, step);
    RecordShape(a, step);
    CompletePending(p.cache, id, RecordedReply(p, step));
    OwnedAfterRecord(a, step);
    var rest := OwnedIds(Next(a, step).process.value);
    if OwnedIds(p) == rest + [id] {
      DropLast(rest, id);
    } else {
      DropFirst(id, rest);
    }
  }

  /** A result recorded for an id in flight, seen from the cache. */
  lemma CompleteFacts(c: Cache, id: Id, reply: Reply, last: Id)
    requires CacheOk(c) && id in c.pending && IsTerminal(reply, id)
    ensures var d := Complete(c, id, reply);
            && CacheOk(d) && d.pending == c.pending - {id} && Ids(d) <= Ids(c)
            && (Recent(c, last) ==> Recent(d, last))
            && (forall r <- d.completed.Values :: r == reply || r in c.completed.Values)
            && (forall x <- d.completed :: IsTerminal(d.completed[x], x))
            && (forall x <- d.completed ::
                  if x == id then d.completed[x] == reply else x in c.completed && d.completed[x] == c.completed[x])
  {
    hide Complete;
    CompleteValid(c, id, reply);
    SubsetSize(Complete(c, id, reply).pending, c.pending);
    if Recent(c, last) {
      CompleteKeepsRecent(c, last, id, reply);
    }
    hide Recent;
    forall r | r in Complete(c, id, reply).completed.Values ensures r == reply || r in c.completed.Values {
      var x :| x in Complete(c, id, reply).completed && Complete(c, id, reply).completed[x] == r;
      if x != id {
        assert c.completed[x] == r;
      }
    }
  }

  lemma RecordStorage(a: Agent, b: Agent, id: Id, reply: Reply, c: Cache)
    requires Recorded(a, b, id, reply, c) && StorageOk(a) && CacheOk(c)
    ensures StorageOk(b)
  {
    hide Snapshot;
    hide CacheOk;
  }

  lemma RecordMemory(a: Agent, b: Agent, id: Id, reply: Reply, c: Cache)
    requires Recorded(a, b, id, reply, c) && MemoryOk(a)
    requires Ids(c) <= Ids(a.process.value.cache) && c.pending <= a.process.value.cache.pending
    requires a.past.last.Some? && Recent(a.process.value.cache, a.past.last.value) ==> Recent(c, a.past.last.value)
    ensures MemoryOk(b)
  {
    hide Snapshot;
    hide Recent;
  }

  lemma RecordOnce(a: Agent, b: Agent, id: Id, reply: Reply, c: Cache)
    requires Recorded(a, b, id, reply, c) && OnceOk(a)
    ensures OnceOk(b)
  {
    hide Snapshot;
  }

  /** After recording, only the recorded reply is newly carried. */
  lemma RecordCarries(a: Agent, b: Agent, id: Id, reply: Reply, c: Cache, r: Reply)
    requires Recorded(a, b, id, reply, c)
    requires forall x <- c.completed.Values :: x == reply || x in a.process.value.cache.completed.Values
    requires Carried(b.process.value, r)
    ensures Carried(a.process.value, r) || r == reply
  {
    hide Snapshot;
    ReleaseCarries(a.process.value.waiters, id, reply);
  }

  lemma ReleaseCarries(waiters: seq<Waiter>, id: Id, reply: Reply)
    ensures forall w <- Release(waiters, id, reply) ::
              exists v <- waiters :: w.id == v.id && (w.reply == v.reply || w.reply == Some(reply))
  {
    var r := Release(waiters, id, reply);
    forall w | w in r ensures exists v <- waiters :: w.id == v.id && (w.reply == v.reply || w.reply == Some(reply)) {
      var i :| 0 <= i < |r| && r[i] == w;
      assert waiters[i] in waiters;
    }
  }

  lemma RecordHonest(a: Agent, b: Agent, id: Id, reply: Reply, c: Cache)
    requires Recorded(a, b, id, reply, c) && HonestOk(a) && Honest(reply, a.past.log) && reply.commandId in a.past.seen
    requires forall x <- c.completed.Values :: x == reply || x in a.process.value.cache.completed.Values
    ensures HonestOk(b)
  {
    hide Snapshot;
    hide Honest;
    forall r | Carried(b.process.value, r) ensures Honest(r, b.past.log) && r.commandId in b.past.seen {
      RecordCarries(a, b, id, reply, c, r);
    }
    forall r | r in c.completed.Values ensures Honest(r, b.past.log) {
      assert Carried(b.process.value, r);
    }
    ReleaseCarries(a.process.value.waiters, id, reply);
  }

  lemma RecordDurable(a: Agent, b: Agent, id: Id, reply: Reply, c: Cache)
    requires Recorded(a, b, id, reply, c) && DurableOk(a)
    ensures DurableOk(b)
  {
    hide Snapshot;
  }

  lemma RecordAgreement(a: Agent, b: Agent, x: Id, reply: Reply, c: Cache, id: Id)
    requires Recorded(a, b, x, reply, c) && IdAgrees(a, id) && id !in b.past.faulted
    requires x in a.process.value.cache.pending && reply.commandId == x
    requires a.process.value.cache.pending <= a.past.known && c.pending == a.process.value.cache.pending - {x}
    requires forall r <- c.completed.Values :: r == reply || r in a.process.value.cache.completed.Values
    requires forall y <- c.completed :: IsTerminal(c.completed[y], y)
    ensures IdAgrees(b, id)
  {
    hide Snapshot;
    forall r | Carried(b.process.value, r) && r.commandId == id ensures Agrees(b.past.verdicts, r, id) {
      RecordCarries(a, b, x, reply, c, r);
    }
    hide Carried;
    if id in c.completed {
      assert c.completed[id] in c.completed.Values;
      CarriedResult(b.process.value, id);
    }
  }

  lemma CarriedResult(p: Process, id: Id)
    requires id in p.cache.completed
    ensures Carried(p, p.cache.completed[id])
  {
    assert p.cache.completed[id] in p.cache.completed.Values;
  }

  // ---------- begin ----------

  predicate Begins(a: Agent, step: Step) {
    step.Begin? && a.process.Some? && a.process.value.reader.Acknowledged?
  }

  predicate Grants(a: Agent, step: Step) {
    Begins(a, step) && BeginAnswerFor(a.process.value.cache, a.process.value.reader.job.id).Owner?
  }

  lemma BeginStorage(a: Agent, step: Step)
    requires StorageOk(a) && Begins(a, step) && FlightOk(a.process.value) && a.process.value.reader.job.id != ""
    ensures StorageOk(Next(a, step))
  {
    hide CacheOk;
    hide Snapshot;
    if Grants(a, step) {
      BeginCacheOk(a);
    }
  }

  lemma BeginFlight(a: Agent, step: Step)
    requires Begins(a, step) && FlightOk(a.process.value)
    ensures Next(a, step).process.Some? && FlightOk(Next(a, step).process.value)
  {
    var p, q := a.process.value, Next(a, step).process.value;
    var id := p.reader.job.id;
    if Grants(a, step) && step.beginWrite == Written {
      assert OwnedIds(q) == OwnedIds(p) + [id];
      assert Elements([id]) == {id};
      DistinctSum(OwnedIds(p), [id]);
    } else {
      assert OwnedIds(q) == OwnedIds(p);
    }
  }

  /** A step that grants ownership grants it for the first time. */
  lemma BeginMemory(a: Agent, step: Step)
    requires StorageOk(a) && MemoryOk(a) && Begins(a, step)
    ensures MemoryOk(Next(a, step))
    ensures Grants(a, step) ==> a.process.value.reader.job.id !in a.past.known
  {
    hide Valid;
    hide Snapshot;
    if Grants(a, step) {
      GrantIsFresh(a);
    }
  }

  lemma BeginOnce(a: Agent, step: Step)
    requires OnceOk(a) && Begins(a, step)
    requires Grants(a, step) ==> a.process.value.reader.job.id !in a.past.known
    ensures OnceOk(Next(a, step))
  {
  }

  lemma BeginHonest(a: Agent, step: Step)
    requires HonestOk(a) && Begins(a, step) && a.process.value.reader.job.id in a.past.seen
    ensures HonestOk(Next(a, step))
  {
    hide Ids;
    hide Snapshot;
    var p, b := a.process.value, Next(a, step);
    var id := p.reader.job.id;
    forall r | Carried(b.process.value, r) ensures Carried(p, r) || r == NotAccepted(id) {
      if id in p.cache.completed {
        assert p.cache.completed[id] in p.cache.completed.Values;
      }
    }
  }

  lemma BeginDurable(a: Agent, step: Step)
    requires DurableOk(a) && Begins(a, step)
    ensures DurableOk(Next(a, step))
  {
  }

  /** What `begin` changes of what replies are about. */
  ghost predicate Begun(a: Agent, b: Agent, x: Id, granted: bool) {
    && a.process.Some? && b.process.Some?
    && var c, d := a.process.value.cache, b.process.value.cache;
    && b.past.verdicts == a.past.verdicts && b.past.replies == a.past.replies
    && a.past.faulted <= b.past.faulted <= a.past.faulted + {x}
    && (!granted ==> b.past.faulted == a.past.faulted)
    && (if granted && x !in b.past.faulted
        then b.past.known == a.past.known + {x} && b.past.saved == d == WithPending(c, x)
        else if !granted then b.past.known == a.past.known && b.past.saved == a.past.saved && d == c
        else a.past.known <= b.past.known <= a.past.known + {x} && (d == c || d == WithPending(c, x))
             && (b.past.saved == a.past.saved || b.past.saved == WithPending(c, x)))
  }

  lemma BeginShape(a: Agent, step: Step)
    requires Begins(a, step)
    ensures Begun(a, Next(a, step), a.process.value.reader.job.id, Grants(a, step))
  {
    hide Snapshot;
  }

  /** An answer from the cache carries nothing new. */
  lemma BeginCarries(a: Agent, step: Step, r: Reply)
    requires Begins(a, step) && Next(a, step).process.Some? && Carried(Next(a, step).process.value, r)
    ensures var id := a.process.value.reader.job.id;
            Carried(a.process.value, r) || (id in Next(a, step).past.faulted && r.commandId == id)
  {
    hide Snapshot;
    var p, id := a.process.value, a.process.value.reader.job.id;
    if id in p.cache.completed {
      assert p.cache.completed[id] in p.cache.completed.Values;
    }
  }

  /** What `begin` leaves agrees, given what it changes. */
  lemma BegunAgrees(a: Agent, b: Agent, x: Id, granted: bool, id: Id)
    requires Begun(a, b, x, granted) && IdAgrees(a, id) && id !in b.past.faulted
    requires granted ==> x !in a.past.known && x !in a.process.value.cache.completed
    requires forall y <- a.process.value.cache.completed :: a.process.value.cache.completed[y].commandId == y
    requires forall r :: Carried(b.process.value, r) && r.commandId == id ==> Carried(a.process.value, r)
    ensures IdAgrees(b, id)
  {
    hide Carried;
    if id in a.process.value.cache.completed {
      CarriedResult(a.process.value, id);
    }
  }

  lemma BeginAgreement(a: Agent, step: Step)
    requires StorageOk(a) && MemoryOk(a) && AgreementOk(a) && Begins(a, step)
    ensures AgreementOk(Next(a, step))
  {
    var b, x := Next(a, step), a.process.value.reader.job.id;
    BeginShape(a, step);
    if Grants(a, step) {
      GrantIsFresh(a);
    }
    hide Next;
    hide MemoryOk;
    hide Begun;
    forall id | id !in b.past.faulted ensures IdAgrees(b, id) {
      assert IdAgrees(a, id) by {
        BegunFaults(a, b, x, Grants(a, step));
      }
      forall r | Carried(b.process.value, r) && r.commandId == id ensures Carried(a.process.value, r) {
        BeginCarries(a, step, r);
      }
      hide Carried;
      hide IdAgrees;
      BegunAgrees(a, b, x, Grants(a, step), id);
    }
  }

  lemma BegunFaults(a: Agent, b: Agent, x: Id, granted: bool)
    requires Begun(a, b, x, granted)
    ensures a.process.Some? && b.process.Some? && a.past.faulted <= b.past.faulted
  {
  }

  // ---------- crash and restart ----------

  /** A crash in the middle of a write that landed leaves what the completed step leaves, minus the process. */
  lemma CrashShape(a: Agent, landed: Landed)
    requires Enabled(a, Crash(landed)) && landed != NoWrite
    ensures var step := if landed == WorkerWrite then Record(Written)
                        else if a.process.value.reader.Rejecting? then Reject(Written) else Begin(Written);
            Enabled(a, step) && Next(a, Crash(landed)) == Next(a, step).(process := None)
  {
  }

  lemma LosingTheProcess(a: Agent)
    requires Inv(a)
    ensures Inv(a.(process := None))
  {
  }

  lemma ReloadHolds(c: Cache, binding: string)
    requires CacheOk(c)
    ensures CacheOk(Reload(c)) && Reload(c).pending == {} && Ids(Reload(c)) <= Ids(c)
    ensures forall id <- Reload(c).completed ::
              Reload(c).completed[id] == if id in c.pending then UnknownOutcome(id) else
                                         if id in c.completed then c.completed[id] else UnknownOutcome(id)
    ensures forall id <- Reload(c).completed ::
              IsTerminal(Reload(c).completed[id], id) && (id in c.pending || id in c.completed)
  {
    SnapshotRoundTrip(c, binding);
  }

  /** What a restart does, with the reloaded cache named. */
  ghost predicate Reopened(a: Agent, b: Agent, w: WriteOutcome, c: Cache) {
    && a.process.None? && b.binding == a.binding
    && (b.process.Some? <==> w == Written)
    && (w == Written ==> b.process.value == Process(c, [], Idle, Offline, []))
    && (if w == FailedBeforeRename then b.past == a.past && b.disk == a.disk
        else b.past == a.past.(saved := c,
                               verdicts := a.past.verdicts
                                           + (map id | id in a.past.saved.pending :: UnknownOutcome(id)),
                               trimmed := a.past.trimmed + (Ids(a.past.saved) - Ids(c)))
             && b.disk == Some(Snapshot(c)))
  }

  lemma RestartShape(a: Agent, w: WriteOutcome, c: Cache)
    requires StorageOk(a) && a.process.None? && c == Reload(a.past.saved)
    ensures Reopened(a, Next(a, Restart(w)), w, c)
  {
    RestartLoads(a);
  }

  lemma RestartStorage(a: Agent, b: Agent, w: WriteOutcome, c: Cache)
    requires Reopened(a, b, w, c) && StorageOk(a) && CacheOk(c)
    ensures StorageOk(b)
  {
    hide Snapshot;
    hide CacheOk;
  }

  lemma RestartMemory(a: Agent, b: Agent, w: WriteOutcome, c: Cache)
    requires Reopened(a, b, w, c) && MemoryOk(a) && Ids(c) <= Ids(a.past.saved) && c.pending == {}
    requires a.past.last.Some? && Recent(a.past.saved, a.past.last.value) ==> Recent(c, a.past.last.value)
    ensures MemoryOk(b)
  {
    hide Snapshot;
    hide Recent;
  }

  lemma RestartOnce(a: Agent, b: Agent, w: WriteOutcome, c: Cache)
    requires Reopened(a, b, w, c) && OnceOk(a) && c.pending == {}
    ensures OnceOk(b) && (b.process.Some? ==> FlightOk(b.process.value))
  {
    hide Snapshot;
  }

  lemma RestartDurable(a: Agent, b: Agent, w: WriteOutcome, c: Cache)
    requires Reopened(a, b, w, c) && DurableOk(a)
    ensures DurableOk(b)
  {
    hide Snapshot;
  }

  lemma ReloadHonest(a: Agent, c: Cache)
    requires CacheOk(a.past.saved) && Ids(a.past.saved) <= a.past.seen && c == Reload(a.past.saved)
    requires forall r <- a.past.saved.completed.Values :: Honest(r, a.past.log)
    ensures forall r <- c.completed.Values :: Honest(r, a.past.log) && r.commandId in a.past.seen
  {
    hide Reload;
    hide CacheOk;
    ReloadHolds(a.past.saved, a.binding);
    forall r | r in c.completed.Values ensures Honest(r, a.past.log) && r.commandId in a.past.seen {
      var id :| id in c.completed && c.completed[id] == r;
      if id in a.past.saved.completed {
        assert a.past.saved.completed[id] in a.past.saved.completed.Values;
      }
    }
  }

  lemma RestartHonest(a: Agent, b: Agent, w: WriteOutcome, c: Cache)
    requires Reopened(a, b, w, c) && HonestOk(a)
    requires forall r <- c.completed.Values :: Honest(r, a.past.log) && r.commandId in a.past.seen
    ensures HonestOk(b)
  {
    hide Snapshot;
    hide Honest;
  }

  /** After a restart every reloaded result is the first verdict on its id, unless its own write failed. */
  lemma ReloadAgrees(saved: Cache, verdicts: map<Id, Reply>, binding: string, id: Id)
    requires CacheOk(saved) && id in Reload(saved).completed
    requires id in saved.completed ==> Agrees(verdicts, saved.completed[id], id)
    ensures Agrees(verdicts + (map x | x in saved.pending :: UnknownOutcome(x)), Reload(saved).completed[id], id)
  {
    ReloadHolds(saved, binding);
    var r := Reload(saved).completed[id];
    assert r == if id in saved.pending then UnknownOutcome(id)
                else if id in saved.completed then saved.completed[id] else UnknownOutcome(id);
    assert id in saved.pending || id in saved.completed;
    hide *;
    SettledAgrees(saved, verdicts, r, id);
  }

  lemma SettledAgrees(saved: Cache, verdicts: map<Id, Reply>, r: Reply, id: Id)
    requires id in saved.pending || id in saved.completed
    requires r == if id in saved.pending then UnknownOutcome(id)
                  else if id in saved.completed then saved.completed[id] else UnknownOutcome(id)
    requires id in saved.completed ==> Agrees(verdicts, saved.completed[id], id)
    ensures Agrees(verdicts + (map x | x in saved.pending :: UnknownOutcome(x)), r, id)
  {
  }

  lemma RestartAgreement(a: Agent, b: Agent, w: WriteOutcome, c: Cache, id: Id)
    requires Reopened(a, b, w, c) && IdAgrees(a, id) && c.pending == {}
    requires id in c.completed ==>
               Agrees(a.past.verdicts + (map x | x in a.past.saved.pending :: UnknownOutcome(x)), c.completed[id], id)
    requires forall y <- c.completed :: c.completed[y].commandId == y
    ensures IdAgrees(b, id)
  {
    hide Snapshot;
  }

  lemma ReopenedFaults(a: Agent, b: Agent, w: WriteOutcome, c: Cache)
    requires Reopened(a, b, w, c)
    ensures b.past.faulted == a.past.faulted
  {
  }

  lemma RestartKeepsInv(a: Agent, w: WriteOutcome)
    requires Inv(a) && Enabled(a, Restart(w))
    ensures Inv(Next(a, Restart(w)))
  {
    var b, c := Next(a, Restart(w)), Reload(a.past.saved);
    RestartShape(a, w, c);
    hide Next;
    ReloadHolds(a.past.saved, a.binding);
    ReloadHonest(a, c);
    forall id | id !in a.past.faulted && id in c.completed
      ensures Agrees(a.past.verdicts + (map x | x in a.past.saved.pending :: UnknownOutcome(x)), c.completed[id], id)
    {
      assert IdAgrees(a, id);
      ReloadAgrees(a.past.saved, a.past.verdicts, a.binding, id);
    }
    if a.past.last.Some? && Recent(a.past.saved, a.past.last.value) {
      ReloadKeepsRecent(a.past.saved, a.past.last.value, a.binding);
    }
    hide Reload;
    hide Reopened;
    hide Recent;
    hide CacheOk;
    RestartStorage(a, b, w, c);
    RestartMemory(a, b, w, c);
    RestartOnce(a, b, w, c);
    RestartDurable(a, b, w, c);
    RestartHonest(a, b, w, c);
    ReopenedFaults(a, b, w, c);
    forall id | id !in b.past.faulted ensures IdAgrees(b, id) {
      assert IdAgrees(a, id);
      RestartAgreement(a, b, w, c, id);
    }
  }

  // ---------- every step, every run ----------

  lemma StepKeepsInv(a: Agent, step: Step)
    requires Inv(a) && Enabled(a, step) && Promise(a, step)
    ensures Inv(Next(a, step))
  {
    match step {
      case Crash(landed) =>
        if landed != NoWrite {
          CrashShape(a, landed);
          var whole := if landed == WorkerWrite then Record(Written)
                       else if a.process.value.reader.Rejecting? then Reject(Written) else Begin(Written);
          if whole.Begin? { BeginKeepsInv(a, whole); } else { RecordKeepsInv(a, whole); }
          LosingTheProcess(Next(a, whole));
        } else {
          LosingTheProcess(a);
        }
      case Restart(w) =>
        RestartKeepsInv(a, w);
      case Begin(_) => BeginKeepsInv(a, step);
      case Reject(_) => RecordKeepsInv(a, step);
      case Record(_) => RecordKeepsInv(a, step);
      case _ => QuietKeepsInv(a, step);
    }
  }

  lemma QuietKeepsInv(a: Agent, step: Step)
    requires Inv(a) && Enabled(a, step) && Promise(a, step) && Quiet(step)
    ensures Inv(Next(a, step))
  {
    QuietFrame(a, step);
    QuietFlight(a, step);
    QuietMemory(a, step);
    QuietOnce(a, step);
    QuietHonest(a, step);
    QuietAgreement(a, step);
  }

  lemma BeginKeepsInv(a: Agent, step: Step)
    requires Inv(a) && Begins(a, step) && Enabled(a, step)
    ensures Inv(Next(a, step))
  {
    BeginStorage(a, step);
    BeginFlight(a, step);
    BeginMemory(a, step);
    BeginOnce(a, step);
    BeginHonest(a, step);
    BeginDurable(a, step);
    BeginAgreement(a, step);
  }

  lemma RecordedFaults(a: Agent, b: Agent, id: Id, reply: Reply, c: Cache)
    requires Recorded(a, b, id, reply, c)
    ensures a.past.faulted <= b.past.faulted
  {
  }

  lemma RecordKeepsInv(a: Agent, step: Step)
    requires Inv(a) && Records(a, step) && Enabled(a, step)
    ensures Inv(Next(a, step))
  {
    var p, b := a.process.value, Next(a, step);
    var id, reply := RecordedId(p, step), RecordedReply(p, step);
    var c := Complete(p.cache, id, reply);
    RecordedIsPending(a, step);
    RecordedIsHonest(a, step);
    RecordShape(a, step);
    RecordFlight(a, step);
    CompleteFacts(p.cache, id, reply, if a.past.last.Some? then a.past.last.value else id);
    hide Next;
    hide Complete;
    hide Recorded;
    hide Recent;
    hide FlightOk;
    RecordStorage(a, b, id, reply, c);
    RecordMemory(a, b, id, reply, c);
    RecordOnce(a, b, id, reply, c);
    RecordHonest(a, b, id, reply, c);
    RecordDurable(a, b, id, reply, c);
    RecordedFaults(a, b, id, reply, c);
    forall x | x !in b.past.faulted ensures IdAgrees(b, x) {
      assert IdAgrees(a, x);
      RecordAgreement(a, b, id, reply, c, x);
    }
  }
}
