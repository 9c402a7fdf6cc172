/** What the host agent does for sure: every command it acknowledges on a connection is answered on that
    connection or still owed there, and every command it accepts is started or still waits to be. */
module AgentAnswers {
  import opened Base
  import opened CommandCache
  import opened HostAgent
  import opened HostAgentSafety
  import W = CommandProtocol

  // ---------- an answer to every acknowledged command ----------

  /** A reply about the command is in hand for this connection. */
  predicate InHand(session: Session, reply: Reply, s: Session, id: Id) {
    session == s && reply.commandId == id
  }

  /** A goroutine waits for the result, which somebody else still has to record, or has it already. */
  ghost predicate Awaits(p: Process, w: Waiter, s: Session, id: Id) {
    && w.session == s && w.id == id
    && match w.reply
       case None => id in p.cache.pending
       case Some(reply) => reply.commandId == id
  }

  ghost predicate ReaderOwes(r: Reader, s: Session, id: Id) {
    match r
    case Acknowledged(job) => job == Job(s, id)
    case Granted(job) => job == Job(s, id)
    case Rejecting(job) => job == Job(s, id)
    case Answering(session, reply) => InHand(session, reply, s, id)
    case _ => false
  }

  ghost predicate WorkerOwes(w: Worker, s: Session, id: Id) {
    match w
    case Executing(job) => job == Job(s, id)
    case Finished(job, reply) => job == Job(s, id) && reply.commandId == id
    case Reporting(session, reply) => InHand(session, reply, s, id)
    case Idle => false
  }

  /** An answer about the command is still to be put on connection `s`: by the read loop, by the worker, which
      it waits for in the queue or has got to, or by a goroutine that waits for its result. */
  ghost predicate Owes(p: Process, s: Session, id: Id) {
    || ReaderOwes(p.reader, s, id)
    || Job(s, id) in p.queue
    || WorkerOwes(p.worker, s, id)
    || exists w <- p.waiters :: Awaits(p, w, s, id)
  }

  /** The step puts a result about the command on connection `s`. */
  ghost predicate Concludes(a: Agent, step: Step, s: Session, id: Id)
    requires Enabled(a, step)
  {
    exists reply :: Emits(a, step) == [(s, Conclude(reply))] && reply.commandId == id
  }

  /** The process dies, the waiting goroutine gives up, or the frame is lost. */
  ghost predicate Fails(a: Agent, step: Step, s: Session, id: Id)
    requires Enabled(a, step)
  {
    a.process.Some? &&
    match step
    case Crash(_) => true
    case Abandon(i) => a.process.value.waiters[i].session == s && a.process.value.waiters[i].id == id
    case Answer(send) => !send.wire && ReaderOwes(a.process.value.reader, s, id)
    case Report(send) => !send.wire && WorkerOwes(a.process.value.worker, s, id)
    case Replay(i, send) => !send.wire && Awaits(a.process.value, a.process.value.waiters[i], s, id)
    case _ => false
  }

  lemma BeginPays(a: Agent, step: Step, s: Session, id: Id)
    requires a.process.Some? && Enabled(a, step) && step.Begin? && CacheOk(a.process.value.cache)
    requires ReaderOwes(a.process.value.reader, s, id)
    ensures Next(a, step).process.Some? && Owes(Next(a, step).process.value, s, id)
  {
    hide Snapshot;
    var p, b := a.process.value, Next(a, step);
    match BeginAnswerFor(p.cache, id) {
      case Cached(reply) => assert reply.commandId == id;
      case InFlight =>
        assert b.process.value.waiters[|p.waiters|] == Waiter(s, id, None);
        assert Waiter(s, id, None) in b.process.value.waiters;
        assert Awaits(b.process.value, Waiter(s, id, None), s, id);
      case Owner => assert ReaderOwes(b.process.value.reader, s, id);
    }
  }

  lemma ReaderPays(a: Agent, step: Step, s: Session, id: Id)
    requires a.process.Some? && Enabled(a, step) && !step.Restart? && !step.Crash? && CacheOk(a.process.value.cache)
    requires ReaderOwes(a.process.value.reader, s, id)
    ensures Concludes(a, step, s, id) || Fails(a, step, s, id)
            || (Next(a, step).process.Some? && Owes(Next(a, step).process.value, s, id))
  {
    hide BeginAnswerFor;
    hide Snapshot;
    hide CommandCache.Complete;
    var p := a.process.value;
    match step {
      case Begin(w) => BeginPays(a, step, s, id);
      case Enqueue =>
        assert |p.queue| < QUEUE_CAPACITY ==>
          Next(a, step).process.value.queue[|p.queue|] == Job(s, id);
      case Answer(send) => assert send.wire ==> Emits(a, step) == [(s, Conclude(p.reader.reply))];
      case _ =>
    }
  }

  lemma WorkerPays(a: Agent, step: Step, s: Session, id: Id)
    requires a.process.Some? && Enabled(a, step) && !step.Restart? && !step.Crash?
    requires WorkerOwes(a.process.value.worker, s, id)
    ensures Concludes(a, step, s, id) || Fails(a, step, s, id)
            || (Next(a, step).process.Some? && Owes(Next(a, step).process.value, s, id))
  {
    hide Snapshot;
    hide CommandCache.Complete;
    hide BeginAnswerFor;
    var p := a.process.value;
    if step.Report? && step.report.wire {
      assert Emits(a, step) == [(s, Conclude(p.worker.reply))];
    }
  }

  lemma QueuePays(a: Agent, step: Step, s: Session, id: Id)
    requires a.process.Some? && Enabled(a, step) && !step.Restart? && !step.Crash?
    requires Job(s, id) in a.process.value.queue
    ensures Next(a, step).process.Some? && Owes(Next(a, step).process.value, s, id)
  {
    hide Snapshot;
    hide CommandCache.Complete;
    hide BeginAnswerFor;
    var p := a.process.value;
    if step.Take? && p.queue[0] != Job(s, id) {
      assert p.queue == [p.queue[0]] + p.queue[1..];
    }
  }

  lemma WaiterPays(a: Agent, step: Step, s: Session, id: Id, i: nat)
    requires a.process.Some? && Enabled(a, step) && !step.Restart? && !step.Crash?
    requires a.process.value.worker.Finished? ==>
               a.process.value.worker.reply.commandId == a.process.value.worker.job.id
    requires i < |a.process.value.waiters| && Awaits(a.process.value, a.process.value.waiters[i], s, id)
    ensures Concludes(a, step, s, id) || Fails(a, step, s, id)
            || (Next(a, step).process.Some? && Owes(Next(a, step).process.value, s, id))
  {
    hide Next;
    var p, w := a.process.value, a.process.value.waiters[i];
    if step.Record? || step.Reject? {
      RecordReleases(a, step, s, id, i);
    } else if step.Replay? || step.Abandon? {
      var k := if step.Replay? then step.waiter else step.abandoned;
      var rest := p.waiters[..k] + p.waiters[k + 1..];
      if k == i {
        assert step.Replay? && step.replay.wire ==> Emits(a, step) == [(s, Conclude(w.reply.value))];
      } else {
        assert rest[if i < k then i else i - 1] == w;
        OthersStay(a, step);
        assert Awaits(Next(a, step).process.value, w, s, id);
      }
    } else {
      WaiterStays(a, step, i);
      assert Awaits(Next(a, step).process.value, w, s, id);
    }
  }

  lemma OthersStay(a: Agent, step: Step)
    requires a.process.Some? && Enabled(a, step) && (step.Replay? || step.Abandon?)
    ensures Next(a, step).process.Some?
    ensures var p, q := a.process.value, Next(a, step).process.value;
            var k := if step.Replay? then step.waiter else step.abandoned;
            q.cache == p.cache && q.waiters == p.waiters[..k] + p.waiters[k + 1..]
  {
  }

  /** No other step takes a waiting goroutine away, or the command it waits for. */
  lemma WaiterStays(a: Agent, step: Step, i: nat)
    requires a.process.Some? && Enabled(a, step) && !step.Restart? && !step.Crash?
    requires !step.Record? && !step.Reject? && !step.Replay? && !step.Abandon? && i < |a.process.value.waiters|
    ensures Next(a, step).process.Some?
    ensures var p, q := a.process.value, Next(a, step).process.value;
            p.waiters[i] in q.waiters && p.cache.pending <= q.cache.pending
  {
    hide Snapshot;
    hide CommandCache.Complete;
    var p, b := a.process.value, Next(a, step);
    assert b.process.value.waiters == p.waiters || b.process.value.waiters[..|p.waiters|] == p.waiters;
    assert b.process.value.waiters[i] == p.waiters[i];
  }

  /** Recording a result releases the goroutines that wait for it, and no other. */
  lemma RecordReleases(a: Agent, step: Step, s: Session, id: Id, i: nat)
    requires a.process.Some? && Enabled(a, step) && (step.Record? || step.Reject?)
    requires i < |a.process.value.waiters| && Awaits(a.process.value, a.process.value.waiters[i], s, id)
    requires RecordedReply(a.process.value, step).commandId == RecordedId(a.process.value, step)
    ensures Next(a, step).process.Some? && Owes(Next(a, step).process.value, s, id)
  {
    var p, w := a.process.value, a.process.value.waiters[i];
    var b := Next(a, step);
    var c := RecordedId(p, step);
    hide Snapshot;
    CompletePending(p.cache, c, RecordedReply(p, step));
    hide CommandCache.Complete;
    assert b.process.value.cache.pending == p.cache.pending - {c};
    var v := b.process.value.waiters[i];
    assert v in b.process.value.waiters;
    assert Awaits(b.process.value, v, s, id);
  }

  lemma DebtStep(a: Agent, step: Step, s: Session, id: Id)
    requires StorageOk(a) && HonestOk(a) && Enabled(a, step) && a.process.Some? && Owes(a.process.value, s, id)
    ensures Concludes(a, step, s, id) || Fails(a, step, s, id)
            || (Next(a, step).process.Some? && Owes(Next(a, step).process.value, s, id))
  {
    var p := a.process.value;
    assert !step.Restart? && CacheOk(p.cache);
    assert p.worker.Finished? ==> p.worker.reply.commandId == p.worker.job.id;
    hide Next;
    hide Emits;
    hide StorageOk;
    hide HonestOk;
    if step.Crash? {
    } else if ReaderOwes(p.reader, s, id) {
      ReaderPays(a, step, s, id);
    } else if Job(s, id) in p.queue {
      QueuePays(a, step, s, id);
    } else if WorkerOwes(p.worker, s, id) {
      WorkerPays(a, step, s, id);
    } else {
      var w :| w in p.waiters && Awaits(p, w, s, id);
      var i :| 0 <= i < |p.waiters| && p.waiters[i] == w;
      WaiterPays(a, step, s, id, i);
    }
  }

  // ---------- in the runs of the whole ----------

  /** The agent reads the command on connection `s` and acknowledges it. */
  ghost predicate Hears(w: W.World, e: W.Event, s: Session, id: Id) {
    e.Agent? && e.step == Receive(id, Send(true, true)) && id != "" && W.Current(w) == Some(s)
  }

  /** The event puts this message on the socket, and nothing else. */
  ghost predicate Says(w: W.World, v: W.World, s: Session, m: UpMessage) {
    s in w.up && s in v.up && v.up[s] == w.up[s] + [m]
  }

  ghost predicate SaysResult(w: W.World, v: W.World, s: Session, id: Id) {
    exists reply :: Says(w, v, s, Conclude(reply)) && reply.commandId == id
  }

  ghost predicate FailsIn(w: W.World, e: W.Event, s: Session, id: Id) {
    W.Enabled(w, e) && e.Agent? && Fails(w.agent, e.step, s, id)
  }

  ghost predicate OwesIn(w: W.World, s: Session, id: Id) {
    w.agent.process.Some? && Owes(w.agent.process.value, s, id)
  }

  lemma HeardIsAcknowledged(w: W.World, e: W.Event, s: Session, id: Id)
    requires W.Enabled(w, e) && Hears(w, e, s, id) && s in w.up
    ensures Says(w, W.Next(w, e), s, Acknowledge(id)) && OwesIn(W.Next(w, e), s, id)
  {
    OneMessage(w.up, s, Acknowledge(id));
  }

  lemma OneMessage(up: map<nat, seq<UpMessage>>, s: Session, m: UpMessage)
    requires s in up
    ensures W.PushAll(up, [(s, m)]) == up[s := up[s] + [m]]
  {
    var out := [(s, m)];
    assert out[1..] == [] && out[0] == (s, m);
    assert W.PushAll(up, out) == W.PushAll(up[s := up[s] + [m]], []);
  }

  lemma ConcludesIsSaid(w: W.World, step: Step, s: Session, id: Id)
    requires W.Enabled(w, W.Agent(step)) && s in w.up && Concludes(w.agent, step, s, id)
    ensures SaysResult(w, W.Next(w, W.Agent(step)), s, id)
  {
    var reply :| Emits(w.agent, step) == [(s, Conclude(reply))] && reply.commandId == id;
    OneMessage(w.up, s, Conclude(reply));
    assert !step.Connect? && !step.Receive?;
    hide W.PushAll;
    hide Next;
    assert Says(w, W.Next(w, W.Agent(step)), s, Conclude(reply));
  }

  lemma DebtEvent(w: W.World, e: W.Event, s: Session, id: Id)
    requires StorageOk(w.agent) && HonestOk(w.agent) && W.Enabled(w, e) && OwesIn(w, s, id) && s in w.up
    ensures SaysResult(w, W.Next(w, e), s, id) || FailsIn(w, e, s, id) || OwesIn(W.Next(w, e), s, id)
  {
    hide Owes;
    hide Fails;
    hide Concludes;
    hide Emits;
    hide Next;
    hide W.PushAll;
    if e.Agent? {
      DebtStep(w.agent, e.step, s, id);
      if Concludes(w.agent, e.step, s, id) {
        ConcludesIsSaid(w, e.step, s, id);
      }
    }
  }

  /** Between the two points a result about the command was put on the connection, or the process died, the
      waiting goroutine gave up or the frame was lost. */
  ghost predicate Settled(states: seq<W.World>, events: seq<W.Event>, i: nat, j: nat, s: Session, id: Id)
    requires i <= j <= |events| && |states| == |events| + 1
  {
    exists k :: i < k < j && (SaysResult(states[k], states[k + 1], s, id) || FailsIn(states[k], events[k], s, id))
  }

  lemma OneEventMore(states: seq<W.World>, events: seq<W.Event>, i: nat, j: nat, s: Session, id: Id)
    requires i < j < |events| && |states| == |events| + 1
    ensures Settled(states, events, i, j + 1, s, id) <==>
            Settled(states, events, i, j, s, id)
            || SaysResult(states[j], states[j + 1], s, id) || FailsIn(states[j], events[j], s, id)
  {
    hide SaysResult;
    hide FailsIn;
  }

  lemma RunDebt(binding: string, states: seq<W.World>, events: seq<W.Event>, i: nat, j: nat, s: Session, id: Id)
    requires W.IsRun(binding, states, events) && i <= j < |events| && Hears(states[i], events[i], s, id)
    requires OwesIn(states[j], s, id)
    ensures SaysResult(states[j], states[j + 1], s, id) || FailsIn(states[j], events[j], s, id)
            || OwesIn(states[j + 1], s, id)
  {
    HasSocket(binding, states, events, i, j, s);
    W.RunInv(binding, states, events, j);
    assert W.Enabled(states[j], events[j]) && states[j + 1] == W.Next(states[j], events[j]);
    assert StorageOk(states[j].agent) && HonestOk(states[j].agent);
    hide *;
    DebtEvent(states[j], events[j], s, id);
  }

  /** An answer on every connection: from the moment a command is acknowledged on a connection, in every run,
      its result has been put on that connection, or is still owed there, or something failed. That holds for
      a command that is being executed, waits, or was answered before, as well as for a new one. */
  lemma {:induction false} AnsweredOrOwed(binding: string, states: seq<W.World>, events: seq<W.Event>, i: nat, j: nat,
                                          s: Session, id: Id)
    requires W.IsRun(binding, states, events) && i < j <= |events| && Hears(states[i], events[i], s, id)
    ensures Says(states[i], states[i + 1], s, Acknowledge(id))
    ensures Settled(states, events, i, j, s, id) || OwesIn(states[j], s, id)
    decreases j
  {
    hide *;
    W.RunLength(binding, states, events);
    RunHears(binding, states, events, i, s, id);
    if j > i + 1 {
      AnsweredOrOwed(binding, states, events, i, j - 1, s, id);
      OneEventMore(states, events, i, j - 1, s, id);
      if OwesIn(states[j - 1], s, id) {
        RunDebt(binding, states, events, i, j - 1, s, id);
      }
    }
  }

  lemma RunHears(binding: string, states: seq<W.World>, events: seq<W.Event>, i: nat, s: Session, id: Id)
    requires W.IsRun(binding, states, events) && i < |events| && Hears(states[i], events[i], s, id)
    ensures Says(states[i], states[i + 1], s, Acknowledge(id)) && OwesIn(states[i + 1], s, id)
  {
    HasSocket(binding, states, events, i, i, s);
    assert W.Enabled(states[i], events[i]) && states[i + 1] == W.Next(states[i], events[i]);
    hide W.IsRun;
    HeardIsAcknowledged(states[i], events[i], s, id);
  }

  /** A connection once used is in the books for ever. */
  lemma {:induction false} HasSocket(binding: string, states: seq<W.World>, events: seq<W.Event>, i: nat, j: nat,
                                     s: Session)
    requires W.IsRun(binding, states, events) && i <= j < |states| && W.Current(states[i]) == Some(s)
    ensures s in states[j].up
  {
    W.RunInv(binding, states, events, i);
    W.RunInv(binding, states, events, j);
    SessionsGrow(binding, states, events, i, j);
  }

  lemma {:induction false} SessionsGrow(binding: string, states: seq<W.World>, events: seq<W.Event>, i: nat, j: nat)
    requires W.IsRun(binding, states, events) && i <= j < |states|
    ensures states[i].sessions <= states[j].sessions
    decreases j - i
  {
    if i < j {
      SessionsGrow(binding, states, events, i, j - 1);
      assert W.Enabled(states[j - 1], events[j - 1]) && states[j] == W.Next(states[j - 1], events[j - 1]);
      hide W.IsRun;
      MoreSessions(states[j - 1], events[j - 1]);
    }
  }

  lemma MoreSessions(w: W.World, e: W.Event)
    requires W.Enabled(w, e)
    ensures w.sessions <= W.Next(w, e).sessions
  {
    hide Next;
    hide Emits;
    hide W.PushAll;
  }

  /** When the agent has nothing left to read, to run or to answer, only finished waits are owed. */
  lemma IdleOwesReplaysOnly(a: Agent, s: Session, id: Id)
    requires a.process.Some? && FlightOk(a.process.value) && Owes(a.process.value, s, id)
    requires var p := a.process.value; p.worker.Idle? && p.queue == [] && (p.reader.Offline? || p.reader.Reading?)
    ensures exists w <- a.process.value.waiters ::
              w.session == s && w.reply.Some? && w.reply.value.commandId == id
  {
    var p := a.process.value;
    assert OwnedIds(p) == [];
    var w :| w in p.waiters && Awaits(p, w, s, id);
  }

  // ---------- the connection ----------

  /** A send of the read loop that fails ends the connection; one that succeeds keeps it, and after an answer
      the next message is read. */
  lemma FailedSendDisconnects(a: Agent, step: Step)
    requires a.process.Some? && Enabled(a, step) && (step.Answer? || (step.Receive? && step.id != ""))
    ensures Next(a, step).process.Some?
    ensures var r, q := a.process.value.reader, Next(a, step).process.value.reader;
            var ok := if step.Answer? then step.answer.ok else step.ack.ok;
            CurrentSession(q) == (if ok then CurrentSession(r) else None) && (step.Answer? && ok ==> q.Reading?)
  {
  }

  /** A connection is a new one, and the first thing on it is a hello. */
  lemma ConnectSaysHello(w: W.World, s: Session)
    requires W.Enabled(w, W.Agent(Connect(s)))
    ensures var v := W.Next(w, W.Agent(Connect(s)));
            s == w.sessions && v.up == w.up[s := [Hello]] && v.down == w.down[s := []] && W.Current(v) == Some(s)
  {
    OneMessage(w.up[s := []], s, Hello);
    assert [] + [Hello] == [Hello] && w.up[s := []][s := [Hello]] == w.up[s := [Hello]];
  }

  /** Every other step of the read loop and of the worker keeps the connection; when a send of the worker
      fails, the read loop notices later and drops it in a step of its own. */
  lemma OthersKeepConnection(a: Agent, step: Step)
    requires a.process.Some? && Enabled(a, step)
    requires !step.Connect? && !step.Drop? && !step.Receive? && !step.Answer? && !step.Crash?
    ensures Next(a, step).process.Some?
    ensures CurrentSession(Next(a, step).process.value.reader) == CurrentSession(a.process.value.reader)
  {
    hide Snapshot;
    hide CommandCache.Complete;
  }

  // ---------- every accepted command is started ----------

  ghost predicate Started(a: Agent, id: Id) {
    exists e <- a.past.log :: e.id == id
  }

  /** Accepted and not started: with the read loop or in the queue. */
  ghost predicate WaitsToStart(p: Process, id: Id) {
    (p.reader.Granted? && p.reader.job.id == id) || exists job <- p.queue :: job.id == id
  }

  /** The process dies, or the queue is full: 64 commands wait already. */
  ghost predicate Refuses(a: Agent, step: Step, id: Id) {
    a.process.Some? &&
    (step.Crash? || (step.Enqueue? && a.process.value.reader.Granted? && a.process.value.reader.job.id == id
                     && |a.process.value.queue| >= 64))
  }

  lemma StartStep(a: Agent, step: Step, id: Id)
    requires Enabled(a, step) && a.process.Some? && WaitsToStart(a.process.value, id)
    ensures Started(Next(a, step), id) || Refuses(a, step, id)
            || (Next(a, step).process.Some? && WaitsToStart(Next(a, step).process.value, id))
  {
    hide Snapshot;
    hide CommandCache.Complete;
    hide BeginAnswerFor;
    var p := a.process.value;
    if step.Take? {
      assert p.queue == [p.queue[0]] + p.queue[1..];
      var b := Next(a, step);
      assert b.past.log[|a.past.log|] == Execution(p.queue[0].id, None);
    } else if step.Enqueue? && |p.queue| < QUEUE_CAPACITY {
      var b := Next(a, step);
      assert b.process.value.queue[|p.queue|] == p.reader.job;
    }
  }

  lemma StartedStays(a: Agent, step: Step, id: Id)
    requires StorageOk(a) && OnceOk(a) && Enabled(a, step) && Started(a, id)
    ensures Started(Next(a, step), id)
  {
    hide StorageOk;
    LogGrows(a, step);
    hide Next;
    hide OnceOk;
    var e :| e in a.past.log && e.id == id;
    var i :| 0 <= i < |a.past.log| && a.past.log[i] == e;
    assert Next(a, step).past.log[i] in Next(a, step).past.log;
  }

  /** Executions keep their places in the log. */
  lemma LogGrows(a: Agent, step: Step)
    requires StorageOk(a) && OnceOk(a) && Enabled(a, step)
    ensures |Next(a, step).past.log| >= |a.past.log|
    ensures forall i :: 0 <= i < |a.past.log| ==> Next(a, step).past.log[i].id == a.past.log[i].id
  {
    if step.Restart? {
      RestartShape(a, step.restartWrite, Reload(a.past.saved));
      hide Next;
      assert Next(a, step).past.log == a.past.log;
    } else {
      LivingLog(a, step);
      hide Next;
    }
  }

  lemma LivingLog(a: Agent, step: Step)
    requires Enabled(a, step) && !step.Restart?
    ensures var log := Next(a, step).past.log;
            || log == a.past.log
            || (step.Take? && log == a.past.log + [Execution(a.process.value.queue[0].id, None)])
            || (step.Finish? && log == Ended(a.past.log, Execution(a.process.value.worker.job.id, Some(step.outcome))))
  {
    hide Snapshot;
    hide CommandCache.Complete;
    hide BeginAnswerFor;
    hide Ended;
  }

  // ---------- what the answers say ----------

  /** The result of an execution, of a full queue and of an acceptance that could not be written. */
  lemma Verdicts(a: Agent, step: Step)
    requires Enabled(a, step) && a.process.Some?
    ensures step.Finish? ==>
              var job := a.process.value.worker.job;
              Next(a, step).process.value.worker ==
                Finished(job, match step.outcome
                              case Succeeded(output) => Reply(CommandCompleted, job.id, output, "")
                              case Errored(error) => Reply(CommandFailed, job.id, "", error))
    ensures step.Reject? ==>
              var job := a.process.value.reader.job;
              Next(a, step).process.value.reader ==
                Answering(job.session, Reply(CommandFailed, job.id, "", "command queue is full for this binding"))
    ensures step.Begin? && step.beginWrite != Written && Grants(a, step) ==>
              var job := a.process.value.reader.job;
              Next(a, step).process.value.reader ==
                Answering(job.session, Reply(CommandFailed, job.id, "", "persist accepted command"))
              && Next(a, step).process.value.cache == a.process.value.cache
    ensures step.Record? ==>
              Next(a, step).process.value.worker ==
                Reporting(a.process.value.worker.job.session, a.process.value.worker.reply)
  {
    hide Snapshot;
    hide CommandCache.Complete;
  }

  /** The worker records what it has run, reports it, and is free for the next command, whatever becomes of
      the write and of the send. */
  lemma WorkerGoesOn(a: Agent, step: Step)
    requires Enabled(a, step) && a.process.Some?
    ensures step.Record? ==> Next(a, step).process.Some? && Next(a, step).process.value.worker.Reporting?
                             && Next(a, step).process.value.queue == a.process.value.queue
    ensures step.Report? ==> Next(a, step).process == Some(a.process.value.(worker := Idle))
    ensures step.Take? ==>
              var p := a.process.value;
              Next(a, step).process == Some(p.(worker := Executing(p.queue[0]), queue := p.queue[1..]))
  {
    hide Snapshot;
    hide CommandCache.Complete;
  }

  /** In every run the agent keeps at most 4096 results, and at most 66 commands are in flight. */
  lemma CacheIsBounded(binding: string, states: seq<W.World>, events: seq<W.Event>, i: nat)
    requires W.IsRun(binding, states, events) && i < |states| && states[i].agent.process.Some?
    ensures var c := states[i].agent.process.value.cache;
            c.limit == 4096 && |c.order| <= 4096 && |c.completed| <= 4096 && |c.pending| <= 66
  {
    W.RunStorage(binding, states, events, i);
    hide W.IsRun;
    DistinctSize(states[i].agent.process.value.cache.order);
  }

  /** A command that was accepted and not finished when the process died has failed in the next process. */
  lemma RestartFailsAccepted(a: Agent, id: Id)
    requires StorageOk(a) && Enabled(a, Restart(Written)) && id in a.past.saved.pending
    ensures var b := Next(a, Restart(Written));
            && b.process.Some? && b.process.value.queue == [] && b.process.value.worker.Idle?
            && b.process.value.reader.Offline?
            && id !in b.process.value.cache.pending
            && (id in b.process.value.cache.completed ==>
                  b.process.value.cache.completed[id] == Reply(CommandFailed, id, "",
                    "agent restarted before the command outcome was recorded; outcome unknown"))
  {
    RestartShape(a, Written, Reload(a.past.saved));
    ReloadHolds(a.past.saved, a.binding);
    hide Next;
    hide Reload;
  }

  ghost predicate StartsOrWaits(a: Agent, id: Id) {
    Started(a, id) || (a.process.Some? && WaitsToStart(a.process.value, id))
  }

  ghost predicate RefusesIn(w: W.World, e: W.Event, id: Id) {
    e.Agent? && Refuses(w.agent, e.step, id)
  }

  lemma StartEvent(w: W.World, e: W.Event, id: Id)
    requires StorageOk(w.agent) && OnceOk(w.agent) && W.Enabled(w, e) && StartsOrWaits(w.agent, id)
    ensures StartsOrWaits(W.Next(w, e).agent, id) || RefusesIn(w, e, id)
  {
    hide Next;
    hide Emits;
    hide W.PushAll;
    hide Started;
    hide WaitsToStart;
    hide Refuses;
    if e.Agent? {
      if Started(w.agent, id) {
        StartedStays(w.agent, e.step, id);
      } else {
        StartStep(w.agent, e.step, id);
      }
    }
  }

  lemma GrantWaits(w: W.World, e: W.Event, id: Id)
    requires W.Enabled(w, e) && W.GrantsId(w, e, id)
    ensures StartsOrWaits(W.Next(w, e).agent, id)
  {
  }

  lemma RunGrants(binding: string, states: seq<W.World>, events: seq<W.Event>, i: nat, id: Id)
    requires W.IsRun(binding, states, events) && i < |events| && W.GrantsId(states[i], events[i], id)
    ensures StartsOrWaits(states[i + 1].agent, id)
  {
    assert W.Enabled(states[i], events[i]) && states[i + 1] == W.Next(states[i], events[i]);
    hide *;
    GrantWaits(states[i], events[i], id);
  }

  lemma RunStarts(binding: string, states: seq<W.World>, events: seq<W.Event>, j: nat, id: Id)
    requires W.IsRun(binding, states, events) && j < |events| && StartsOrWaits(states[j].agent, id)
    ensures StartsOrWaits(states[j + 1].agent, id) || RefusesIn(states[j], events[j], id)
  {
    W.RunInv(binding, states, events, j);
    assert W.Enabled(states[j], events[j]) && states[j + 1] == W.Next(states[j], events[j]);
    assert StorageOk(states[j].agent) && OnceOk(states[j].agent);
    hide *;
    StartEvent(states[j], events[j], id);
  }

  /** Nothing accepted is forgotten: in every run, a command whose ownership was granted is started or still
      waits for the worker, unless the process died or 64 commands were waiting when it came. */
  lemma {:induction false} GrantedIsStarted(binding: string, states: seq<W.World>, events: seq<W.Event>, i: nat, j: nat,
                                            id: Id)
    requires W.IsRun(binding, states, events) && i < j <= |events| && W.GrantsId(states[i], events[i], id)
    requires forall k :: i < k < j ==> !RefusesIn(states[k], events[k], id)
    ensures StartsOrWaits(states[j].agent, id)
    decreases j
  {
    hide *;
    W.RunLength(binding, states, events);
    if j == i + 1 {
      RunGrants(binding, states, events, i, id);
    } else {
      GrantedIsStarted(binding, states, events, i, j - 1, id);
      RunStarts(binding, states, events, j - 1, id);
    }
  }
}
