/** When replies about a command always agree (CommandProtocol.RepliesAgree): the one lost write of its result
    is enough for two different terminal replies about it to be put on sockets, in a run of panel, sockets
    and agent. */
module WriteErrors {
  import opened Base
  import opened CommandCache
  import opened HostAgent
  import P = PanelCommands
  import W = CommandProtocol

  ghost predicate Moves(w: W.World, e: W.Event, v: W.World) {
    W.Enabled(w, e) && v == W.Next(w, e)
  }

  ghost predicate IsChain(states: seq<W.World>, events: seq<W.Event>) {
    && |states| == |events| + 1
    && forall i :: 0 <= i < |events| ==> Moves(states[i], events[i], states[i + 1])
  }

  lemma JoinChains(s: seq<W.World>, a: seq<W.Event>, t: seq<W.World>, b: seq<W.Event>)
    requires IsChain(s, a) && IsChain(t, b) && s[|a|] == t[0]
    ensures IsChain(s + t[1..], a + b)
    ensures (s + t[1..])[0] == s[0] && (s + t[1..])[|a| + |b|] == t[|b|]
  {
    hide Moves;
    var states, events := s + t[1..], a + b;
    forall i | 0 <= i < |events| ensures Moves(states[i], events[i], states[i + 1]) {
      if i < |a| {
        assert Moves(s[i], a[i], s[i + 1]);
      } else {
        assert Moves(t[i - |a|], b[i - |a|], t[i - |a| + 1]);
      }
    }
  }

  lemma ChainIsRun(binding: string, states: seq<W.World>, events: seq<W.Event>)
    requires IsChain(states, events) && states[0] == W.Start(binding)
    ensures W.IsRun(binding, states, events)
  {
    forall i | 0 <= i < |events|
      ensures W.Enabled(states[i], events[i]) && states[i + 1] == W.Next(states[i], events[i])
    {
      assert Moves(states[i], events[i], states[i + 1]);
    }
  }

  const OK := Send(true, true)

  function Reported(id: Id): Reply {
    ReplyFor(id, Succeeded("done"))
  }

  function Cache0(): Cache {
    Empty(MAX_CACHED_RESULTS)
  }

  /** The cache an agent restarts with that had accepted `id` and no more. */
  function CacheUnknown(id: Id): Cache {
    Cache0().(order := [id], completed := map[id := UnknownOutcome(id)])
  }

  function OneRow(id: Id, status: P.Status): seq<P.Row> {
    [P.Row(id, status, None, None)]
  }

  // ---------- the panel's part ----------

  lemma GreetsIdle(p: P.Panel, socket: nat)
    requires p.rows == []
    ensures P.Handle(p, socket, Hello, true, {}, OK) == P.Sent(P.Panel([], Some(socket), p.bound + {socket}), [])
  {
  }

  lemma SendsOnlyRow(p: P.Panel, socket: nat, id: Id)
    requires p == P.Panel(OneRow(id, P.Queued), Some(socket), p.bound)
    ensures P.Dispatch(p, {}, OK) == P.Sent(p.(rows := OneRow(id, P.Delivered)), [0])
  {
    assert P.ActiveCommand(p.rows) == None;
    assert P.FirstQueued(p.rows) == Some(0);
    assert p.rows[0 := P.MarkDelivered(p.rows[0])] == OneRow(id, P.Delivered);
  }

  lemma CreatesAndSends(p: P.Panel, socket: nat, id: Id)
    requires p == P.Panel([], Some(socket), p.bound)
    ensures P.Create(p, id, {}, OK) == P.Sent(p.(rows := OneRow(id, P.Delivered)), [0])
  {
    assert [] + OneRow(id, P.Queued) == OneRow(id, P.Queued);
    SendsOnlyRow(p.(rows := OneRow(id, P.Queued)), socket, id);
  }

  lemma RequeuesOnClose(p: P.Panel, socket: nat, id: Id)
    requires p == P.Panel(OneRow(id, P.Delivered), Some(socket), {socket})
    ensures P.Close(p, socket) == P.Panel(OneRow(id, P.Queued), None, {})
  {
    assert P.Requeue(p.rows) == OneRow(id, P.Queued);
  }

  lemma GreetsAndResends(p: P.Panel, socket: nat, id: Id)
    requires p.rows == OneRow(id, P.Queued)
    ensures P.Handle(p, socket, Hello, true, {}, OK) ==
            P.Sent(P.Panel(OneRow(id, P.Delivered), Some(socket), p.bound + {socket}), [0])
  {
    SendsOnlyRow(p.(active := Some(socket), bound := p.bound + {socket}), socket, id);
  }

  // ---------- the agent's part ----------

  /** What an agent knows that has one process and a file. */
  ghost predicate AgentIs(a: Agent, p: Process, disk: seq<Entry>, seen: set<Id>, last: Option<Id>,
                          replies: set<Reply>) {
    && a.process == Some(p) && a.disk == Some(disk)
    && a.past.seen == seen && a.past.last == last && a.past.replies == replies
  }

  lemma SnapshotOfOne(id: Id)
    ensures Snapshot(Cache0()) == [] && Snapshot(WithPending(Cache0(), id)) == [AcceptedEntry(id)]
  {
    assert Elements(SortedIds({})) == {};
    assert forall x <- SortedIds({}) :: x in Elements(SortedIds({}));
    var s := SortedIds({id});
    assert Elements(s) == {id};
    DistinctSize(s);
    assert s[0] in Elements(s);
  }

  /** The first process starts on no file. */
  lemma FirstProcess(binding: string)
    ensures var a := FirstBoot(binding);
            && Enabled(a, Restart(Written))
            && AgentIs(Next(a, Restart(Written)), Process(Cache0(), [], Idle, Offline, []), [], {}, None, {})
            && Next(a, Restart(Written)).binding == binding && Next(a, Restart(Written)).past.log == []
  {
    SnapshotOfOne("");
    assert Load(MAX_CACHED_RESULTS, binding, FileFor(binding, None)) == Ok(Cache0());
  }

  /** A file with one accepted entry is loaded as one failure of unknown outcome. */
  lemma LoadsUnknown(binding: string, id: Id)
    requires id != ""
    ensures Load(MAX_CACHED_RESULTS, binding, StateFile(STATE_VERSION, binding, [AcceptedEntry(id)]))
            == Ok(CacheUnknown(id))
  {
    assert Cache0().order + [id] == [id];
    assert [AcceptedEntry(id)][1..] == [];
    assert Absorb(CacheUnknown(id), []) == Ok(CacheUnknown(id));
  }

  /** A later process starts on a file that holds one accepted entry. */
  lemma NextProcess(a: Agent, id: Id)
    requires id != "" && a.process.None? && a.disk == Some([AcceptedEntry(id)])
    ensures var b := Next(a, Restart(Written));
            && b.process == Some(Process(CacheUnknown(id), [], Idle, Offline, [])) && b.disk.Some?
            && b.past.seen == a.past.seen && b.past.last == a.past.last && b.past.replies == a.past.replies
  {
    LoadsUnknown(a.binding, id);
    assert FileFor(a.binding, a.disk) == StateFile(STATE_VERSION, a.binding, [AcceptedEntry(id)]);
    hide Load;
    hide Snapshot;
  }

  // ---------- the run, event by event ----------

  ghost predicate Outside(w: W.World, panel: P.Panel, sessions: nat, down: map<nat, seq<nat>>,
                          up: map<nat, seq<UpMessage>>) {
    w.panel == panel && w.sessions == sessions && w.down == down && w.up == up
  }

  lemma Boots(binding: string) returns (v: W.World)
    ensures Moves(W.Start(binding), W.Agent(Restart(Written)), v)
    ensures Outside(v, P.Panel([], None, {}), 0, map[], map[])
    ensures AgentIs(v.agent, Process(Cache0(), [], Idle, Offline, []), [], {}, None, {})
    ensures v.agent.binding == binding && v.agent.past.log == []
  {
    FirstProcess(binding);
    hide Next;
    v := W.Next(W.Start(binding), W.Agent(Restart(Written)));
  }

  lemma Connects(w: W.World, p: Process) returns (v: W.World)
    requires w.agent.process == Some(p) && p.reader == Offline
    ensures Moves(w, W.Agent(Connect(w.sessions)), v)
    ensures Outside(v, w.panel, w.sessions + 1, w.down[w.sessions := []], w.up[w.sessions := [Hello]])
    ensures v.agent == w.agent.(process := Some(p.(reader := Reading(w.sessions)))) && v.attempts == w.attempts
  {
    PushOne(w.up[w.sessions := []], w.sessions, Hello);
    assert [] + [Hello] == [Hello];
    assert w.up[w.sessions := []][w.sessions := [Hello]] == w.up[w.sessions := [Hello]];
    v := W.Next(w, W.Agent(Connect(w.sessions)));
  }

  lemma Greets(w: W.World, s: nat) returns (v: W.World)
    requires s in w.up && w.up[s] == [Hello] && s in w.down && w.panel.rows == []
    ensures Moves(w, W.Handle(s, true, {}, OK), v) && v.agent == w.agent
    ensures Outside(v, P.Panel([], Some(s), w.panel.bound + {s}), w.sessions, w.down, w.up[s := []])
  {
    GreetsIdle(w.panel, s);
    hide P.Handle;
    v := W.Next(w, W.Handle(s, true, {}, OK));
    assert w.up[s][1..] == [] && w.down[s] + [] == w.down[s];
    assert v.up == w.up[s := []] && v.down == w.down;
  }

  lemma Creates(w: W.World, s: nat, id: Id) returns (v: W.World)
    requires id != "" && w.panel == P.Panel([], Some(s), w.panel.bound) && s in w.down && w.down[s] == []
    ensures Moves(w, W.Create(id, {}, OK), v) && v.agent == w.agent && v.attempts == w.attempts + [0]
    ensures Outside(v, w.panel.(rows := OneRow(id, P.Delivered)), w.sessions, w.down[s := [0]], w.up)
  {
    CreatesAndSends(w.panel, s, id);
    hide P.Create;
    v := W.Next(w, W.Create(id, {}, OK));
    assert [] + [0] == [0];
  }

  lemma PushOne(up: map<nat, seq<UpMessage>>, s: nat, m: UpMessage)
    requires s in up
    ensures W.PushAll(up, [(s, m)]) == up[s := up[s] + [m]]
  {
    var out := [(s, m)];
    assert out[1..] == [] && out[0] == (s, m);
    assert W.PushAll(up, out) == W.PushAll(up[s := up[s] + [m]], []);
  }

  lemma Receives(w: W.World, s: nat, id: Id, p: Process) returns (v: W.World)
    requires id != "" && w.agent.process == Some(p) && p.reader == Reading(s)
    requires s in w.down && w.down[s] == [0] && s in w.up && w.panel.rows != [] && w.panel.rows[0].id == id
    ensures Moves(w, W.Agent(Receive(id, OK)), v) && v.attempts == w.attempts
    ensures Outside(v, w.panel, w.sessions, w.down[s := []], w.up[s := w.up[s] + [Acknowledge(id)]])
    ensures v.agent == w.agent.(process := Some(p.(reader := Acknowledged(Job(s, id)))),
                                past := w.agent.past.(seen := w.agent.past.seen + {id}, last := Some(id)))
  {
    assert [0][1..] == [];
    PushOne(w.up, s, Acknowledge(id));
    hide W.PushAll;
    v := W.Next(w, W.Agent(Receive(id, OK)));
  }

  /** A step that puts nothing on a socket. */
  lemma Silently(w: W.World, step: Step) returns (v: W.World)
    requires Enabled(w.agent, step) && !step.Connect? && !step.Receive? && Emits(w.agent, step) == []
    ensures Moves(w, W.Agent(step), v) && v.agent == Next(w.agent, step) && v.attempts == w.attempts
    ensures Outside(v, w.panel, w.sessions, w.down, w.up)
  {
    hide Next;
    v := W.Next(w, W.Agent(step));
  }

  /** A step that puts one message on a socket. */
  lemma Saying(w: W.World, step: Step, s: nat, m: UpMessage) returns (v: W.World)
    requires Enabled(w.agent, step) && !step.Connect? && !step.Receive? && Emits(w.agent, step) == [(s, m)] && s in w.up
    ensures Moves(w, W.Agent(step), v) && v.agent == Next(w.agent, step)
    ensures Outside(v, w.panel, w.sessions, w.down, w.up[s := w.up[s] + [m]])
  {
    PushOne(w.up, s, m);
    hide Next;
    hide Emits;
    hide W.PushAll;
    v := W.Next(w, W.Agent(step));
  }

  /** The active socket closes; the row goes back to the queue. */
  lemma Closes(w: W.World, s: nat, id: Id) returns (v: W.World)
    requires w.panel == P.Panel(OneRow(id, P.Delivered), Some(s), {s})
    ensures Moves(w, W.Close(s), v) && v.agent == w.agent && v.attempts == w.attempts
    ensures Outside(v, P.Panel(OneRow(id, P.Queued), None, {}), w.sessions, w.down, w.up)
  {
    RequeuesOnClose(w.panel, s, id);
    hide P.Close;
    v := W.Next(w, W.Close(s));
  }

  lemma GreetsAgain(w: W.World, s: nat, id: Id) returns (v: W.World)
    requires s in w.up && w.up[s] == [Hello] && s in w.down && w.down[s] == [] && w.panel.rows == OneRow(id, P.Queued)
    ensures Moves(w, W.Handle(s, true, {}, OK), v) && v.agent == w.agent
    ensures Outside(v, P.Panel(OneRow(id, P.Delivered), Some(s), w.panel.bound + {s}), w.sessions, w.down[s := [0]],
                    w.up[s := []])
  {
    GreetsAndResends(w.panel, s, id);
    hide P.Handle;
    v := W.Next(w, W.Handle(s, true, {}, OK));
    assert w.up[s][1..] == [] && w.down[s] + [0] == [0];
    assert v.up == w.up[s := []] && v.down == w.down[s := [0]];
  }

  // ---------- the run, stretch by stretch ----------

  function Sending(id: Id): seq<W.Event> {
    [W.Agent(Restart(Written)), W.Agent(Connect(0)), W.Handle(0, true, {}, OK), W.Create(id, {}, OK),
     W.Agent(Receive(id, OK))]
  }

  /** Boot, connect and greet; a command is created, sent and read. */
  lemma SendCommand(binding: string, id: Id) returns (states: seq<W.World>)
    requires id != ""
    ensures IsChain(states, Sending(id)) && states[0] == W.Start(binding)
    ensures var w := states[5];
            && Outside(w, P.Panel(OneRow(id, P.Delivered), Some(0), {0}), 1, map[0 := []], map[0 := [Acknowledge(id)]])
            && AgentIs(w.agent, Process(Cache0(), [], Idle, Acknowledged(Job(0, id)), []), [], {id}, Some(id), {})
            && w.agent.past.log == [] && 0 in w.attempts
  {
    hide Moves;
    var w1 := Boots(binding);
    var w2 := Connects(w1, w1.agent.process.value);
    var w3 := Greets(w2, 0);
    var w4 := Creates(w3, 0, id);
    var w5 := Receives(w4, 0, id, w4.agent.process.value);
    assert [] + [Acknowledge(id)] == [Acknowledge(id)] && w5.up == map[0 := [Acknowledge(id)]];
    states := [W.Start(binding), w1, w2, w3, w4, w5];
  }

  const EXECUTING := [W.Agent(Begin(Written)), W.Agent(Enqueue), W.Agent(Take), W.Agent(Finish(Succeeded("done")))]

  lemma Accepts(w: W.World, id: Id) returns (v: W.World)
    requires id != "" && w.agent.past.log == []
    requires AgentIs(w.agent, Process(Cache0(), [], Idle, Acknowledged(Job(0, id)), []), [], {id}, Some(id), {})
    ensures Moves(w, W.Agent(Begin(Written)), v) && Outside(v, w.panel, w.sessions, w.down, w.up)
    ensures v.agent.process == Some(Process(WithPending(Cache0(), id), [], Idle, Granted(Job(0, id)), []))
    ensures v.agent.disk == Some([AcceptedEntry(id)]) && v.agent.past.log == []
    ensures v.agent.past.seen == {id} && v.agent.past.last == Some(id) && v.agent.past.replies == {}
    ensures v.attempts == w.attempts
  {
    SnapshotOfOne(id);
    hide Moves;
    hide Snapshot;
    v := Silently(w, Begin(Written));
  }

  /** Accept, queue and execute it with success. */
  lemma Execute(w: W.World, id: Id) returns (states: seq<W.World>)
    requires id != "" && w.agent.past.log == []
    requires AgentIs(w.agent, Process(Cache0(), [], Idle, Acknowledged(Job(0, id)), []), [], {id}, Some(id), {})
    ensures IsChain(states, EXECUTING) && states[0] == w
    ensures Outside(states[4], w.panel, w.sessions, w.down, w.up)
    ensures AgentIs(states[4].agent, Process(WithPending(Cache0(), id), [], Finished(Job(0, id), Reported(id)),
                                             Reading(0), []),
                    [AcceptedEntry(id)], {id}, Some(id), {})
    ensures states[4].agent.past.log == [Execution(id, Some(Succeeded("done")))] && states[4].attempts == w.attempts
  {
    hide Moves;
    hide Snapshot;
    var w1 := Accepts(w, id);
    var w2 := Silently(w1, Enqueue);
    assert w2.agent.process.value.queue == [Job(0, id)] && [Job(0, id)][1..] == [];
    var w3 := Silently(w2, Take);
    var w4 := Silently(w3, Finish(Succeeded("done")));
    states := [w, w1, w2, w3, w4];
  }

  const REPORTING := [W.Agent(Record(FailedBeforeRename)), W.Agent(Report(OK))]

  /** Lose the write of the result and report it all the same. */
  lemma ReportUnwritten(w: W.World, id: Id, p: Process) returns (states: seq<W.World>)
    requires AgentIs(w.agent, p, [AcceptedEntry(id)], {id}, Some(id), {})
    requires p.worker == Finished(Job(0, id), Reported(id)) && 0 in w.up
    ensures IsChain(states, REPORTING) && states[0] == w
    ensures Outside(states[2], w.panel, w.sessions, w.down, w.up[0 := w.up[0] + [Conclude(Reported(id))]])
    ensures states[2].agent.process.Some?
    ensures AgentIs(states[2].agent, states[2].agent.process.value, [AcceptedEntry(id)], {id}, Some(id), {Reported(id)})
  {
    hide Moves;
    hide Complete;
    hide Snapshot;
    var w1 := Silently(w, Record(FailedBeforeRename));
    var w2 := Saying(w1, Report(OK), 0, Conclude(Reported(id)));
    states := [w, w1, w2];
  }

  const RESENDING := [W.Agent(Crash(NoWrite)), W.Close(0), W.Agent(Restart(Written)), W.Agent(Connect(1)),
                      W.Handle(1, true, {}, OK)]

  /** The process dies, the closed socket requeues the row, and a new process loads the file. */
  lemma Crashes(w: W.World, id: Id) returns (w1: W.World, w2: W.World, w3: W.World)
    requires id != "" && w.agent.process.Some? && w.panel == P.Panel(OneRow(id, P.Delivered), Some(0), {0})
    requires AgentIs(w.agent, w.agent.process.value, [AcceptedEntry(id)], {id}, Some(id), {Reported(id)})
    ensures Moves(w, W.Agent(Crash(NoWrite)), w1) && Moves(w1, W.Close(0), w2)
            && Moves(w2, W.Agent(Restart(Written)), w3)
    ensures Outside(w3, P.Panel(OneRow(id, P.Queued), None, {}), w.sessions, w.down, w.up)
    ensures w3.agent.process == Some(Process(CacheUnknown(id), [], Idle, Offline, []))
    ensures w3.agent.past.replies == {Reported(id)} && w3.agent.past.seen == {id}
  {
    hide Moves;
    w1 := Silently(w, Crash(NoWrite));
    w2 := Closes(w1, 0, id);
    NextProcess(w2.agent, id);
    hide Next;
    w3 := Silently(w2, Restart(Written));
  }

  /** Crash; the closed socket requeues the row; the next process connects and gets the command again. */
  lemma Resend(w: W.World, id: Id, up: seq<UpMessage>) returns (states: seq<W.World>)
    requires id != "" && w.agent.process.Some?
    requires AgentIs(w.agent, w.agent.process.value, [AcceptedEntry(id)], {id}, Some(id), {Reported(id)})
    requires Outside(w, P.Panel(OneRow(id, P.Delivered), Some(0), {0}), 1, map[0 := []], map[0 := up])
    ensures IsChain(states, RESENDING) && states[0] == w
    ensures Outside(states[5], P.Panel(OneRow(id, P.Delivered), Some(1), {1}), 2, map[0 := [], 1 := [0]],
                    map[0 := up, 1 := []])
    ensures states[5].agent.process == Some(Process(CacheUnknown(id), [], Idle, Reading(1), []))
    ensures states[5].agent.past.replies == {Reported(id)} && states[5].agent.past.seen == {id}
  {
    hide Moves;
    hide Next;
    var w1, w2, w3 := Crashes(w, id);
    hide AgentIs;
    var w4 := Connects(w3, w3.agent.process.value);
    var w5 := GreetsAgain(w4, 1, id);
    assert w5.down == map[0 := [], 1 := [0]] && w5.up == map[0 := up, 1 := []];
    states := [w, w1, w2, w3, w4, w5];
  }

  function AskingAgain(id: Id): seq<W.Event> {
    [W.Agent(Receive(id, OK)), W.Agent(Begin(Written)), W.Agent(Answer(OK))]
  }

  /** Answer the same command once more, from the reloaded cache. */
  lemma AskAgain(w: W.World, id: Id) returns (states: seq<W.World>)
    requires id != "" && w.agent.process == Some(Process(CacheUnknown(id), [], Idle, Reading(1), []))
    requires w.agent.past.replies == {Reported(id)} && w.panel.rows == OneRow(id, P.Delivered)
    requires 1 in w.down && w.down[1] == [0] && 1 in w.up && w.up[1] == []
    ensures IsChain(states, AskingAgain(id)) && states[0] == w
    ensures Outside(states[3], w.panel, w.sessions, w.down[1 := []],
                    w.up[1 := [Acknowledge(id), Conclude(UnknownOutcome(id))]])
    ensures states[3].agent.past.replies == {Reported(id), UnknownOutcome(id)}
  {
    hide Moves;
    hide Snapshot;
    var w1 := Receives(w, 1, id, w.agent.process.value);
    var w2 := Silently(w1, Begin(Written));
    assert w2.agent.process.value.reader == Answering(1, UnknownOutcome(id));
    var w3 := Saying(w2, Answer(OK), 1, Conclude(UnknownOutcome(id)));
    assert [] + [Acknowledge(id)] + [Conclude(UnknownOutcome(id))] == [Acknowledge(id), Conclude(UnknownOutcome(id))];
    states := [w, w1, w2, w3];
  }

  /** An event that cannot be a failed write. */
  ghost predicate Faultless(e: W.Event) {
    e.Agent? ==> !e.step.Reject? && !e.step.Record? && (e.step.Begin? ==> e.step.beginWrite == Written)
  }

  lemma OneLostWrite(events: seq<W.Event>, id: Id, j: nat)
    requires events == Sending(id) + EXECUTING + REPORTING + RESENDING + AskingAgain(id)
    requires j < |events| && j != |Sending(id) + EXECUTING|
    ensures Faultless(events[j])
  {
    assert events == Sending(id) + EXECUTING + [REPORTING[0]] + ([REPORTING[1]] + RESENDING + AskingAgain(id));
    assert forall e <- Sending(id) + EXECUTING :: Faultless(e);
    assert forall e <- [REPORTING[1]] + RESENDING + AskingAgain(id) :: Faultless(e);
  }

  /** A run with one lost write in which "completed" is put on one socket and, after a crash, "outcome
      unknown" about the same command on the next one, whatever the command's id. */
  lemma LostWriteBreaksAgreement(binding: string, id: Id) returns (states: seq<W.World>, events: seq<W.Event>)
    requires id != ""
    ensures W.IsRun(binding, states, events)
    ensures var w := states[|events|];
            && 0 in w.up && Conclude(Reported(id)) in w.up[0] && 1 in w.up && Conclude(UnknownOutcome(id)) in w.up[1]
            && w.agent.past.replies == {Reported(id), UnknownOutcome(id)}
    ensures Reported(id).kind == CommandCompleted && UnknownOutcome(id).kind == CommandFailed
    ensures OnlyFaults(states, events, |events|, {id})
  {
    var s1 := SendCommand(binding, id);
    var s2 := Execute(s1[5], id);
    var s3 := ReportUnwritten(s2[4], id, s2[4].agent.process.value);
    assert s3[2].up == map[0 := [Acknowledge(id)] + [Conclude(Reported(id))]];
    var s4 := Resend(s3[2], id, [Acknowledge(id)] + [Conclude(Reported(id))]);
    var s5 := AskAgain(s4[5], id);
    JoinChains(s1, Sending(id), s2, EXECUTING);
    JoinChains(s1 + s2[1..], Sending(id) + EXECUTING, s3, REPORTING);
    JoinChains(s1 + s2[1..] + s3[1..], Sending(id) + EXECUTING + REPORTING, s4, RESENDING);
    JoinChains(s1 + s2[1..] + s3[1..] + s4[1..], Sending(id) + EXECUTING + REPORTING + RESENDING, s5, AskingAgain(id));
    states := s1 + s2[1..] + s3[1..] + s4[1..] + s5[1..];
    events := Sending(id) + EXECUTING + REPORTING + RESENDING + AskingAgain(id);
    ChainIsRun(binding, states, events);
    var end := states[|events|];
    assert end == s5[3] && end.up[0] == [Acknowledge(id)] + [Conclude(Reported(id))];
    assert end.up[0][1] == Conclude(Reported(id)) && end.up[1][1] == Conclude(UnknownOutcome(id));
    var lost := |Sending(id) + EXECUTING|;
    assert states[lost] == s3[0];
    forall j, x | 0 <= j < |events| && W.Faults(states[j], events[j], x) ensures x == id {
      if j != lost {
        OneLostWrite(events, id, j);
      }
    }
  }

  /** Before point `i` of the run, only writes about these commands failed. */
  ghost predicate OnlyFaults(states: seq<W.World>, events: seq<W.Event>, i: nat, ids: set<Id>)
    requires i <= |events| && i < |states|
  {
    forall j, x :: 0 <= j < i && W.Faults(states[j], events[j], x) ==> x in ids
  }

  ghost predicate AlwaysAgree(binding: string, id: Id, faulty: set<Id>) {
    forall states: seq<W.World>, events: seq<W.Event>, i: nat, r1: Reply, r2: Reply ::
      (W.IsRun(binding, states, events) && i < |states| && OnlyFaults(states, events, i, faulty)
       && r1 in states[i].agent.past.replies && r2 in states[i].agent.past.replies
       && r1.commandId == id && r2.commandId == id)
      ==> r1 == r2
  }

  /** Exactly when replies about a command always agree: when writes about other commands may fail in any
      way, and no write about this one. */
  lemma AgreementExactlyWhen(binding: string, id: Id, faulty: set<Id>)
    requires id != ""
    ensures AlwaysAgree(binding, id, faulty) <==> id !in faulty
  {
    if id in faulty {
      var states, events := LostWriteBreaksAgreement(binding, id);
      assert Reported(id) != UnknownOutcome(id);
      assert OnlyFaults(states, events, |events|, {id} + faulty);
      assert {id} + faulty == faulty;
      assert Reported(id) in states[|events|].agent.past.replies;
      assert !AlwaysAgree(binding, id, faulty);
    } else {
      forall states: seq<W.World>, events: seq<W.Event>, i: nat, r1: Reply, r2: Reply
        | W.IsRun(binding, states, events) && i < |states| && OnlyFaults(states, events, i, faulty)
          && r1 in states[i].agent.past.replies && r2 in states[i].agent.past.replies
          && r1.commandId == id && r2.commandId == id
        ensures r1 == r2
      {
        W.RepliesAgree(binding, states, events, i, r1, r2);
      }
    }
  }
}
