/** Panel, host agent and the sockets between them, for one binding: the run theorems.

    Sockets are FIFO in each direction, may lose everything after any point, and any number of old
    ones may linger. The panel, the agent and the connection fail independently at any step. */
module CommandProtocol {
  import opened Base
  import CommandCache
  import A = HostAgent
  import Safety = HostAgentSafety
  import P = PanelCommands

  type Id = CommandCache.Id

  /** `down` holds row numbers: the command envelope of a row carries its id and creation time.
      `Reboot` is a new panel process after a death between two calls, `DieCreating` and `DieHandling` one
      after a death inside a call, with so many overdue rows expired.
      attempts: rows the panel tried to send, in order; read: one more than the last row the agent
      read. Both are history. */
  datatype World = World(
    panel: P.Panel, agent: A.Agent, sessions: nat,
    down: map<nat, seq<nat>>, up: map<nat, seq<A.UpMessage>>,
    attempts: seq<nat>, read: nat)

  datatype Event =
    | Create(id: Id, expired: set<nat>, send: A.Send)
    | Handle(socket: nat, greeted: bool, handleExpired: set<nat>, handleSend: A.Send)
    | Close(closed: nat)
    | Reboot
    | DieCreating(dyingId: Id, createOverdue: set<nat>, createDone: nat)
    | DieHandling(dyingSocket: nat, handleOverdue: set<nat>, handleDone: nat)
    | Agent(step: A.Step)

  function Start(binding: string): World {
    World(P.Panel([], None, {}), A.FirstBoot(binding), 0, map[], map[], [], 0)
  }

  ghost function SessionOf(a: A.Agent): Option<nat> {
    if a.process.None? then None else A.CurrentSession(a.process.value.reader)
  }

  ghost function Current(w: World): Option<nat> {
    SessionOf(w.agent)
  }

  ghost predicate Enabled(w: World, e: Event) {
    match e
    // crypto.randomUUID: not empty and not used before
    case Create(id, _, _) => id != "" && forall row <- w.panel.rows :: row.id != id
    case Handle(s, _, _, _) => s in w.up && w.up[s] != []
    case Close(_) => true
    case Reboot => true
    case DieCreating(id, _, _) => id != "" && forall row <- w.panel.rows :: row.id != id
    case DieHandling(s, _, _) => s in w.up && w.up[s] != []
    case Agent(step) =>
      && A.Enabled(w.agent, step)
      && (step.Connect? ==> step.session == w.sessions)
      && (step.Receive? ==>
            && Current(w).Some? && Current(w).value in w.down && w.down[Current(w).value] != []
            && w.down[Current(w).value][0] < |w.panel.rows|
            && step.id == w.panel.rows[w.down[Current(w).value][0]].id)
  }

  /** Frames that left go to the end of the socket's queue. */
  function Deliver(down: map<nat, seq<nat>>, target: Option<nat>, attempts: seq<nat>, send: A.Send)
      : map<nat, seq<nat>> {
    if target.Some? && send.wire && target.value in down then down[target.value := down[target.value] + attempts]
    else down
  }

  function PushAll(up: map<nat, seq<A.UpMessage>>, out: seq<(nat, A.UpMessage)>): map<nat, seq<A.UpMessage>> {
    if out == [] then up
    else if out[0].0 in up then PushAll(up[out[0].0 := up[out[0].0] + [out[0].1]], out[1..])
    else PushAll(up, out[1..])
  }

  ghost function Next(w: World, e: Event): World
    requires Enabled(w, e)
  {
    match e
    case Create(id, expired, send) =>
      var r := P.Create(w.panel, id, expired, send);
      w.(panel := r.panel, down := Deliver(w.down, w.panel.active, r.attempts, send),
         attempts := w.attempts + r.attempts)
    case Handle(s, greeted, expired, send) =>
      var r := P.Handle(w.panel, s, w.up[s][0], greeted, expired, send);
      w.(panel := r.panel, up := w.up[s := w.up[s][1..]],
         down := Deliver(w.down, P.Target(w.panel, s, w.up[s][0]), r.attempts, send),
         attempts := w.attempts + r.attempts)
    case Close(s) => w.(panel := P.Close(w.panel, s))
    case Reboot => w.(panel := P.Reboot(w.panel))
    case DieCreating(id, overdue, n) => w.(panel := P.Reboot(P.CreateCut(w.panel, id, overdue, n)))
    case DieHandling(s, overdue, n) =>
      w.(panel := P.Reboot(P.HandleCut(w.panel, s, w.up[s][0], overdue, n)), up := w.up[s := w.up[s][1..]])
    case Agent(step) => AgentMoves(w, step)
  }

  ghost function AgentMoves(w: World, step: A.Step): World
    requires Enabled(w, Agent(step))
  {
    var out := A.Emits(w.agent, step);
    var v := w.(agent := A.Next(w.agent, step));
    if step.Connect? then
      v.(sessions := w.sessions + 1, down := w.down[w.sessions := []], up := PushAll(w.up[w.sessions := []], out))
    else if step.Receive? then
      var s := Current(w).value;
      v.(down := w.down[s := w.down[s][1..]], up := PushAll(w.up, out), read := w.down[s][0] + 1)
    else
      v.(up := PushAll(w.up, out))
  }

  // ---------- the invariant ----------

  ghost predicate IdsOk(rows: seq<P.Row>) {
    && (forall row <- rows :: row.id != "")
    && forall i, j :: 0 <= i < j < |rows| ==> rows[i].id != rows[j].id
  }

  predicate NonDecreasing(s: seq<nat>) {
    forall i, j :: 0 <= i < j < |s| ==> s[i] <= s[j]
  }

  ghost predicate PanelOk(w: World) {
    && IdsOk(w.panel.rows)
    && P.QueueOk(w.panel.rows, P.High(w.attempts))
    && NonDecreasing(w.attempts)
    && w.read <= P.High(w.attempts)
  }

  ghost predicate SocketsOk(w: World) {
    && (forall s: nat :: s in w.down <==> s < w.sessions)
    && (forall s: nat :: s in w.up <==> s < w.sessions)
    && (w.panel.active.Some? ==> w.panel.active.value < w.sessions)
    && (Current(w).Some? ==> Current(w).value < w.sessions)
    && (forall s <- w.down :: forall n <- w.down[s] :: n < P.High(w.attempts))
  }

  /** What the agent can still read: in order, and nothing older than what it read last. */
  ghost predicate StreamOk(w: World) {
    Current(w).Some? && Current(w).value in w.down ==>
      && NonDecreasing(w.down[Current(w).value])
      && (forall n <- w.down[Current(w).value] :: w.read <= n + 1)
  }

  ghost predicate SeenOk(w: World) {
    && w.read <= |w.panel.rows|
    && (forall id <- w.agent.past.seen :: exists i :: 0 <= i < w.read && w.panel.rows[i].id == id)
    && w.agent.past.last == (if w.read == 0 then None else Some(w.panel.rows[w.read - 1].id))
  }

  ghost predicate MessageOk(w: World, m: A.UpMessage) {
    match m
    case Hello => true
    case Acknowledge(id) => id in w.agent.past.seen
    case Conclude(reply) => reply in w.agent.past.replies
  }

  ghost predicate UpOk(w: World) {
    forall s <- w.up :: forall m <- w.up[s] :: MessageOk(w, m)
  }

  ghost predicate SuccessOk(w: World) {
    forall row <- w.panel.rows :: row.status == P.Done ==>
      exists output ::
        && A.Execution(row.id, Some(A.Succeeded(output))) in w.agent.past.log
        && row.output == Some(Cut(output, P.MAX_OUTPUT))
  }

  ghost predicate Inv(w: World) {
    PanelOk(w) && SocketsOk(w) && StreamOk(w) && SeenOk(w) && UpOk(w) && SuccessOk(w) && Safety.Inv(w.agent)
  }

  lemma StartInv(binding: string)
    ensures Inv(Start(binding))
  {
    Safety.FirstBootInv(binding);
  }

  // ---------- panel events ----------

  lemma AttemptsGrow(attempts: seq<nat>, more: seq<nat>)
    requires NonDecreasing(attempts) && |more| <= 1 && forall n <- more :: P.High(attempts) - 1 <= n
    ensures NonDecreasing(attempts + more)
    ensures P.High(attempts + more) == P.Raise(P.High(attempts), more)
  {
    if more == [] {
      assert attempts + more == attempts;
    } else {
      assert more[0] in more;
      assert more == [more[0]];
    }
  }

  lemma DeliverKeeps(down: map<nat, seq<nat>>, target: Option<nat>, more: seq<nat>, send: A.Send, s: nat, low: int,
                     high: int)
    requires s in down && |more| <= 1 && NonDecreasing(down[s])
    requires forall n <- down[s] :: low <= n < high
    requires forall n <- more :: low <= n && high - 1 <= n
    ensures NonDecreasing(Deliver(down, target, more, send)[s])
    ensures forall n <- Deliver(down, target, more, send)[s] :: low <= n
  {
    if more != [] {
      assert more == [more[0]] && more[0] in more;
      var waiting := down[s];
      forall i | 0 <= i < |waiting| ensures low <= waiting[i] <= more[0] {
        assert waiting[i] in waiting;
      }
    }
  }

  /** What the panel's events leave alone, and how they extend the rest. */
  ghost predicate PanelMoves(w: World, v: World, more: seq<nat>, target: Option<nat>, send: A.Send) {
    && v.agent == w.agent && v.sessions == w.sessions && v.read == w.read
    && v.attempts == w.attempts + more && |more| <= 1
    && (forall n <- more :: P.High(w.attempts) - 1 <= n < |v.panel.rows|)
    && (more != [] ==> target.Some?)
    && v.down == Deliver(w.down, target, more, send)
    && P.QueueOk(v.panel.rows, P.Raise(P.High(w.attempts), more))
    && P.RowsEvolve(w.panel.rows, v.panel.rows)
    && (v.panel.active.Some? ==> v.panel.active == w.panel.active || v.panel.active == target)
    && (target.Some? ==> target.value < w.sessions)
  }

  lemma PanelKeepsQueue(w: World, v: World, more: seq<nat>, target: Option<nat>, send: A.Send)
    requires PanelOk(w) && PanelMoves(w, v, more, target, send) && IdsOk(v.panel.rows)
    ensures PanelOk(v)
  {
    AttemptsGrow(w.attempts, more);
    assert P.High(w.attempts) <= P.Raise(P.High(w.attempts), more) by {
      if more != [] { assert more[0] in more; }
    }
  }

  lemma PanelKeepsSockets(w: World, v: World, more: seq<nat>, target: Option<nat>, send: A.Send)
    requires PanelOk(w) && SocketsOk(w) && PanelMoves(w, v, more, target, send)
    requires forall s: nat :: s in v.up <==> s in w.up
    ensures SocketsOk(v)
  {
    AttemptsGrow(w.attempts, more);
    assert P.High(w.attempts) <= P.High(v.attempts) by {
      if more != [] { assert more[0] in more; }
    }
    forall s | s in v.down ensures s in w.down && forall n <- v.down[s] :: n < P.High(v.attempts) {
      forall n <- v.down[s] ensures n < P.High(v.attempts) {
        if n in more {
          assert more == [n];
        } else {
          assert n in w.down[s];
        }
      }
      assert s in w.down;
    }
  }

  lemma PanelKeepsStream(w: World, v: World, more: seq<nat>, target: Option<nat>, send: A.Send)
    requires PanelOk(w) && SocketsOk(w) && StreamOk(w) && PanelMoves(w, v, more, target, send)
    ensures StreamOk(v)
  {
    if Current(w).Some? && Current(w).value in w.down {
      forall n <- more ensures w.read - 1 <= n {
      }
      DeliverKeeps(w.down, target, more, send, Current(w).value, w.read - 1, P.High(w.attempts));
    }
  }

  /** Rows evolving keeps what the agent remembers about them. */
  lemma RowsKeepSeen(w: World, v: World)
    requires SeenOk(w) && P.RowsEvolve(w.panel.rows, v.panel.rows) && v.agent == w.agent && v.read == w.read
    ensures SeenOk(v)
  {
    forall id <- v.agent.past.seen ensures exists i :: 0 <= i < v.read && v.panel.rows[i].id == id {
      var i :| 0 <= i < w.read && w.panel.rows[i].id == id;
      assert v.panel.rows[i].id == id;
    }
  }

  lemma RowsKeepSuccess(w: World, v: World)
    requires SuccessOk(w) && P.RowsEvolve(w.panel.rows, v.panel.rows) && P.NoNewSuccess(w.panel.rows, v.panel.rows)
    requires v.agent == w.agent
    ensures SuccessOk(v)
  {
    forall row <- v.panel.rows | row.status == P.Done ensures row in w.panel.rows {
      var i :| 0 <= i < |v.panel.rows| && v.panel.rows[i] == row;
      assert row == w.panel.rows[i];
    }
  }

  lemma IdsStay(before: seq<P.Row>, after: seq<P.Row>)
    requires IdsOk(before) && P.RowsEvolve(before, after) && |after| == |before|
    ensures IdsOk(after)
  {
    forall row <- after ensures row.id != "" {
      var i :| 0 <= i < |after| && after[i] == row;
      assert before[i] in before;
    }
  }

  /** Ids the agent has seen belong to rows that were sent. */
  lemma SeenWasSent(w: World, id: Id)
    requires PanelOk(w) && SeenOk(w) && id in w.agent.past.seen
    ensures P.Find(w.panel.rows, id).Some? && P.Find(w.panel.rows, id).value < w.read
  {
    var i :| 0 <= i < w.read && w.panel.rows[i].id == id;
    assert w.panel.rows[i] in w.panel.rows;
    var k := P.Find(w.panel.rows, id).value;
    assert i == k;
  }

  lemma MessageWasSent(w: World, s: nat)
    requires PanelOk(w) && SeenOk(w) && UpOk(w) && Safety.HonestOk(w.agent) && s in w.up && w.up[s] != []
    ensures P.AnswersSent(w.panel, w.up[s][0], P.High(w.attempts))
  {
    var m := w.up[s][0];
    assert m in w.up[s];
    assert MessageOk(w, m);
    match m {
      case Hello =>
      case Acknowledge(id) => SeenWasSent(w, id);
      case Conclude(reply) => SeenWasSent(w, reply.commandId);
    }
  }

  lemma UpStays(w: World, v: World)
    requires UpOk(w) && v.up == w.up && v.agent == w.agent
    ensures UpOk(v)
  {
    forall s <- v.up ensures forall m <- v.up[s] :: MessageOk(v, m) {
      forall m <- v.up[s] ensures MessageOk(v, m) {
        assert MessageOk(w, m);
      }
    }
  }

  lemma CreateMoves(w: World, e: Event)
    requires PanelOk(w) && SocketsOk(w) && Enabled(w, e) && e.Create?
    ensures PanelMoves(w, Next(w, e), P.Create(w.panel, e.id, e.expired, e.send).attempts, w.panel.active, e.send)
    ensures IdsOk(Next(w, e).panel.rows) && P.NoNewSuccess(w.panel.rows, Next(w, e).panel.rows)
  {
    var r := P.Create(w.panel, e.id, e.expired, e.send);
    P.CreateKeeps(w.panel, e.id, e.expired, e.send, P.High(w.attempts));
    P.DispatchSocket(w.panel.(rows := w.panel.rows + [P.Row(e.id, P.Queued, None, None)]), e.expired, e.send);
    CreateKeepsIds(w.panel.rows, r.panel.rows, e.id);
  }

  lemma CreateKeepsInv(w: World, e: Event)
    requires Inv(w) && Enabled(w, e) && e.Create?
    ensures Inv(Next(w, e))
  {
    var v, more := Next(w, e), P.Create(w.panel, e.id, e.expired, e.send).attempts;
    CreateMoves(w, e);
    PanelKeepsQueue(w, v, more, w.panel.active, e.send);
    PanelKeepsSockets(w, v, more, w.panel.active, e.send);
    PanelKeepsStream(w, v, more, w.panel.active, e.send);
    RowsKeepSeen(w, v);
    RowsKeepSuccess(w, v);
    UpStays(w, v);
  }

  lemma CreateKeepsIds(before: seq<P.Row>, after: seq<P.Row>, id: Id)
    requires IdsOk(before) && P.RowsEvolve(before, after) && |after| == |before| + 1 && after[|before|].id == id
    requires id != "" && forall row <- before :: row.id != id
    ensures IdsOk(after)
  {
    IdsStay(before, after[..|before|]);
    forall i | 0 <= i < |before| ensures after[i].id != id {
      assert before[i] in before;
    }
    assert forall row <- after :: row in after[..|before|] || row == after[|before|];
  }

  lemma HandleKeepsInv(w: World, e: Event)
    requires Inv(w) && Enabled(w, e) && e.Handle?
    ensures Inv(Next(w, e))
  {
    var v := Next(w, e);
    var m := w.up[e.socket][0];
    var high := P.High(w.attempts);
    var target := P.Target(w.panel, e.socket, m);
    MessageWasSent(w, e.socket);
    P.HandleKeeps(w.panel, e.socket, m, e.greeted, e.handleExpired, e.handleSend, high);
    P.HandleSocket(w.panel, e.socket, m, e.greeted, e.handleExpired, e.handleSend);
    var r := P.Handle(w.panel, e.socket, m, e.greeted, e.handleExpired, e.handleSend);
    IdsStay(w.panel.rows, v.panel.rows);
    assert PanelMoves(w, v, r.attempts, target, e.handleSend);
    PanelKeepsQueue(w, v, r.attempts, target, e.handleSend);
    PanelKeepsSockets(w, v, r.attempts, target, e.handleSend);
    PanelKeepsStream(w, v, r.attempts, target, e.handleSend);
    RowsKeepSeen(w, v);
    HandleKeepsUp(w, v, e.socket);
    HandleKeepsSuccess(w, e);
  }

  lemma HandleKeepsUp(w: World, v: World, s: nat)
    requires UpOk(w) && s in w.up && w.up[s] != [] && v.up == w.up[s := w.up[s][1..]] && v.agent == w.agent
    ensures UpOk(v)
  {
    forall t | t in v.up ensures forall m <- v.up[t] :: MessageOk(v, m) {
      forall m <- v.up[t] ensures MessageOk(v, m) {
        assert m in w.up[t];
        assert MessageOk(w, m);
      }
    }
  }

  /** A row only becomes successful on the reply of an execution that succeeded. */
  lemma HandleKeepsSuccess(w: World, e: Event)
    requires Inv(w) && Enabled(w, e) && e.Handle?
    ensures SuccessOk(Next(w, e))
  {
    hide P.QueueOk;
    hide P.Dispatch;
    hide P.Concluded;
    var v := Next(w, e);
    var m := w.up[e.socket][0];
    var high := P.High(w.attempts);
    MessageWasSent(w, e.socket);
    P.HandleKeeps(w.panel, e.socket, m, e.greeted, e.handleExpired, e.handleSend, high);
    if !m.Conclude? {
      RowsKeepSuccess(w, v);
      return;
    }
    assert m in w.up[e.socket] && MessageOk(w, m) && Safety.Honest(m.reply, w.agent.past.log);
    assert v.panel == P.Handle(w.panel, e.socket, m, e.greeted, e.handleExpired, e.handleSend).panel
           && v.agent == w.agent;
    assert PanelOk(w) && SuccessOk(w) && P.AnswersSent(w.panel, m, high);
    hide Inv;
    hide Next;
    P.SuccessComesFromReply(w.panel, e.socket, m.reply, e.greeted, e.handleExpired, e.handleSend, 0, high);
    ReplyKeepsSuccess(w, v, m.reply);
  }

  lemma ReplyKeepsSuccess(w: World, v: World, reply: CommandCache.Reply)
    requires SuccessOk(w) && v.agent == w.agent && Safety.Honest(reply, w.agent.past.log)
    requires P.OnlyReplySucceeds(w.panel.rows, v.panel.rows, reply)
    ensures SuccessOk(v)
  {
    forall row <- v.panel.rows | row.status == P.Done
      ensures exists output ::
        && A.Execution(row.id, Some(A.Succeeded(output))) in v.agent.past.log
        && row.output == Some(Cut(output, P.MAX_OUTPUT))
    {
      var i :| 0 <= i < |v.panel.rows| && v.panel.rows[i] == row;
      if row == w.panel.rows[i] {
        assert row in w.panel.rows;
      }
    }
  }

  // ---------- a panel that dies inside a call ----------

  lemma DieCreatingMoves(w: World, e: Event)
    requires PanelOk(w) && SocketsOk(w) && Enabled(w, e) && e.DieCreating?
    ensures PanelMoves(w, Next(w, e), [], None, A.Send(true, false))
    ensures IdsOk(Next(w, e).panel.rows) && P.NoNewSuccess(w.panel.rows, Next(w, e).panel.rows)
    ensures Next(w, e).up == w.up
  {
    P.CreateCutKeeps(w.panel, e.dyingId, e.createOverdue, e.createDone, P.High(w.attempts));
    assert w.attempts + [] == w.attempts;
    CreateKeepsIds(w.panel.rows, Next(w, e).panel.rows, e.dyingId);
  }

  lemma DieHandlingMoves(w: World, e: Event)
    requires PanelOk(w) && SocketsOk(w) && SeenOk(w) && UpOk(w) && Safety.HonestOk(w.agent)
    requires Enabled(w, e) && e.DieHandling?
    ensures PanelMoves(w, Next(w, e), [], None, A.Send(true, false)) && IdsOk(Next(w, e).panel.rows)
    ensures !w.up[e.dyingSocket][0].Conclude? ==> P.NoNewSuccess(w.panel.rows, Next(w, e).panel.rows)
    ensures Next(w, e).up == w.up[e.dyingSocket := w.up[e.dyingSocket][1..]]
  {
    var m := w.up[e.dyingSocket][0];
    MessageWasSent(w, e.dyingSocket);
    P.HandleCutKeeps(w.panel, e.dyingSocket, m, e.handleOverdue, e.handleDone, P.High(w.attempts));
    assert w.attempts + [] == w.attempts;
    IdsStay(w.panel.rows, Next(w, e).panel.rows);
  }

  lemma DieHandlingKeepsSuccess(w: World, e: Event)
    requires PanelOk(w) && SocketsOk(w) && SeenOk(w) && UpOk(w) && SuccessOk(w) && Safety.HonestOk(w.agent)
    requires Enabled(w, e) && e.DieHandling?
    ensures SuccessOk(Next(w, e))
  {
    var v := Next(w, e);
    var m := w.up[e.dyingSocket][0];
    DieHandlingMoves(w, e);
    MessageWasSent(w, e.dyingSocket);
    assert m in w.up[e.dyingSocket] && MessageOk(w, m);
    if m.Conclude? {
      assert Safety.Honest(m.reply, w.agent.past.log);
      assert v.panel == P.Reboot(P.HandleCut(w.panel, e.dyingSocket, m, e.handleOverdue, e.handleDone));
      assert v.agent == w.agent;
      hide Next;
      hide SocketsOk;
      hide SeenOk;
      hide UpOk;
      hide P.Handle;
      hide P.HandleCut;
      hide P.Reboot;
      P.SuccessComesFromReply(w.panel, e.dyingSocket, m.reply, false, e.handleOverdue, A.Send(true, true),
                              e.handleDone, P.High(w.attempts));
      ReplyKeepsSuccess(w, v, m.reply);
    } else {
      RowsKeepSuccess(w, v);
    }
  }

  lemma DyingKeepsInv(w: World, e: Event)
    requires Inv(w) && Enabled(w, e) && (e.DieCreating? || e.DieHandling?)
    ensures Inv(Next(w, e))
  {
    var v, send := Next(w, e), A.Send(true, false);
    if e.DieCreating? {
      DieCreatingMoves(w, e);
      RowsKeepSuccess(w, v);
      UpStays(w, v);
    } else {
      DieHandlingMoves(w, e);
      DieHandlingKeepsSuccess(w, e);
      HandleKeepsUp(w, v, e.dyingSocket);
    }
    hide Next;
    PanelKeepsQueue(w, v, [], None, send);
    PanelKeepsSockets(w, v, [], None, send);
    PanelKeepsStream(w, v, [], None, send);
    RowsKeepSeen(w, v);
  }

  lemma LosingSocketsMoves(w: World, e: Event)
    requires PanelOk(w) && Enabled(w, e) && (e.Close? || e.Reboot?)
    ensures PanelMoves(w, Next(w, e), [], None, A.Send(true, false))
    ensures IdsOk(Next(w, e).panel.rows) && P.NoNewSuccess(w.panel.rows, Next(w, e).panel.rows)
    ensures Next(w, e).up == w.up
  {
    if e.Close? {
      P.CloseKeeps(w.panel, e.closed, P.High(w.attempts));
    } else {
      P.RebootKeeps(w.panel, P.High(w.attempts));
    }
    assert w.attempts + [] == w.attempts;
    IdsStay(w.panel.rows, Next(w, e).panel.rows);
  }

  lemma LosingSocketsKeepsInv(w: World, e: Event)
    requires Inv(w) && Enabled(w, e) && (e.Close? || e.Reboot?)
    ensures Inv(Next(w, e))
  {
    var v := Next(w, e);
    LosingSocketsMoves(w, e);
    PanelKeepsQueue(w, v, [], None, A.Send(true, false));
    PanelKeepsSockets(w, v, [], None, A.Send(true, false));
    PanelKeepsStream(w, v, [], None, A.Send(true, false));
    RowsKeepSeen(w, v);
    RowsKeepSuccess(w, v);
    UpStays(w, v);
  }

  // ---------- agent events ----------

  /** The promise the agent relies on: what it reads next is the command it read last, or one it has
      never seen. */
  lemma PanelKeepsPromise(w: World, step: A.Step)
    requires PanelOk(w) && StreamOk(w) && SeenOk(w) && Enabled(w, Agent(step))
    ensures Safety.Promise(w.agent, step)
  {
    hide A.Next;
    hide P.QueueOk;
    if step.Receive? {
      var n := w.down[Current(w).value][0];
      assert n in w.down[Current(w).value];
      if step.id in w.agent.past.seen {
        SeenWasSent(w, step.id);
        var i := P.Find(w.panel.rows, step.id).value;
        assert i == n;
        assert n == w.read - 1;
      }
    }
  }

  /** Nothing the agent remembers of the past is forgotten. */
  lemma AgentRemembers(a: A.Agent, step: A.Step)
    requires A.Enabled(a, step) && Safety.OnceOk(a)
    ensures var b := A.Next(a, step);
            && a.past.seen <= b.past.seen && a.past.replies <= b.past.replies
            && forall x, o :: A.Execution(x, Some(o)) in a.past.log ==> A.Execution(x, Some(o)) in b.past.log
  {
    var b := A.Next(a, step);
    match step {
      case Take => assert forall e <- a.past.log :: e in b.past.log;
      case Finish(outcome) =>
        forall x, o | A.Execution(x, Some(o)) in a.past.log ensures A.Execution(x, Some(o)) in b.past.log {
          var i :| 0 <= i < |a.past.log| && a.past.log[i] == A.Execution(x, Some(o));
          assert b.past.log[i] == a.past.log[i];
        }
      case _ =>
    }
  }

  /** What the agent puts on a socket is about commands it has received, and is on record. */
  lemma EmissionsOk(w: World, step: A.Step)
    requires Safety.MemoryOk(w.agent) && Safety.HonestOk(w.agent) && Enabled(w, Agent(step))
    ensures forall out <- A.Emits(w.agent, step) :: MessageOk(Next(w, Agent(step)), out.1)
  {
  }

  lemma {:induction false} PushAllHolds(up: map<nat, seq<A.UpMessage>>, out: seq<(nat, A.UpMessage)>, s: nat,
                                        m: A.UpMessage)
    requires s in PushAll(up, out) && m in PushAll(up, out)[s]
    ensures s in up && (m in up[s] || exists o <- out :: o.1 == m)
    decreases |out|
  {
    if out != [] {
      if out[0].0 in up {
        PushAllHolds(up[out[0].0 := up[out[0].0] + [out[0].1]], out[1..], s, m);
      } else {
        PushAllHolds(up, out[1..], s, m);
      }
      assert out[0] in out;
    }
  }

  lemma {:induction false} PushAllKeys(up: map<nat, seq<A.UpMessage>>, out: seq<(nat, A.UpMessage)>)
    ensures PushAll(up, out).Keys == up.Keys
    decreases |out|
  {
    if out != [] {
      if out[0].0 in up {
        PushAllKeys(up[out[0].0 := up[out[0].0] + [out[0].1]], out[1..]);
      } else {
        PushAllKeys(up, out[1..]);
      }
    }
  }

  lemma UpAfter(w: World, step: A.Step, s: nat, m: A.UpMessage)
    requires Enabled(w, Agent(step)) && s in Next(w, Agent(step)).up && m in Next(w, Agent(step)).up[s]
    ensures (s in w.up && m in w.up[s]) || m == A.Hello || exists out <- A.Emits(w.agent, step) :: out.1 == m
    ensures Next(w, Agent(step)).agent == A.Next(w.agent, step)
  {
    hide A.Next;
    hide A.Emits;
    hide PushAll;
    if step.Connect? {
      PushAllHolds(w.up[w.sessions := []], A.Emits(w.agent, step), s, m);
    } else {
      PushAllHolds(w.up, A.Emits(w.agent, step), s, m);
    }
  }

  lemma AgentKeepsUp(w: World, step: A.Step)
    requires Safety.OnceOk(w.agent) && Safety.MemoryOk(w.agent) && Safety.HonestOk(w.agent)
    requires UpOk(w) && Enabled(w, Agent(step))
    ensures UpOk(Next(w, Agent(step)))
  {
    var v := Next(w, Agent(step));
    AgentRemembers(w.agent, step);
    EmissionsOk(w, step);
    hide Next;
    hide Enabled;
    hide A.Next;
    hide A.Emits;
    hide Safety.OnceOk;
    hide Safety.MemoryOk;
    hide Safety.HonestOk;
    forall s, m | s in v.up && m in v.up[s] ensures MessageOk(v, m) {
      UpAfter(w, step, s, m);
      if s in w.up && m in w.up[s] {
        assert MessageOk(w, m);
      }
    }
  }

  /** An agent only comes to be connected by connecting. */
  lemma SessionStays(a: A.Agent, step: A.Step)
    requires A.Enabled(a, step)
    ensures SessionOf(A.Next(a, step)).Some? ==>
              SessionOf(A.Next(a, step)) == if step.Connect? then Some(step.session) else SessionOf(a)
  {
  }

  lemma AgentKeepsSockets(w: World, step: A.Step)
    requires SocketsOk(w) && Enabled(w, Agent(step))
    ensures SocketsOk(Next(w, Agent(step)))
  {
    hide PushAll;
    hide A.Emits;
    hide A.Next;
    var v := Next(w, Agent(step));
    SessionStays(w.agent, step);
    PushAllKeys(w.up, A.Emits(w.agent, step));
    PushAllKeys(w.up[w.sessions := []], A.Emits(w.agent, step));
    forall s | s in v.down ensures forall n <- v.down[s] :: n < P.High(v.attempts) {
      forall n <- v.down[s] ensures n < P.High(v.attempts) {
        assert s in w.down && n in w.down[s];
      }
    }
  }

  lemma AgentKeepsStream(w: World, step: A.Step)
    requires SocketsOk(w) && StreamOk(w) && Enabled(w, Agent(step))
    ensures StreamOk(Next(w, Agent(step)))
  {
    hide PushAll;
    hide A.Emits;
    hide A.Next;
    SessionStays(w.agent, step);
    if step.Receive? {
      var s := Current(w).value;
      var rest := w.down[s][1..];
      forall i | 0 <= i < |rest| ensures w.down[s][0] <= rest[i] {
        assert rest[i] == w.down[s][i + 1];
      }
    }
  }

  /** The agent reads rows in the order the panel sent them. */
  lemma AgentKeepsSeen(w: World, step: A.Step)
    requires PanelOk(w) && SocketsOk(w) && StreamOk(w) && SeenOk(w) && Enabled(w, Agent(step))
    ensures SeenOk(Next(w, Agent(step))) && PanelOk(Next(w, Agent(step)))
    ensures w.read <= Next(w, Agent(step)).read
  {
    var v := Next(w, Agent(step));
    if step.Receive? {
      var n := w.down[Current(w).value][0];
      assert n in w.down[Current(w).value];
      assert w.panel.rows[n] in w.panel.rows;
      forall id <- v.agent.past.seen ensures exists i :: 0 <= i < v.read && v.panel.rows[i].id == id {
        if id in w.agent.past.seen {
          var i :| 0 <= i < w.read && w.panel.rows[i].id == id;
          assert v.panel.rows[i].id == id;
        } else {
          assert v.panel.rows[n].id == id;
        }
      }
    } else {
      AgentSeenStays(w.agent, step);
    }
  }

  lemma AgentSeenStays(a: A.Agent, step: A.Step)
    requires A.Enabled(a, step) && !step.Receive?
    ensures A.Next(a, step).past.seen == a.past.seen && A.Next(a, step).past.last == a.past.last
  {
  }

  lemma AgentKeepsSuccess(w: World, step: A.Step)
    requires SuccessOk(w) && Safety.OnceOk(w.agent) && Enabled(w, Agent(step))
    ensures SuccessOk(Next(w, Agent(step)))
  {
    AgentRemembers(w.agent, step);
  }

  lemma AgentKeepsInv(w: World, step: A.Step)
    requires Inv(w) && Enabled(w, Agent(step))
    ensures Inv(Next(w, Agent(step)))
  {
    PanelKeepsPromise(w, step);
    Safety.StepKeepsInv(w.agent, step);
    AgentKeepsSockets(w, step);
    AgentKeepsStream(w, step);
    AgentKeepsSeen(w, step);
    AgentKeepsUp(w, step);
    AgentKeepsSuccess(w, step);
  }

  // ---------- every run ----------

  lemma EventKeepsInv(w: World, e: Event)
    requires Inv(w) && Enabled(w, e)
    ensures Inv(Next(w, e))
  {
    match e {
      case Create(_, _, _) => CreateKeepsInv(w, e);
      case Handle(_, _, _, _) => HandleKeepsInv(w, e);
      case Close(_) => LosingSocketsKeepsInv(w, e);
      case Reboot => LosingSocketsKeepsInv(w, e);
      case DieCreating(_, _, _) => DyingKeepsInv(w, e);
      case DieHandling(_, _, _) => DyingKeepsInv(w, e);
      case Agent(step) => AgentKeepsInv(w, step);
    }
  }

  /** A run: any events, in any order, from the first boot of panel and agent. */
  ghost predicate IsRun(binding: string, states: seq<World>, events: seq<Event>) {
    && |states| == |events| + 1
    && states[0] == Start(binding)
    && forall i :: 0 <= i < |events| ==> Enabled(states[i], events[i]) && states[i + 1] == Next(states[i], events[i])
  }

  lemma {:induction false} RunInv(binding: string, states: seq<World>, events: seq<Event>, i: nat)
    requires IsRun(binding, states, events) && i < |states|
    ensures Inv(states[i])
  {
    if i == 0 {
      StartInv(binding);
    } else {
      RunInv(binding, states, events, i - 1);
      EventKeepsInv(states[i - 1], events[i - 1]);
    }
  }

  /** How often the side effect of a command was started. */
  ghost function Starts(log: seq<A.Execution>, id: Id): nat {
    |set i | 0 <= i < |log| && log[i].id == id|
  }

  lemma StartsAtMostOnce(log: seq<A.Execution>, id: Id)
    requires Distinct(Safety.LogIds(log))
    ensures Starts(log, id) <= 1
    ensures (exists e <- log :: e.id == id) ==> Starts(log, id) == 1
  {
    var at := set i | 0 <= i < |log| && log[i].id == id;
    var ids := Safety.LogIds(log);
    if i :| 0 <= i < |log| && log[i].id == id {
      forall j <- at ensures j == i {
        assert ids[i] == ids[j];
      }
      assert at == {i};
    } else {
      assert at == {};
    }
  }

  /** At most once, end to end: in every run each command's side effect starts at most once. */
  lemma AtMostOnce(binding: string, states: seq<World>, events: seq<Event>, i: nat, id: Id)
    requires IsRun(binding, states, events) && i < |states|
    ensures Starts(states[i].agent.past.log, id) <= 1
  {
    hide Next;
    hide Enabled;
    RunInv(binding, states, events, i);
    StartsAtMostOnce(states[i].agent.past.log, id);
  }

  /** Truthful success: a row the panel shows as succeeded was executed exactly once, that execution
      returned no error, and its output is the row's. */
  lemma TruthfulSuccess(binding: string, states: seq<World>, events: seq<Event>, i: nat, n: nat)
    requires IsRun(binding, states, events) && i < |states|
    requires n < |states[i].panel.rows| && states[i].panel.rows[n].status == P.Done
    ensures var row := states[i].panel.rows[n];
            && Starts(states[i].agent.past.log, row.id) == 1
            && exists output ::
                 && A.Execution(row.id, Some(A.Succeeded(output))) in states[i].agent.past.log
                 && row.output == Some(Cut(output, P.MAX_OUTPUT))
  {
    RunInv(binding, states, events, i);
    var row := states[i].panel.rows[n];
    assert row in states[i].panel.rows;
    StartsAtMostOnce(states[i].agent.past.log, row.id);
  }

  /** Dispatch: every command ever sent is finished or is the oldest unfinished one, so at most one
      row is delivered or running. */
  lemma SentIsFinishedOrOldest(binding: string, states: seq<World>, events: seq<Event>, i: nat)
    requires IsRun(binding, states, events) && i < |states|
    ensures var w := states[i];
            && (forall n <- w.attempts ::
                  && n < |w.panel.rows|
                  && (P.Finished(w.panel.rows[n]) || forall k :: 0 <= k < n ==> P.Finished(w.panel.rows[k])))
            && (forall a, b | 0 <= a < |w.panel.rows| && 0 <= b < |w.panel.rows| ::
                  P.Active(w.panel.rows[a]) && P.Active(w.panel.rows[b]) ==> a == b)
  {
    RunInv(binding, states, events, i);
    var w := states[i];
    forall n | n in w.attempts
      ensures n < |w.panel.rows|
              && (P.Finished(w.panel.rows[n]) || forall k :: 0 <= k < n ==> P.Finished(w.panel.rows[k]))
    {
      var j :| 0 <= j < |w.attempts| && w.attempts[j] == n;
      assert w.attempts[j] <= w.attempts[|w.attempts| - 1];
    }
  }

  /** A finished row never changes again, whatever arrives later. */
  lemma {:induction false} FinishedRowsNeverChange(binding: string, states: seq<World>, events: seq<Event>, i: nat,
                                                   j: nat)
    requires IsRun(binding, states, events) && i <= j < |states|
    ensures P.RowsEvolve(states[i].panel.rows, states[j].panel.rows)
    decreases j - i
  {
    hide Inv;
    hide Next;
    if i < j {
      FinishedRowsNeverChange(binding, states, events, i, j - 1);
      RunInv(binding, states, events, j - 1);
      EventEvolvesRows(states[j - 1], events[j - 1]);
    }
  }

  lemma EventEvolvesRows(w: World, e: Event)
    requires Inv(w) && Enabled(w, e)
    ensures P.RowsEvolve(w.panel.rows, Next(w, e).panel.rows)
  {
    match e {
      case Create(_, _, _) => CreateMoves(w, e);
      case Handle(s, greeted, expired, send) =>
        MessageWasSent(w, s);
        P.HandleKeeps(w.panel, s, w.up[s][0], greeted, expired, send, P.High(w.attempts));
      case Close(_) => LosingSocketsMoves(w, e);
      case Reboot => LosingSocketsMoves(w, e);
      case DieCreating(_, _, _) => DieCreatingMoves(w, e);
      case DieHandling(_, _, _) => DieHandlingMoves(w, e);
      case Agent(_) =>
    }
  }

  /** Durable ownership: an accepted command is in the agent's memory and in its state file, as
      accepted or with a result, until it is trimmed; so no restart can grant it again. */
  lemma OwnershipIsDurable(binding: string, states: seq<World>, events: seq<Event>, i: nat, id: Id)
    requires IsRun(binding, states, events) && i < |states|
    requires id in states[i].agent.past.known && id !in states[i].agent.past.trimmed
    ensures var a := states[i].agent;
            && a.disk.Some?
            && (exists e <- a.disk.value :: e.commandId == id)
            && (a.process.Some? ==> id in a.process.value.cache.completed || id in a.process.value.cache.pending)
  {
    RunInv(binding, states, events, i);
    var a := states[i].agent;
    CommandCache.SnapshotIds(a.past.saved);
    assert id in Elements(CommandCache.EntryIds(CommandCache.Snapshot(a.past.saved)));
    var e := CommandCache.EntryOfId(CommandCache.Snapshot(a.past.saved), id);
  }

  /** The eviction bound: a command whose row is not finished, which the panel may still send again, is never
      trimmed once ownership was granted: it is in flight, or its result has, together with everything in
      flight, at most 66 entries from it on. */
  lemma ResendableIsKept(binding: string, states: seq<World>, events: seq<Event>, i: nat, n: nat)
    requires IsRun(binding, states, events) && i < |states| && states[i].agent.process.Some?
    requires n < |states[i].panel.rows| && !P.Finished(states[i].panel.rows[n])
    requires states[i].panel.rows[n].id in states[i].agent.past.known
    ensures var c, id := states[i].agent.process.value.cache, states[i].panel.rows[n].id;
            id in c.pending
            || exists p :: 0 <= p < |c.order| && c.order[p] == id && |c.order| - p + |c.pending| <= 66
  {
    RunInv(binding, states, events, i);
    UnfinishedIsLast(states[i], n);
    LastIsKept(binding, states, events, i, states[i].panel.rows[n].id);
  }

  /** An unfinished row that the agent has seen is the one it read last. */
  lemma UnfinishedIsLast(w: World, n: nat)
    requires PanelOk(w) && SeenOk(w) && n < |w.panel.rows| && !P.Finished(w.panel.rows[n])
    requires w.panel.rows[n].id in w.agent.past.seen
    ensures w.agent.past.last == Some(w.panel.rows[n].id)
  {
    var id := w.panel.rows[n].id;
    SeenWasSent(w, id);
    assert w.panel.rows[P.Find(w.panel.rows, id).value].id == id;
    assert P.Find(w.panel.rows, id).value == n;
  }

  lemma LastIsKept(binding: string, states: seq<World>, events: seq<Event>, i: nat, id: Id)
    requires IsRun(binding, states, events) && i < |states|
    requires states[i].agent.past.last == Some(id) && id in states[i].agent.past.known
    requires states[i].agent.process.Some?
    ensures var c := states[i].agent.process.value.cache;
            id in c.pending
            || exists p :: 0 <= p < |c.order| && c.order[p] == id && |c.order| - p + |c.pending| <= A.IN_FLIGHT_BOUND
  {
    RunStorage(binding, states, events, i);
    hide IsRun;
    hide Safety.StorageOk;
    var c := states[i].agent.process.value.cache;
    if id !in c.pending {
      NewestPosition(c.order, A.IN_FLIGHT_BOUND - |c.pending|, id);
    }
  }

  lemma NewestPosition(s: seq<Id>, k: nat, id: Id)
    requires id in Newest(s, k)
    ensures exists p :: 0 <= p < |s| && s[p] == id && |s| - p <= k
  {
    var newest := Newest(s, k);
    var j :| 0 <= j < |newest| && newest[j] == id;
    assert s[|s| - |newest| + j] == id;
  }

  /** Ownership of a command is granted at most once in a run, over every restart and eviction. */
  lemma GrantedOnce(binding: string, states: seq<World>, events: seq<Event>, i: nat, j: nat, id: Id)
    requires IsRun(binding, states, events) && i < j < |events| && GrantsId(states[i], events[i], id)
    ensures !GrantsId(states[j], events[j], id)
  {
    RunStorage(binding, states, events, j);
    GrantIsRecorded(states[i], events[i], id);
    KnownGrows(binding, states, events, i + 1, j, id);
    if GrantsId(states[j], events[j], id) {
      Safety.GrantIsFresh(states[j].agent);
    }
  }

  /** The event is a `begin` that returns owner=true for this id. */
  ghost predicate GrantsId(w: World, e: Event, id: Id) {
    && e.Agent? && e.step.Begin? && e.step.beginWrite == Written
    && Safety.Grants(w.agent, e.step) && w.agent.process.value.reader.job.id == id
  }

  lemma GrantIsRecorded(w: World, e: Event, id: Id)
    requires Enabled(w, e) && GrantsId(w, e, id)
    ensures id in Next(w, e).agent.past.known
  {
  }

  lemma RunStorage(binding: string, states: seq<World>, events: seq<Event>, i: nat)
    requires IsRun(binding, states, events) && i < |states|
    ensures Safety.StorageOk(states[i].agent) && Safety.MemoryOk(states[i].agent)
  {
    RunInv(binding, states, events, i);
  }

  lemma {:induction false} KnownGrows(binding: string, states: seq<World>, events: seq<Event>, i: nat, j: nat, id: Id)
    requires IsRun(binding, states, events) && i <= j < |states| && id in states[i].agent.past.known
    ensures id in states[j].agent.past.known
    decreases j - i
  {
    hide Inv;
    hide Next;
    hide Enabled;
    if i < j {
      KnownGrows(binding, states, events, i, j - 1, id);
      RunKeepsKnown(binding, states, events, j - 1, id);
    }
  }

  lemma RunKeepsKnown(binding: string, states: seq<World>, events: seq<Event>, i: nat, id: Id)
    requires IsRun(binding, states, events) && i < |events| && id in states[i].agent.past.known
    ensures id in states[i + 1].agent.past.known
  {
    RunStorage(binding, states, events, i);
    EventKeepsKnown(states[i], events[i]);
  }

  lemma EventKeepsKnown(w: World, e: Event)
    requires Safety.StorageOk(w.agent) && Enabled(w, e)
    ensures w.agent.past.known <= Next(w, e).agent.past.known
  {
    if e.Agent? {
      StepKeepsKnown(w.agent, e.step);
    }
  }

  lemma StepKeepsKnown(a: A.Agent, step: A.Step)
    requires Safety.StorageOk(a) && A.Enabled(a, step)
    ensures a.past.known <= A.Next(a, step).past.known
  {
    if step.Restart? {
      Safety.RestartShape(a, step.restartWrite, CommandCache.Reload(a.past.saved));
    }
  }

  /** The event fails to write about this id: its acceptance, or its result before the rename. */
  ghost predicate Faults(w: World, e: Event, id: Id) {
    e.Agent? &&
    if e.step.Begin? then
      Safety.Grants(w.agent, e.step) && e.step.beginWrite != Written && w.agent.process.value.reader.job.id == id
    else if e.step.Reject? then
      w.agent.process.Some? && e.step.rejectWrite == FailedBeforeRename && w.agent.process.value.reader.Rejecting?
                                && w.agent.process.value.reader.job.id == id
    else
      e.step.Record? && w.agent.process.Some? && e.step.recordWrite == FailedBeforeRename
      && w.agent.process.value.worker.Finished?
         && w.agent.process.value.worker.job.id == id
  }

  lemma StepFaults(w: World, e: Event, id: Id)
    requires Enabled(w, e) && Safety.StorageOk(w.agent)
    ensures id in Next(w, e).agent.past.faulted <==> id in w.agent.past.faulted || Faults(w, e, id)
  {
    hide A.Next;
    if e.Agent? {
      assert Next(w, e).agent == A.Next(w.agent, e.step);
      hide Next;
      if e.step.Restart? {
        var c := CommandCache.Reload(w.agent.past.saved);
        Safety.RestartShape(w.agent, e.step.restartWrite, c);
        Safety.ReopenedFaults(w.agent, A.Next(w.agent, e.step), e.step.restartWrite, c);
      } else {
        LivingStepFaults(w, e, id);
      }
      hide Faults;
    }
  }

  lemma LivingStepFaults(w: World, e: Event, id: Id)
    requires e.Agent? && A.Enabled(w.agent, e.step) && !e.step.Restart?
    ensures id in A.Next(w.agent, e.step).past.faulted <==> id in w.agent.past.faulted || Faults(w, e, id)
  {
    hide CommandCache.Snapshot;
    hide CommandCache.Complete;
  }

  lemma RunFaults(binding: string, states: seq<World>, events: seq<Event>, i: nat, id: Id)
    requires IsRun(binding, states, events) && i < |events|
    ensures id in states[i + 1].agent.past.faulted <==>
            id in states[i].agent.past.faulted || Faults(states[i], events[i], id)
  {
    RunStorage(binding, states, events, i);
    assert Enabled(states[i], events[i]) && states[i + 1] == Next(states[i], events[i]);
    hide *;
    StepFaults(states[i], events[i], id);
  }

  lemma NoFaultAtStart(binding: string, states: seq<World>, events: seq<Event>)
    requires IsRun(binding, states, events)
    ensures states[0].agent.past.faulted == {}
  {
  }

  lemma RunLength(binding: string, states: seq<World>, events: seq<Event>)
    requires IsRun(binding, states, events)
    ensures |states| == |events| + 1
  {
  }

  lemma {:induction false} FaultedExactly(binding: string, states: seq<World>, events: seq<Event>, i: nat, id: Id)
    requires IsRun(binding, states, events) && i < |states|
    ensures id in states[i].agent.past.faulted <==> exists j :: 0 <= j < i && Faults(states[j], events[j], id)
  {
    hide *;
    RunLength(binding, states, events);
    if i == 0 {
      NoFaultAtStart(binding, states, events);
    } else {
      FaultedExactly(binding, states, events, i - 1, id);
      RunFaults(binding, states, events, i - 1, id);
      OneMoreEvent(states, events, i - 1, id);
    }
  }

  lemma OneMoreEvent(states: seq<World>, events: seq<Event>, i: nat, id: Id)
    requires i < |states| && i < |events|
    ensures (exists j :: 0 <= j < i + 1 && Faults(states[j], events[j], id))
            <==> (exists j :: 0 <= j < i && Faults(states[j], events[j], id)) || Faults(states[i], events[i], id)
  {
    hide Faults;
  }

  /** Reply determinism: all terminal replies ever sent about a command are the same, across crashes,
      restarts, redelivery, eviction and failed writes about other commands, unless writing this command's
      acceptance failed, or its result never reached the state file. */
  lemma RepliesAgree(binding: string, states: seq<World>, events: seq<Event>, i: nat, r1: CommandCache.Reply,
                     r2: CommandCache.Reply)
    requires IsRun(binding, states, events) && i < |states|
    requires forall j :: 0 <= j < i ==> !Faults(states[j], events[j], r1.commandId)
    requires r1 in states[i].agent.past.replies && r2 in states[i].agent.past.replies && r1.commandId == r2.commandId
    ensures r1 == r2
  {
    RunInv(binding, states, events, i);
    FaultedExactly(binding, states, events, i, r1.commandId);
    assert Safety.IdAgrees(states[i].agent, r1.commandId);
  }
}
