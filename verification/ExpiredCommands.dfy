/** What "Command expired before delivery" says about a command. A row that was put back in the queue can
    expire after the agent has executed it; a row that was never sent cannot have been executed. */
module ExpiredCommands {
  import opened Base
  import opened CommandCache
  import opened HostAgent
  import Safety = HostAgentSafety
  import P = PanelCommands
  import W = CommandProtocol
  import opened WriteErrors

  /** The event handles a result about this id. */
  ghost predicate Settles(w: W.World, e: W.Event, id: Id)
    requires W.Enabled(w, e)
  {
    match e
    case Handle(s, _, _, _) => w.up[s][0].Conclude? && w.up[s][0].reply.commandId == id
    case DieHandling(s, _, _) => w.up[s][0].Conclude? && w.up[s][0].reply.commandId == id
    case _ => false
  }

  /** The event finishes row `n`, and not because of a result. */
  ghost predicate Expires(w: W.World, e: W.Event, n: nat)
    requires W.Enabled(w, e)
  {
    var rows := W.Next(w, e).panel.rows;
    && n < |rows| && P.Finished(rows[n])
    && (n < |w.panel.rows| ==> !P.Finished(w.panel.rows[n]))
    && !Settles(w, e, rows[n].id)
  }

  /** A run whose event `i` lets row `n`, that of command `id`, expire. */
  ghost predicate ExpiredBy(binding: string, states: seq<W.World>, events: seq<W.Event>, i: nat, n: nat, id: Id) {
    && W.IsRun(binding, states, events) && i < |events|
    && Expires(states[i], events[i], n) && W.Next(states[i], events[i]).panel.rows[n].id == id
  }

  function Overdue(e: W.Event): set<nat> {
    match e
    case Create(_, expired, _) => expired
    case Handle(_, _, expired, _) => expired
    case DieCreating(_, expired, _) => expired
    case DieHandling(_, expired, _) => expired
    case _ => {}
  }

  /** Such a row was overdue, and says that it expired. */
  lemma ExpiredRowSaysSo(w: W.World, e: W.Event, n: nat)
    requires W.Enabled(w, e) && Expires(w, e, n)
    ensures var row := W.Next(w, e).panel.rows[n];
            n in Overdue(e) && row == P.Row(row.id, P.Failed, None, Some(P.EXPIRED))
  {
    hide P.Dispatch;
    hide P.Expire;
    hide P.Handle;
    hide P.HandleCut;
    hide Next;
    hide Emits;
    match e {
      case Create(id, expired, send) =>
        P.DispatchExpiresOnly(w.panel.(rows := w.panel.rows + [P.Row(id, P.Queued, None, None)]), expired, send);
      case Handle(s, greeted, expired, send) =>
        P.HandleFinishesOnly(w.panel, s, w.up[s][0], greeted, expired, send);
      case DieCreating(id, expired, done) =>
        P.RebootExpiresOnly(w.panel.(rows := w.panel.rows + [P.Row(id, P.Queued, None, None)]), expired, done);
      case DieHandling(s, expired, done) => P.HandleCutFinishesOnly(w.panel, s, w.up[s][0], expired, done);
      case _ =>
    }
  }

  // ---------- only what was sent is received ----------

  ghost predicate DownSent(w: W.World) {
    forall s <- w.down :: forall n <- w.down[s] :: n in w.attempts
  }

  ghost predicate SeenSent(w: W.World) {
    forall id <- w.agent.past.seen :: exists n :: n in w.attempts && n < |w.panel.rows| && w.panel.rows[n].id == id
  }

  ghost predicate SentOk(w: W.World) {
    DownSent(w) && SeenSent(w)
  }

  /** The attempts of an event are about rows that are not finished after it. */
  lemma AttemptsUnfinished(w: W.World, e: W.Event, n: nat)
    requires W.Enabled(w, e) && n in W.Next(w, e).attempts && n !in w.attempts
    ensures n < |W.Next(w, e).panel.rows| && !P.Finished(W.Next(w, e).panel.rows[n])
  {
    match e {
      case Create(id, expired, send) =>
        P.DispatchExpiresOnly(w.panel.(rows := w.panel.rows + [P.Row(id, P.Queued, None, None)]), expired, send);
      case Handle(s, greeted, expired, send) =>
        P.HandleFinishesOnly(w.panel, s, w.up[s][0], greeted, expired, send);
      case _ =>
    }
  }

  lemma AttemptsStay(w: W.World, e: W.Event)
    requires W.Enabled(w, e)
    ensures forall n <- w.attempts :: n in W.Next(w, e).attempts
  {
  }

  lemma EventKeepsSent(w: W.World, e: W.Event)
    requires W.Inv(w) && SentOk(w) && W.Enabled(w, e)
    ensures SentOk(W.Next(w, e))
  {
    hide W.Next;
    hide W.Enabled;
    hide W.Inv;
    hide DownSent;
    hide SeenSent;
    EventKeepsDown(w, e);
    W.EventEvolvesRows(w, e);
    EventKeepsSeen(w, e);
  }

  lemma EventKeepsDown(w: W.World, e: W.Event)
    requires SentOk(w) && W.Enabled(w, e)
    ensures DownSent(W.Next(w, e))
  {
    hide W.Next;
    hide W.Enabled;
    hide SentOk;
    var v := W.Next(w, e);
    forall s, n | s in v.down && n in v.down[s] ensures n in v.attempts {
      DownWasAttempted(w, e, s, n);
    }
  }

  lemma EventKeepsSeen(w: W.World, e: W.Event)
    requires SentOk(w) && W.Enabled(w, e) && P.RowsEvolve(w.panel.rows, W.Next(w, e).panel.rows)
    ensures SeenSent(W.Next(w, e))
  {
    AttemptsStay(w, e);
    hide W.Next;
    hide W.Enabled;
    var v := W.Next(w, e);
    forall id | id in v.agent.past.seen
      ensures exists n :: n in v.attempts && n < |v.panel.rows| && v.panel.rows[n].id == id
    {
      if id in w.agent.past.seen {
        var n :| n in w.attempts && n < |w.panel.rows| && w.panel.rows[n].id == id;
        assert v.panel.rows[n].id == id;
      } else {
        NewlySeen(w, e, id);
      }
    }
  }

  lemma DownWasAttempted(w: W.World, e: W.Event, s: nat, n: nat)
    requires SentOk(w) && W.Enabled(w, e) && s in W.Next(w, e).down && n in W.Next(w, e).down[s]
    ensures n in W.Next(w, e).attempts
  {
    AttemptsStay(w, e);
    hide P.Handle;
    hide P.Create;
    hide Next;
    hide Emits;
    if s in w.down && n in w.down[s] {
      assert n in w.attempts;
    }
  }

  lemma NewlySeen(w: W.World, e: W.Event, id: Id)
    requires SentOk(w) && W.Enabled(w, e) && id in W.Next(w, e).agent.past.seen && id !in w.agent.past.seen
    ensures exists n :: n in W.Next(w, e).attempts && n < |W.Next(w, e).panel.rows|
                        && W.Next(w, e).panel.rows[n].id == id
  {
    if e.Agent? && e.step.Receive? {
      var s := W.Current(w).value;
      var n := w.down[s][0];
      assert n in w.down[s];
      assert w.panel.rows[n].id == id;
    } else if e.Agent? {
      W.AgentSeenStays(w.agent, e.step);
    }
  }

  lemma {:induction false} RunSent(binding: string, states: seq<W.World>, events: seq<W.Event>, i: nat)
    requires W.IsRun(binding, states, events) && i < |states|
    ensures SentOk(states[i])
  {
    hide W.Next;
    hide W.Inv;
    if i == 0 {
      assert W.Start(binding).agent.past.seen == {};
    } else {
      hide SentOk;
      RunSent(binding, states, events, i - 1);
      W.RunInv(binding, states, events, i - 1);
      EventKeepsSent(states[i - 1], events[i - 1]);
    }
  }

  // ---------- expiry without an attempt ----------

  /** A row that is finished without an attempt is never attempted. */
  lemma {:induction false} NeverAttempted(binding: string, states: seq<W.World>, events: seq<W.Event>, i: nat, j: nat,
                                          n: nat)
    requires W.IsRun(binding, states, events) && i <= j < |states|
    requires n < |states[i].panel.rows| && P.Finished(states[i].panel.rows[n]) && n !in states[i].attempts
    ensures n !in states[j].attempts
    decreases j - i
  {
    hide W.Next;
    hide W.Enabled;
    hide P.Finished;
    if i < j {
      NeverAttempted(binding, states, events, i, j - 1, n);
      W.FinishedRowsNeverChange(binding, states, events, i, j);
      assert W.Enabled(states[j - 1], events[j - 1]) && states[j] == W.Next(states[j - 1], events[j - 1]);
      if n in states[j].attempts {
        AttemptsUnfinished(states[j - 1], events[j - 1], n);
      }
    }
  }

  lemma {:induction false} AttemptsGrow(binding: string, states: seq<W.World>, events: seq<W.Event>, i: nat, j: nat,
                                        n: nat)
    requires W.IsRun(binding, states, events) && i <= j < |states| && n in states[i].attempts
    ensures n in states[j].attempts
    decreases j - i
  {
    hide W.Next;
    hide W.Enabled;
    if i < j {
      AttemptsGrow(binding, states, events, i, j - 1, n);
      AttemptsStay(states[j - 1], events[j - 1]);
    }
  }

  /** What was started was attempted. */
  lemma StartedWasAttempted(binding: string, states: seq<W.World>, events: seq<W.Event>, j: nat, id: Id)
    requires W.IsRun(binding, states, events) && j < |states| && W.Starts(states[j].agent.past.log, id) > 0
    ensures exists n :: n in states[j].attempts && n < |states[j].panel.rows| && states[j].panel.rows[n].id == id
  {
    RunSent(binding, states, events, j);
    W.RunInv(binding, states, events, j);
    hide *;
    StartedWasSent(states[j], id);
  }

  lemma StartedWasSent(w: W.World, id: Id)
    requires W.Inv(w) && SentOk(w) && W.Starts(w.agent.past.log, id) > 0
    ensures exists n :: n in w.attempts && n < |w.panel.rows| && w.panel.rows[n].id == id
  {
    assert Safety.OnceOk(w.agent) && Safety.MemoryOk(w.agent);
    hide W.Inv;
    StartedIsLogged(w.agent.past.log, id);
  }

  lemma StartedIsLogged(log: seq<Execution>, id: Id)
    requires W.Starts(log, id) > 0
    ensures id in Elements(Safety.LogIds(log))
  {
    var at := set k | 0 <= k < |log| && log[k].id == id;
    assert at != {};
    var k :| k in at;
    assert Safety.LogIds(log)[k] == id;
  }

  /** A command whose row expires before any attempt to send it is never started, neither before nor after. */
  lemma ExpiredUnsentNeverStarts(binding: string, states: seq<W.World>, events: seq<W.Event>, i: nat, j: nat, n: nat,
                                 id: Id)
    requires ExpiredBy(binding, states, events, i, n, id) && n !in states[i].attempts && j < |states|
    ensures W.Starts(states[j].agent.past.log, id) == 0
  {
    assert states[i + 1].panel.rows[n].id == id;
    NotAttemptedAt(binding, states, events, i, j, n);
    hide Expires;
    if W.Starts(states[j].agent.past.log, id) > 0 {
      StartedWasAttempted(binding, states, events, j, id);
      hide W.Starts;
      var k :| k in states[j].attempts && k < |states[j].panel.rows| && states[j].panel.rows[k].id == id;
      OneRowPerId(binding, states, events, i + 1, j, n, k);
    }
  }

  lemma NotAttemptedAt(binding: string, states: seq<W.World>, events: seq<W.Event>, i: nat, j: nat, n: nat)
    requires W.IsRun(binding, states, events) && i < |events| && j < |states|
    requires Expires(states[i], events[i], n) && n !in states[i].attempts
    ensures n < |states[i + 1].panel.rows| && n !in states[j].attempts
  {
    assert states[i + 1] == W.Next(states[i], events[i]);
    if n in states[i + 1].attempts {
      AttemptsUnfinished(states[i], events[i], n);
    }
    hide W.Next;
    if i + 1 <= j {
      NeverAttempted(binding, states, events, i + 1, j, n);
    } else if n in states[j].attempts {
      AttemptsGrow(binding, states, events, j, i, n);
    }
  }

  lemma OneRowPerId(binding: string, states: seq<W.World>, events: seq<W.Event>, i: nat, j: nat, n: nat, k: nat)
    requires W.IsRun(binding, states, events) && i < |states| && j < |states|
    requires n < |states[i].panel.rows| && k < |states[j].panel.rows|
    requires states[i].panel.rows[n].id == states[j].panel.rows[k].id
    ensures n == k
  {
    hide W.IsRun;
    if i <= j {
      W.FinishedRowsNeverChange(binding, states, events, i, j);
      W.RunInv(binding, states, events, j);
    } else {
      W.FinishedRowsNeverChange(binding, states, events, j, i);
      W.RunInv(binding, states, events, i);
    }
  }

  // ---------- expiry after an attempt ----------

  const RECONNECTING := [W.Agent(Drop), W.Close(0), W.Agent(Connect(1)), W.Handle(1, true, {0}, OK)]

  lemma GreetsOverdue(w: W.World, s: nat, id: Id) returns (v: W.World)
    requires s in w.up && w.up[s] == [Hello] && w.panel.rows == OneRow(id, P.Queued)
    ensures Moves(w, W.Handle(s, true, {0}, OK), v) && v.agent == w.agent && v.attempts == w.attempts
    ensures v.panel.rows == [P.Row(id, P.Failed, None, Some(P.EXPIRED))]
  {
    var p := w.panel.(active := Some(s), bound := w.panel.bound + {s});
    var q := p.(rows := [P.Row(id, P.Failed, None, Some(P.EXPIRED))]);
    assert Cut(P.EXPIRED, P.MAX_ERROR) == P.EXPIRED;
    assert P.ActiveCommand(p.rows) == None && P.FirstQueued(p.rows) == Some(0);
    assert p.rows[0 := P.FinishRow(p.rows[0], None, Some(P.EXPIRED))] == q.rows;
    assert P.FirstQueued(q.rows) == None;
    assert P.Dispatch(q, {0}, OK) == P.Sent(q, []);
    assert P.Dispatch(p, {0}, OK) == P.Sent(q, []);
    v := W.Next(w, W.Handle(s, true, {0}, OK));
    assert w.attempts + [] == w.attempts;
  }

  /** The connection breaks after the execution, and when the agent is back the command is overdue. */
  lemma Reconnect(w: W.World, id: Id, p: Process) returns (states: seq<W.World>)
    requires w.agent.process == Some(p) && p.reader == Reading(0) && w.sessions == 1
    requires w.panel == P.Panel(OneRow(id, P.Delivered), Some(0), {0})
    ensures IsChain(states, RECONNECTING) && states[0] == w
    ensures states[4].panel.rows == [P.Row(id, P.Failed, None, Some(P.EXPIRED))]
    ensures states[3].panel.rows == OneRow(id, P.Queued) && 1 in states[3].up && states[3].up[1] == [Hello]
    ensures states[4].agent.past == w.agent.past && states[3].attempts == w.attempts
  {
    hide Moves;
    var w1 := Silently(w, Drop);
    var w2 := Closes(w1, 0, id);
    var w3 := Connects(w2, p.(reader := Offline));
    var w4 := GreetsOverdue(w3, 1, id);
    states := [w, w1, w2, w3, w4];
  }

  /** So a row can say that its command expired before delivery although the agent executed it with success,
      whatever its id: the command had been sent once. */
  lemma ExpiredAfterSuccess(binding: string, id: Id) returns (states: seq<W.World>, events: seq<W.Event>)
    requires id != ""
    ensures W.IsRun(binding, states, events)
    ensures var n := |events|;
            && n > 0 && ExpiredBy(binding, states, events, n - 1, 0, id) && 0 in states[n - 1].attempts
            && states[n].panel.rows == [P.Row(id, P.Failed, None, Some(P.EXPIRED))]
            && states[n].agent.past.log == [Execution(id, Some(Succeeded("done")))]
  {
    var s1 := SendCommand(binding, id);
    var s2 := Execute(s1[5], id);
    var s3 := Reconnect(s2[4], id, s2[4].agent.process.value);
    JoinChains(s1, Sending(id), s2, EXECUTING);
    JoinChains(s1 + s2[1..], Sending(id) + EXECUTING, s3, RECONNECTING);
    states, events := s1 + s2[1..] + s3[1..], Sending(id) + EXECUTING + RECONNECTING;
    ChainIsRun(binding, states, events);
    assert states[|events|] == s3[4] && states[|events| - 1] == s3[3] && events[|events| - 1] == RECONNECTING[3];
  }

  /** In every run a command whose row expires is never started: for rows that nobody had tried to send by
      then, or, when `attempted`, for all. */
  ghost predicate ExpiryMeansUnstarted(binding: string, attempted: bool) {
    forall states: seq<W.World>, events: seq<W.Event>, i: nat, j: nat, n: nat, id: Id ::
      (ExpiredBy(binding, states, events, i, n, id) && j < |states| && (n in states[i].attempts ==> attempted))
      ==> W.Starts(states[j].agent.past.log, id) == 0
  }

  /** Expiry tells that a command was not started exactly for rows that had never been sent. */
  lemma ExpiryMeansUnstartedExactlyWhen(binding: string, attempted: bool)
    ensures ExpiryMeansUnstarted(binding, attempted) <==> !attempted
  {
    if attempted {
      var states, events := ExpiredAfterSuccess(binding, "a");
      var n := |events|;
      OneStart(states[n].agent.past.log, "a");
    } else {
      forall states: seq<W.World>, events: seq<W.Event>, i: nat, j: nat, n: nat, id: Id
        | ExpiredBy(binding, states, events, i, n, id) && j < |states| && (n in states[i].attempts ==> attempted)
        ensures W.Starts(states[j].agent.past.log, id) == 0
      {
        ExpiredUnsentNeverStarts(binding, states, events, i, j, n, id);
      }
    }
  }

  lemma OneStart(log: seq<Execution>, id: Id)
    requires log == [Execution(id, Some(Succeeded("done")))]
    ensures W.Starts(log, id) == 1
  {
    assert (set i | 0 <= i < |log| && log[i].id == id) == {0};
  }
}
