/** What the panel does for sure: which row a call sends, and that no command waits while the agent is
    connected and idle. Everything is said about rows and sockets only. */
module PanelProgress {
  import opened Base
  import CommandCache
  import opened HostAgent
  import opened PanelCommands
  import W = CommandProtocol

  ghost predicate NoneActive(rows: seq<Row>) {
    forall i :: 0 <= i < |rows| ==> rows[i].status != Delivered && rows[i].status != Status.Running
  }

  /** Row `n` is the first queued one that is not overdue. */
  ghost predicate Due(rows: seq<Row>, overdue: set<nat>, n: nat) {
    && n < |rows| && rows[n].status == Queued && n !in overdue
    && forall k :: 0 <= k < n && rows[k].status == Queued ==> k in overdue
  }

  function ExpiredRow(id: Id): Row {
    Row(id, Failed, None, Some("Command expired before delivery"))
  }

  /** The queued rows before `n` have expired; the others are as they were, but for row `n` itself. */
  ghost predicate ExpiredBefore(before: seq<Row>, after: seq<Row>, n: nat) {
    && |after| == |before|
    && forall k :: 0 <= k < |before| && k != n ==>
         after[k] == if k < n && before[k].status == Queued then ExpiredRow(before[k].id) else before[k]
  }

  /** What a dispatch has to come to: with a socket and nothing active, the first queued row that is not
      overdue is sent, and is delivered if the send succeeds; otherwise the socket is gone and it waits. */
  ghost predicate Dispatched(p: Panel, overdue: set<nat>, send: Send, r: Sent) {
    if p.active.None? || !NoneActive(p.rows) then r == Sent(p, [])
    else
      && (forall n: nat :: Due(p.rows, overdue, n) ==>
            && r.attempts == [n] && ExpiredBefore(p.rows, r.panel.rows, n)
            && if send.ok then
                 r.panel.rows[n] == p.rows[n].(status := Delivered)
                 && r.panel.active == p.active && r.panel.bound == p.bound
               else
                 r.panel.rows[n] == p.rows[n]
                 && (p.active.value in p.bound ==>
                       r.panel.active == None && r.panel.bound == p.bound - {p.active.value}))
      && ((forall n: nat :: !Due(p.rows, overdue, n)) ==>
            && r.attempts == [] && ExpiredBefore(p.rows, r.panel.rows, |p.rows|)
            && r.panel.active == p.active && r.panel.bound == p.bound)
  }

  lemma SameDue(rows: seq<Row>, overdue: set<nat>, i: nat, n: nat)
    requires i < |rows| && rows[i].status == Queued && i in overdue
    ensures Due(rows, overdue, n) <==> Due(rows[i := ExpiredRow(rows[i].id)], overdue, n)
  {
    var after := rows[i := ExpiredRow(rows[i].id)];
    if Due(after, overdue, n) {
      forall k | 0 <= k < n && rows[k].status == Queued ensures k in overdue {
        assert k != i ==> after[k] == rows[k];
      }
    }
  }

  lemma OnlyDue(rows: seq<Row>, overdue: set<nat>, i: nat, n: nat)
    requires Due(rows, overdue, i) && Due(rows, overdue, n)
    ensures i == n
  {
  }

  lemma ExpireFirst(rows: seq<Row>, after: seq<Row>, i: nat, n: nat)
    requires i < |rows| && rows[i].status == Queued && forall k :: 0 <= k < i ==> rows[k].status != Queued
    requires i < n && ExpiredBefore(rows[i := ExpiredRow(rows[i].id)], after, n)
    ensures ExpiredBefore(rows, after, n)
  {
  }

  /** An overdue first row expires, and the rest is the dispatch of what is left. */
  lemma DispatchedAfterExpiry(p: Panel, overdue: set<nat>, send: Send, i: nat, r: Sent)
    requires p.active.Some? && NoneActive(p.rows)
    requires i < |p.rows| && p.rows[i].status == Queued && i in overdue
    requires forall k :: 0 <= k < i ==> p.rows[k].status != Queued
    requires Dispatched(p.(rows := p.rows[i := ExpiredRow(p.rows[i].id)]), overdue, send, r)
    ensures Dispatched(p, overdue, send, r)
  {
    var q := p.(rows := p.rows[i := ExpiredRow(p.rows[i].id)]);
    assert NoneActive(q.rows);
    forall n: nat ensures Due(p.rows, overdue, n) <==> Due(q.rows, overdue, n) {
      SameDue(p.rows, overdue, i, n);
    }
    hide ExpiredBefore;
    if n: nat :| Due(p.rows, overdue, n) {
      assert n > i && q.rows[n] == p.rows[n];
      ExpireFirst(p.rows, r.panel.rows, i, n);
      forall m: nat | Due(p.rows, overdue, m) ensures m == n {
        OnlyDue(p.rows, overdue, m, n);
      }
    } else {
      ExpireFirst(p.rows, r.panel.rows, i, |p.rows|);
    }
  }

  /** The first queued row is sent. */
  lemma SendFirst(p: Panel, overdue: set<nat>, send: Send, i: nat)
    requires p.active.Some? && NoneActive(p.rows)
    requires i < |p.rows| && p.rows[i].status == Queued && i !in overdue
    requires forall k :: 0 <= k < i ==> p.rows[k].status != Queued
    ensures Dispatched(p, overdue, send,
                       if send.ok then Sent(p.(rows := p.rows[i := MarkDelivered(p.rows[i])]), [i])
                       else Sent(Close(p, p.active.value), [i]))
  {
    assert Due(p.rows, overdue, i);
    forall n: nat | Due(p.rows, overdue, n) ensures n == i {
      OnlyDue(p.rows, overdue, n, i);
    }
    assert Requeue(p.rows) == p.rows;
  }

  lemma {:induction false} DispatchExactly(p: Panel, overdue: set<nat>, send: Send)
    ensures Dispatched(p, overdue, send, Dispatch(p, overdue, send))
    decreases QueuedCount(p.rows)
  {
    assert ActiveCommand(p.rows).None? <==> NoneActive(p.rows);
    if p.active.Some? && NoneActive(p.rows) {
      if FirstQueued(p.rows).None? {
        assert forall n: nat :: !Due(p.rows, overdue, n);
      } else {
        var i := FirstQueued(p.rows).value;
        if i in overdue {
          var row := FinishRow(p.rows[i], None, Some(EXPIRED));
          assert Cut(EXPIRED, MAX_ERROR) == EXPIRED;
          assert row == ExpiredRow(p.rows[i].id);
          FinishingLowersCount(p.rows, i, row);
          var q := p.(rows := p.rows[i := row]);
          DispatchExactly(q, overdue, send);
          assert Dispatch(p, overdue, send) == Dispatch(q, overdue, send);
          DispatchedAfterExpiry(p, overdue, send, i, Dispatch(q, overdue, send));
        } else {
          SendFirst(p, overdue, send, i);
        }
      }
    }
  }

  // ---------- the calls ----------

  /** A new command is queued behind all others, and the queue is dispatched. */
  lemma CreateSends(p: Panel, id: Id, overdue: set<nat>, send: Send)
    ensures Dispatched(p.(rows := p.rows + [Row(id, Queued, None, None)]), overdue, send,
                       Create(p, id, overdue, send))
  {
    DispatchExactly(p.(rows := p.rows + [Row(id, Queued, None, None)]), overdue, send);
  }

  /** A greeted socket replaces the one before and gets what waits. */
  lemma HelloSends(p: Panel, socket: Socket, greeted: bool, overdue: set<nat>, send: Send)
    ensures var q, r := Panel(p.rows, Some(socket), p.bound + {socket}),
                        Handle(p, socket, Hello, greeted, overdue, send);
            if greeted then Dispatched(q, overdue, send, r) else r == Sent(q, [])
  {
    DispatchExactly(Panel(p.rows, Some(socket), p.bound + {socket}), overdue, send);
  }

  /** The row a result makes of an unfinished one. */
  function ResultRow(reply: Reply): Row {
    if reply.kind == CommandCache.CommandCompleted then
      Row(reply.commandId, Done, Some(Cut(reply.output, 65536)), None)
    else
      var text := if reply.error == "" then "Agent command failed" else reply.error;
      Row(reply.commandId, Failed, None, Some(Cut(text, 4000)))
  }

  /** A result finishes its row, unless it is finished, and the next row is sent. */
  lemma ResultSends(p: Panel, socket: Socket, reply: Reply, overdue: set<nat>, send: Send, i: nat)
    requires socket in p.bound && i < |p.rows| && p.rows[i].id == reply.commandId
    requires forall j :: 0 <= j < |p.rows| && j != i ==> p.rows[j].id != reply.commandId
    ensures var row := if p.rows[i].status == Done || p.rows[i].status == Failed then p.rows[i] else ResultRow(reply);
            Dispatched(p.(rows := p.rows[i := row]), overdue, send,
                       Handle(p, socket, Conclude(reply), false, overdue, send))
  {
    assert p.rows[i] in p.rows;
    assert Find(p.rows, reply.commandId) == Some(i);
    DispatchExactly(Settled(p, reply), overdue, send);
    assert Cut(DEFAULT_ERROR, MAX_ERROR) == DEFAULT_ERROR && Cut("", MAX_OUTPUT) == "";
  }

  /** An acknowledged command is running, unless it is finished; nothing is sent. */
  lemma AcknowledgementRuns(p: Panel, socket: Socket, id: Id, overdue: set<nat>, send: Send, i: nat)
    requires socket in p.bound && i < |p.rows| && p.rows[i].id == id
    requires forall j :: 0 <= j < |p.rows| && j != i ==> p.rows[j].id != id
    ensures var row := if p.rows[i].status == Done || p.rows[i].status == Failed then p.rows[i]
                       else p.rows[i].(status := Status.Running);
            Handle(p, socket, Acknowledge(id), false, overdue, send) == Sent(p.(rows := p.rows[i := row]), [])
  {
    assert p.rows[i] in p.rows;
    assert Find(p.rows, id) == Some(i);
  }

  /** Nothing comes of a message from a socket that has not said hello, or about an unknown command. */
  lemma OthersChangeNothing(p: Panel, socket: Socket, message: UpMessage, overdue: set<nat>, send: Send)
    requires !message.Hello?
    requires socket !in p.bound ||
             forall row <- p.rows :: row.id != (if message.Acknowledge? then message.id else message.reply.commandId)
    ensures Handle(p, socket, message, false, overdue, send) == Sent(p, [])
  {
  }

  /** Every row that was delivered or running is queued again, and nothing else changes. */
  ghost predicate Requeued(before: seq<Row>, after: seq<Row>) {
    && |after| == |before|
    && forall i :: 0 <= i < |before| ==>
         after[i] == if before[i].status == Delivered || before[i].status == Status.Running
                     then before[i].(status := Queued) else before[i]
  }

  lemma CloseRequeues(p: Panel, socket: Socket)
    ensures var q := Close(p, socket);
            && (socket !in p.bound ==> q == p)
            && (socket in p.bound ==> q.bound == p.bound - {socket})
            && (socket in p.bound && p.active == Some(socket) ==> q.active == None && Requeued(p.rows, q.rows))
            && (socket in p.bound && p.active != Some(socket) ==> q.active == p.active && q.rows == p.rows)
  {
  }

  lemma RebootRequeues(p: Panel)
    ensures Requeued(p.rows, Reboot(p).rows) && Reboot(p).active == None && Reboot(p).bound == {}
  {
  }

  // ---------- no command waits for nothing ----------

  /** Nobody is connected, a command is under way, or no command waits. */
  ghost predicate Busy(p: Panel) {
    p.active.None? || !NoneActive(p.rows) || forall row <- p.rows :: row.status != Queued
  }

  /** The sends of the event succeed. */
  predicate SendsSucceed(e: W.Event) {
    match e
    case Create(_, _, send) => send.ok
    case Handle(_, greeted, _, send) => greeted && send.ok
    case _ => true
  }

  lemma DispatchedIsBusy(p: Panel, overdue: set<nat>, send: Send, r: Sent)
    requires Dispatched(p, overdue, send, r) && send.ok && (p.active.None? || !NoneActive(p.rows) ==> Busy(p))
    ensures Busy(r.panel)
  {
    if p.active.Some? && NoneActive(p.rows) {
      if n: nat :| Due(p.rows, overdue, n) {
        assert r.panel.rows[n].status == Delivered;
      }
      else {
        hide Due;
        forall row | row in r.panel.rows ensures row.status != Queued {
          var k :| 0 <= k < |r.panel.rows| && r.panel.rows[k] == row;
        }
      }
    }
  }

  lemma EventKeepsBusy(w: W.World, e: W.Event)
    requires W.Enabled(w, e) && Busy(w.panel) && SendsSucceed(e)
    ensures Busy(W.Next(w, e).panel)
  {
    var p := w.panel;
    hide Dispatch;
    match e {
      case Create(id, overdue, send) =>
        CreateSends(p, id, overdue, send);
        var q := p.(rows := p.rows + [Row(id, Queued, None, None)]);
        hide Create;
        DispatchedIsBusy(q, overdue, send, Create(p, id, overdue, send)) by {
          hide Dispatched;
          if p.active.Some? && !NoneActive(q.rows) {
            assert Busy(q);
          }
        }
      case Handle(s, greeted, overdue, send) => HandleKeepsBusy(p, s, w.up[s][0], overdue, send);
      case _ =>
    }
  }

  lemma HandleKeepsBusy(p: Panel, socket: Socket, message: UpMessage, overdue: set<nat>, send: Send)
    requires Busy(p) && send.ok
    ensures Busy(Handle(p, socket, message, true, overdue, send).panel)
  {
    hide Dispatch;
    match message {
      case Hello =>
        var q := Panel(p.rows, Some(socket), p.bound + {socket});
        HelloSends(p, socket, true, overdue, send);
        DispatchedIsBusy(q, overdue, send, Handle(p, socket, Hello, true, overdue, send));
      case Acknowledge(id) =>
        if socket in p.bound && Find(p.rows, id).Some? {
          var i := Find(p.rows, id).value;
          AcknowledgedIsBusy(p, id, i);
        }
      case Conclude(reply) =>
        if socket in p.bound && Find(p.rows, reply.commandId).Some? {
          DispatchExactly(Settled(p, reply), overdue, send);
          DispatchedIsBusy(Settled(p, reply), overdue, send, Dispatch(Settled(p, reply), overdue, send));
        }
    }
  }

  lemma AcknowledgedIsBusy(p: Panel, id: Id, i: nat)
    requires Busy(p) && Find(p.rows, id) == Some(i)
    ensures Busy(PanelCommands.Acknowledged(p, id))
  {
    var rows := p.rows[i := MarkRunning(p.rows[i])];
    if PanelCommands.Finished(p.rows[i]) {
      assert rows == p.rows;
    } else {
      assert rows[i].status == Status.Running;
    }
  }

  /** In every run whose sends succeed, a command never waits while the agent is connected and has nothing to
      do, through any closes, restarts, deaths, late answers and expiries. */
  lemma {:induction false} NeverIdle(binding: string, states: seq<W.World>, events: seq<W.Event>, i: nat)
    requires W.IsRun(binding, states, events) && i < |states|
    requires forall k :: 0 <= k < i ==> SendsSucceed(events[k])
    ensures Busy(states[i].panel)
  {
    hide W.Next;
    hide W.Enabled;
    hide Busy;
    hide SendsSucceed;
    if i == 0 {
      StartIsBusy(binding);
    } else {
      NeverIdle(binding, states, events, i - 1);
      EventKeepsBusy(states[i - 1], events[i - 1]);
    }
  }

  lemma StartIsBusy(binding: string)
    ensures Busy(W.Start(binding).panel)
  {
  }
}
