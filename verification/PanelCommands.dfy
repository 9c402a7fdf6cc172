/** The panel's side of one binding: its rows of `server_commands` in creation order, the socket
    commands go to, and the sockets whose messages are accepted. Functions follow
    server-agent.store.ts and server-agent.service.ts; the class in ServerAgentService.dfy is
    proved against them. */
module PanelCommands {
  import opened Base
  import CommandCache
  import opened HostAgent

  type Id = CommandCache.Id
  type Reply = CommandCache.Reply
  type Socket = nat

  datatype Status = Queued | Delivered | Running | Done | Failed

  datatype Row = Row(id: Id, status: Status, output: Option<string>, error: Option<string>)

  datatype Panel = Panel(rows: seq<Row>, active: Option<Socket>, bound: set<Socket>)

  /** A panel after some calls, and the row numbers it tried to send on its active socket. */
  datatype Sent = Sent(panel: Panel, attempts: seq<nat>)

  const MAX_OUTPUT: nat := 65536
  const MAX_ERROR: nat := 4000
  const EXPIRED := "Command expired before delivery"
  const DEFAULT_ERROR := "Agent command failed"

  predicate Finished(row: Row) {
    row.status == Done || row.status == Failed
  }

  predicate Active(row: Row) {
    row.status == Delivered || row.status == Running
  }

  // ---------- the store ----------

  /** `getCommand`: the number of the row with this id. */
  function Find(rows: seq<Row>, id: Id): (r: Option<nat>)
    ensures r.Some? ==> r.value < |rows| && rows[r.value].id == id
    ensures r.None? ==> forall row <- rows :: row.id != id
  {
    if rows == [] then None
    else if rows[|rows| - 1].id == id then Some(|rows| - 1)
    else
      assert forall row <- rows :: row in rows[..|rows| - 1] || row == rows[|rows| - 1];
      Find(rows[..|rows| - 1], id)
  }

  /** The lowest row number with this property, if any. */
  function First(rows: seq<Row>, p: Row -> bool): (r: Option<nat>)
    ensures r.Some? ==> r.value < |rows| && p(rows[r.value]) && forall i :: 0 <= i < r.value ==> !p(rows[i])
    ensures r.None? ==> forall i :: 0 <= i < |rows| ==> !p(rows[i])
  {
    if rows == [] then None
    else
      match First(rows[..|rows| - 1], p)
      case Some(i) => Some(i)
      case None => if p(rows[|rows| - 1]) then Some(|rows| - 1) else None
  }

  function FirstQueued(rows: seq<Row>): Option<nat> {
    First(rows, (row: Row) => row.status == Queued)
  }

  function ActiveCommand(rows: seq<Row>): Option<nat> {
    First(rows, Active)
  }

  function Requeue(rows: seq<Row>): (r: seq<Row>)
    ensures |r| == |rows|
  {
    seq(|rows|, i requires 0 <= i < |rows| => if Active(rows[i]) then rows[i].(status := Queued) else rows[i])
  }

  function MarkDelivered(row: Row): Row {
    if row.status == Queued then row.(status := Delivered) else row
  }

  function MarkRunning(row: Row): Row {
    if row.status == Queued || row.status == Delivered then row.(status := Running) else row
  }

  /** `finishCommand`: an absent and an empty error text both mean success. */
  function FinishRow(row: Row, output: Option<string>, error: Option<string>): Row {
    if Finished(row) then row else
    Row(row.id,
        if error.Some? && error.value != "" then Failed else Done,
        if output.Some? then Some(Cut(output.value, MAX_OUTPUT)) else None,
        if error.Some? then Some(Cut(error.value, MAX_ERROR)) else None)
  }

  // ---------- the service ----------

  function Close(p: Panel, socket: Socket): Panel {
    if socket !in p.bound then p
    else if p.active != Some(socket) then p.(bound := p.bound - {socket})
    else Panel(Requeue(p.rows), None, p.bound - {socket})
  }

  function QueuedCount(rows: seq<Row>): nat {
    if rows == [] then 0
    else QueuedCount(rows[..|rows| - 1]) + (if rows[|rows| - 1].status == Queued then 1 else 0)
  }

  /** Taking one row out of the queue lowers the count: `dispatchNext` cannot recurse for ever. */
  lemma {:induction false} FinishingLowersCount(rows: seq<Row>, i: nat, row: Row)
    requires i < |rows| && rows[i].status == Queued && row.status != Queued
    ensures QueuedCount(rows[i := row]) == QueuedCount(rows) - 1
  {
    var n := |rows| - 1;
    if i == n {
      assert rows[i := row][..n] == rows[..n];
    } else {
      FinishingLowersCount(rows[..n], i, row);
      assert rows[i := row][..n] == rows[..n][i := row];
    }
  }

  /** `dispatchNext`; `expired` holds the rows older than five minutes. */
  function Dispatch(p: Panel, expired: set<nat>, send: Send): Sent
    decreases QueuedCount(p.rows)
  {
    if p.active.None? || ActiveCommand(p.rows).Some? then Sent(p, [])
    else match FirstQueued(p.rows)
      case None => Sent(p, [])
      case Some(i) =>
        if i in expired then
          var row := FinishRow(p.rows[i], None, Some(EXPIRED));
          FinishingLowersCount(p.rows, i, row);
          Dispatch(p.(rows := p.rows[i := row]), expired, send)
        else if send.ok then Sent(p.(rows := p.rows[i := MarkDelivered(p.rows[i])]), [i])
        else Sent(Close(p, p.active.value), [i])
  }

  function Create(p: Panel, id: Id, expired: set<nat>, send: Send): Sent {
    Dispatch(p.(rows := p.rows + [Row(id, Queued, None, None)]), expired, send)
  }

  /** `hello` with a valid token; `greeted` says whether sending `hello.accepted` succeeded. */
  function Greet(p: Panel, socket: Socket, greeted: bool, expired: set<nat>, send: Send): Sent {
    var q := p.(active := Some(socket), bound := p.bound + {socket});
    if greeted then Dispatch(q, expired, send) else Sent(q, [])
  }

  function Acknowledged(p: Panel, id: Id): Panel {
    match Find(p.rows, id)
    case None => p
    case Some(i) => p.(rows := p.rows[i := MarkRunning(p.rows[i])])
  }

  /** The JSON field of an agent string: `omitempty` drops an empty one. */
  function OmitEmpty(text: string): Option<string> {
    if text == "" then None else Some(text)
  }

  function Default(text: Option<string>, fallback: string): string {
    if text.Some? then text.value else fallback
  }

  /** The row after `complete` or `fail` handled this reply. */
  function ConcludeRow(row: Row, reply: Reply): Row {
    if reply.kind == CommandCache.CommandCompleted then
      FinishRow(row, Some(Default(OmitEmpty(reply.output), "")), None)
    else
      FinishRow(row, None, Some(Default(OmitEmpty(reply.error), DEFAULT_ERROR)))
  }

  /** The row a result names, finished; nothing is dispatched yet. */
  function Settled(p: Panel, reply: Reply): Panel {
    match Find(p.rows, reply.commandId)
    case None => p
    case Some(i) => p.(rows := p.rows[i := ConcludeRow(p.rows[i], reply)])
  }

  function Concluded(p: Panel, reply: Reply, expired: set<nat>, send: Send): Sent {
    if Find(p.rows, reply.commandId).None? then Sent(p, []) else Dispatch(Settled(p, reply), expired, send)
  }

  /** `handle`: a message from a socket that has not said hello is dropped. */
  function Handle(p: Panel, socket: Socket, message: UpMessage, greeted: bool, expired: set<nat>, send: Send): Sent {
    if message.Hello? then Greet(p, socket, greeted, expired, send)
    else if socket !in p.bound then Sent(p, [])
    else match message
      case Hello => Sent(p, [])
      case Acknowledge(id) => Sent(Acknowledged(p, id), [])
      case Conclude(reply) => Concluded(p, reply, expired, send)
  }

  /** The socket a call sends on, if it sends. */
  function Target(p: Panel, socket: Socket, message: UpMessage): Option<Socket> {
    if message.Hello? then Some(socket) else p.active
  }

  lemma {:induction false} DispatchSocket(p: Panel, expired: set<nat>, send: Send)
    ensures var r := Dispatch(p, expired, send);
            && (r.panel.active == p.active || r.panel.active == None)
            && (r.attempts != [] ==> p.active.Some?)
    decreases QueuedCount(p.rows)
  {
    if p.active.Some? && ActiveCommand(p.rows).None? && FirstQueued(p.rows).Some? {
      var i := FirstQueued(p.rows).value;
      if i in expired {
        var row := FinishRow(p.rows[i], None, Some(EXPIRED));
        FinishingLowersCount(p.rows, i, row);
        DispatchSocket(p.(rows := p.rows[i := row]), expired, send);
      }
    }
  }

  lemma HandleSocket(p: Panel, socket: Socket, message: UpMessage, greeted: bool, expired: set<nat>, send: Send)
    ensures var r := Handle(p, socket, message, greeted, expired, send);
            && (r.panel.active.Some? ==> r.panel.active == Target(p, socket, message))
            && (r.attempts != [] ==> Target(p, socket, message).Some?)
  {
    match message {
      case Hello => DispatchSocket(p.(active := Some(socket), bound := p.bound + {socket}), expired, send);
      case Acknowledge(_) =>
      case Conclude(reply) =>
        if Find(p.rows, reply.commandId).Some? {
          DispatchSocket(Settled(p, reply), expired, send);
        }
    }
  }

  /** A new panel process: the constructor requeues, and no socket is known. */
  function Reboot(p: Panel): Panel {
    Panel(Requeue(p.rows), None, {})
  }

  // ---------- calls that the process does not live to finish ----------

  /** `dispatchNext` when the process dies after `n` expired rows, or before the next send. Dying after a send
      is a whole dispatch and then a new process: whether the row was marked by then makes no difference. */
  function Expire(p: Panel, expired: set<nat>, n: nat): Panel
    decreases n
  {
    if n == 0 || p.active.None? || ActiveCommand(p.rows).Some? then p
    else match FirstQueued(p.rows)
      case None => p
      case Some(i) =>
        if i in expired then
          Expire(p.(rows := p.rows[i := FinishRow(p.rows[i], None, Some(EXPIRED))]), expired, n - 1)
        else p
  }

  function CreateCut(p: Panel, id: Id, expired: set<nat>, n: nat): Panel {
    Expire(p.(rows := p.rows + [Row(id, Queued, None, None)]), expired, n)
  }

  function HandleCut(p: Panel, socket: Socket, message: UpMessage, expired: set<nat>, n: nat): Panel {
    if message.Hello? then Expire(p.(active := Some(socket), bound := p.bound + {socket}), expired, n)
    else if socket !in p.bound then p
    else match message
      case Hello => p
      case Acknowledge(id) => Acknowledged(p, id)
      case Conclude(reply) => if Find(p.rows, reply.commandId).None? then p else Expire(Settled(p, reply), expired, n)
  }

  lemma ExpiredRow(row: Row)
    ensures FinishRow(row, None, Some(EXPIRED)).status != Queued && FinishRow(row, None, Some(EXPIRED)).id == row.id
  {
  }

  lemma MarkingIsUndone(p: Panel, i: nat)
    requires i < |p.rows| && p.rows[i].status == Queued
    ensures Reboot(p.(rows := p.rows[i := MarkDelivered(p.rows[i])])) == Reboot(p)
  {
    assert Requeue(p.rows[i := MarkDelivered(p.rows[i])]) == Requeue(p.rows);
  }

  /** So it is: a dispatch that got as far as sending, and then a new process. */
  lemma {:induction false} SentOrMarked(p: Panel, expired: set<nat>, wire: bool)
    ensures var r := Dispatch(p, expired, Send(true, wire));
            r.attempts != [] ==> Reboot(r.panel) == Reboot(Expire(p, expired, QueuedCount(p.rows)))
    decreases QueuedCount(p.rows)
  {
    hide Reboot;
    hide FinishRow;
    hide MarkDelivered;
    var send := Send(true, wire);
    if p.active.Some? && ActiveCommand(p.rows).None? && FirstQueued(p.rows).Some? {
      var i := FirstQueued(p.rows).value;
      if i in expired {
        var row := FinishRow(p.rows[i], None, Some(EXPIRED));
        assert row.status != Queued by {
          ExpiredRow(p.rows[i]);
        }
        FinishingLowersCount(p.rows, i, row);
        hide QueuedCount;
        SentOrMarked(p.(rows := p.rows[i := row]), expired, wire);
      } else {
        MarkingIsUndone(p, i);
      }
    }
  }

  // ---------- what every call keeps ----------

  /** `high` is one more than the highest row ever sent: rows below the last sent one are finished,
      only the last sent one can be delivered or running, and no later row has left the queue
      except by expiry. */
  ghost predicate QueueOk(rows: seq<Row>, high: nat) {
    && high <= |rows|
    && (forall i :: 0 <= i < high - 1 ==> Finished(rows[i]))
    && (forall i :: 0 <= i < |rows| && Active(rows[i]) ==> i == high - 1)
    && (forall i :: high <= i < |rows| ==> rows[i].status == Queued || rows[i].status == Failed)
  }

  function High(attempts: seq<nat>): nat {
    if attempts == [] then 0 else attempts[|attempts| - 1] + 1
  }

  function Raise(high: nat, attempts: seq<nat>): nat {
    if attempts == [] then high else High(attempts)
  }

  /** Rows keep their number and id, and a finished row never changes again. */
  ghost predicate RowsEvolve(before: seq<Row>, after: seq<Row>) {
    && |before| <= |after|
    && forall i :: 0 <= i < |before| ==>
         after[i].id == before[i].id && (Finished(before[i]) ==> after[i] == before[i])
  }

  /** Between the two states no row has become successful. */
  ghost predicate NoNewSuccess(before: seq<Row>, after: seq<Row>) {
    forall i :: 0 <= i < |after| && after[i].status == Done ==> i < |before| && before[i].status == Done
  }

  ghost predicate KeepsQueue(high: nat, before: Panel, result: Sent) {
    && |result.attempts| <= 1
    && (forall n <- result.attempts :: high - 1 <= n < |result.panel.rows|)
    && high <= Raise(high, result.attempts)
    && QueueOk(result.panel.rows, Raise(high, result.attempts))
    && RowsEvolve(before.rows, result.panel.rows)
    && |result.panel.rows| == |before.rows|
    && NoNewSuccess(before.rows, result.panel.rows)
  }

  lemma CloseKeeps(p: Panel, socket: Socket, high: nat)
    requires QueueOk(p.rows, high)
    ensures QueueOk(Close(p, socket).rows, high) && RowsEvolve(p.rows, Close(p, socket).rows)
    ensures |Close(p, socket).rows| == |p.rows| && NoNewSuccess(p.rows, Close(p, socket).rows)
  {
  }

  lemma NextToSend(rows: seq<Row>, high: nat)
    requires QueueOk(rows, high) && ActiveCommand(rows).None? && FirstQueued(rows).Some?
    ensures var i := FirstQueued(rows).value;
            && high - 1 <= i < |rows| && rows[i].status == Queued
            && (forall j :: 0 <= j < i ==> Finished(rows[j]))
            && (forall j :: 0 <= j < |rows| ==> !Active(rows[j]))
  {
  }

  lemma OneRowChanges(p: Panel, i: nat, row: Row, high: nat, attempts: seq<nat>)
    requires QueueOk(p.rows, high) && i < |p.rows| && high - 1 <= i && p.rows[i].status == Queued
    requires row.id == p.rows[i].id
    requires forall j :: 0 <= j < i ==> Finished(p.rows[j])
    requires forall j :: 0 <= j < |p.rows| ==> !Active(p.rows[j])
    requires (row.status == Delivered && attempts == [i]) || (row.status == Failed && attempts == [])
    ensures KeepsQueue(high, p, Sent(p.(rows := p.rows[i := row]), attempts))
  {
  }

  lemma KeepsTransitive(high: nat, a: Panel, b: Panel, c: Sent)
    requires KeepsQueue(high, a, Sent(b, [])) && KeepsQueue(high, b, c)
    ensures KeepsQueue(high, a, c)
  {
  }

  /** A command is only sent if it is the last one sent, or everything sent before is finished. */
  lemma {:induction false} DispatchKeeps(p: Panel, expired: set<nat>, send: Send, high: nat)
    requires QueueOk(p.rows, high)
    ensures KeepsQueue(high, p, Dispatch(p, expired, send))
    ensures Dispatch(p, expired, send).attempts != [] ==> p.active.Some?
    decreases QueuedCount(p.rows)
  {
    if p.active.Some? && ActiveCommand(p.rows).None? && FirstQueued(p.rows).Some? {
      var i := FirstQueued(p.rows).value;
      NextToSend(p.rows, high);
      if i in expired {
        var row := FinishRow(p.rows[i], None, Some(EXPIRED));
        FinishingLowersCount(p.rows, i, row);
        OneRowChanges(p, i, row, high, []);
        var q := p.(rows := p.rows[i := row]);
        DispatchKeeps(q, expired, send, high);
        KeepsTransitive(high, p, q, Dispatch(q, expired, send));
      } else if send.ok {
        OneRowChanges(p, i, MarkDelivered(p.rows[i]), high, [i]);
      } else {
        CloseKeeps(p, p.active.value, i + 1);
      }
    }
  }

  // ---------- messages ----------

  /** An answer about a row that was never sent would break the queue; the agent never gives one. */
  ghost predicate AnswersSent(p: Panel, message: UpMessage, high: nat) {
    match message
    case Hello => true
    case Acknowledge(id) => Find(p.rows, id).Some? ==> Find(p.rows, id).value < high
    case Conclude(reply) => Find(p.rows, reply.commandId).Some? ==> Find(p.rows, reply.commandId).value < high
  }

  lemma SentRowChanges(p: Panel, i: nat, row: Row, high: nat)
    requires QueueOk(p.rows, high) && i < high && row.id == p.rows[i].id
    requires Finished(p.rows[i]) ==> row == p.rows[i]
    ensures QueueOk(p.rows[i := row], high) && RowsEvolve(p.rows, p.rows[i := row])
  {
  }

  lemma AcknowledgedKeeps(p: Panel, id: Id, high: nat)
    requires QueueOk(p.rows, high) && AnswersSent(p, Acknowledge(id), high)
    ensures KeepsQueue(high, p, Sent(Acknowledged(p, id), []))
  {
    if Find(p.rows, id).Some? {
      var i := Find(p.rows, id).value;
      SentRowChanges(p, i, MarkRunning(p.rows[i]), high);
    }
  }

  /** Every message keeps the queue in order; a row becomes successful only on a completed reply. */
  lemma HandleKeeps(p: Panel, socket: Socket, message: UpMessage, greeted: bool, expired: set<nat>, send: Send,
                    high: nat)
    requires QueueOk(p.rows, high) && AnswersSent(p, message, high)
    ensures var r := Handle(p, socket, message, greeted, expired, send);
            && |r.attempts| <= 1
            && (forall n <- r.attempts :: high - 1 <= n < |r.panel.rows|)
            && high <= Raise(high, r.attempts)
            && QueueOk(r.panel.rows, Raise(high, r.attempts))
            && RowsEvolve(p.rows, r.panel.rows) && |r.panel.rows| == |p.rows|
            && (r.attempts != [] ==> message.Hello? || p.active.Some?)
            && (message.Conclude? || NoNewSuccess(p.rows, r.panel.rows))
  {
    match message {
      case Hello =>
        if greeted {
          DispatchKeeps(p.(active := Some(socket), bound := p.bound + {socket}), expired, send, high);
        }
      case Acknowledge(id) => AcknowledgedKeeps(p, id, high);
      case Conclude(reply) =>
        if socket in p.bound && Find(p.rows, reply.commandId).Some? {
          var i := Find(p.rows, reply.commandId).value;
          SentRowChanges(p, i, ConcludeRow(p.rows[i], reply), high);
          DispatchKeeps(Settled(p, reply), expired, send, high);
        }
    }
  }

  lemma {:induction false} ExpireKeeps(p: Panel, expired: set<nat>, n: nat, high: nat)
    requires QueueOk(p.rows, high)
    ensures KeepsQueue(high, p, Sent(Expire(p, expired, n), []))
    decreases n
  {
    if n > 0 && p.active.Some? && ActiveCommand(p.rows).None? && FirstQueued(p.rows).Some? {
      var i := FirstQueued(p.rows).value;
      NextToSend(p.rows, high);
      if i in expired {
        var row := FinishRow(p.rows[i], None, Some(EXPIRED));
        OneRowChanges(p, i, row, high, []);
        var q := p.(rows := p.rows[i := row]);
        ExpireKeeps(q, expired, n - 1, high);
        KeepsTransitive(high, p, q, Sent(Expire(q, expired, n - 1), []));
      }
    }
  }

  /** A message that is not handled to its end keeps the queue in order as well. */
  lemma HandleCutKeeps(p: Panel, socket: Socket, message: UpMessage, expired: set<nat>, n: nat, high: nat)
    requires QueueOk(p.rows, high) && AnswersSent(p, message, high)
    ensures var q := Reboot(HandleCut(p, socket, message, expired, n));
            && QueueOk(q.rows, high) && RowsEvolve(p.rows, q.rows) && |q.rows| == |p.rows|
            && (message.Conclude? || NoNewSuccess(p.rows, q.rows))
  {
    match message {
      case Hello => ExpireKeeps(p.(active := Some(socket), bound := p.bound + {socket}), expired, n, high);
      case Acknowledge(id) => AcknowledgedKeeps(p, id, high);
      case Conclude(reply) =>
        if socket in p.bound && Find(p.rows, reply.commandId).Some? {
          var i := Find(p.rows, reply.commandId).value;
          SentRowChanges(p, i, ConcludeRow(p.rows[i], reply), high);
          ExpireKeeps(Settled(p, reply), expired, n, high);
        }
    }
    RebootKeeps(HandleCut(p, socket, message, expired, n), high);
  }

  lemma EvolveTransitive(a: seq<Row>, b: seq<Row>, c: seq<Row>)
    requires RowsEvolve(a, b) && RowsEvolve(b, c) && NoNewSuccess(a, b) && NoNewSuccess(b, c)
    ensures RowsEvolve(a, c) && NoNewSuccess(a, c)
  {
  }

  lemma CreateCutKeeps(p: Panel, id: Id, expired: set<nat>, n: nat, high: nat)
    requires QueueOk(p.rows, high)
    ensures var q := Reboot(CreateCut(p, id, expired, n));
            && QueueOk(q.rows, high) && RowsEvolve(p.rows, q.rows) && NoNewSuccess(p.rows, q.rows)
            && |q.rows| == |p.rows| + 1 && q.rows[|p.rows|].id == id
  {
    var q := p.(rows := p.rows + [Row(id, Queued, None, None)]);
    assert RowsEvolve(p.rows, q.rows) && NoNewSuccess(p.rows, q.rows) && q.rows[|p.rows|].id == id;
    assert QueueOk(q.rows, high);
    var s := Expire(q, expired, n);
    hide Expire;
    hide Reboot;
    hide Requeue;
    ExpireKeeps(q, expired, n, high);
    RebootKeeps(s, high);
    hide QueueOk;
    EvolveTransitive(q.rows, s.rows, Reboot(s).rows);
    EvolveTransitive(p.rows, q.rows, Reboot(s).rows);
  }

  /** A failure the agent reports never reads as a success, although an absent and an empty error text both
      mean success to the store: the agent drops an empty field, and the panel puts its own text there. Had
      either of the two passed the text on as it is, a failure without a text would have been stored as a
      success. */
  lemma FailureIsNeverSuccess(row: Row, reply: Reply)
    requires reply.kind != CommandCache.CommandCompleted && !Finished(row)
    ensures ConcludeRow(row, reply).status == Failed
    ensures reply.error == "" <==> FinishRow(row, None, Some(reply.error)).status == Done
    ensures reply.error == "" <==> FinishRow(row, None, OmitEmpty(reply.error)).status == Done
  {
  }

  /** Only the row a completed reply names becomes successful, with its output. */
  ghost predicate OnlyReplySucceeds(before: seq<Row>, after: seq<Row>, reply: Reply) {
    forall i :: 0 <= i < |after| && after[i].status == Done ==>
      && i < |before|
      && (after[i] == before[i]
          || (reply.kind == CommandCache.CommandCompleted && before[i].id == reply.commandId && !Finished(before[i])
              && after[i] == Row(reply.commandId, Done, Some(Cut(reply.output, MAX_OUTPUT)), None)))
  }

  lemma SettledSuccess(p: Panel, reply: Reply, after: seq<Row>)
    requires RowsEvolve(Settled(p, reply).rows, after) && NoNewSuccess(Settled(p, reply).rows, after)
    ensures OnlyReplySucceeds(p.rows, after, reply)
  {
    if Find(p.rows, reply.commandId).Some? {
      var k := Find(p.rows, reply.commandId).value;
      if reply.kind != CommandCache.CommandCompleted && !Finished(p.rows[k]) {
        FailureIsNeverSuccess(p.rows[k], reply);
      }
    }
  }

  /** The rows that become successful when a result is handled, to the end or not. */
  lemma SuccessComesFromReply(p: Panel, socket: Socket, reply: Reply, greeted: bool, expired: set<nat>, send: Send,
                              n: nat, high: nat)
    requires QueueOk(p.rows, high) && AnswersSent(p, Conclude(reply), high)
    ensures OnlyReplySucceeds(p.rows, Handle(p, socket, Conclude(reply), greeted, expired, send).panel.rows, reply)
    ensures OnlyReplySucceeds(p.rows, Reboot(HandleCut(p, socket, Conclude(reply), expired, n)).rows, reply)
  {
    if socket in p.bound && Find(p.rows, reply.commandId).Some? {
      var k := Find(p.rows, reply.commandId).value;
      SentRowChanges(p, k, ConcludeRow(p.rows[k], reply), high);
      DispatchKeeps(Settled(p, reply), expired, send, high);
      SettledSuccess(p, reply, Dispatch(Settled(p, reply), expired, send).panel.rows);
      ExpireKeeps(Settled(p, reply), expired, n, high);
      RebootKeeps(Expire(Settled(p, reply), expired, n), high);
      SettledSuccess(p, reply, Reboot(Expire(Settled(p, reply), expired, n)).rows);
    }
  }

  // ---------- what expires ----------

  /** Whatever is finished now and was not before has expired. */
  ghost predicate ExpiresOnly(before: seq<Row>, after: seq<Row>, expired: set<nat>) {
    && |after| == |before|
    && forall i :: 0 <= i < |before| && Finished(after[i]) && !Finished(before[i]) ==>
         i in expired && after[i] == Row(before[i].id, Failed, None, Some(EXPIRED))
  }

  /** Expiry accumulates. */
  lemma ExpiresTransitive(a: seq<Row>, b: seq<Row>, c: seq<Row>, expired: set<nat>)
    requires RowsEvolve(a, b) && RowsEvolve(b, c) && ExpiresOnly(a, b, expired) && ExpiresOnly(b, c, expired)
    ensures ExpiresOnly(a, c, expired)
  {
  }

  lemma ExpiringOne(p: Panel, i: nat, expired: set<nat>)
    requires i < |p.rows| && p.rows[i].status == Queued && i in expired
    ensures var row := FinishRow(p.rows[i], None, Some(EXPIRED));
            row.status == Failed && RowsEvolve(p.rows, p.rows[i := row])
            && ExpiresOnly(p.rows, p.rows[i := row], expired)
  {
    assert Cut(EXPIRED, MAX_ERROR) == EXPIRED;
  }

  /** A dispatch finishes rows by expiry only, and a row it tries to send is not finished afterwards. */
  lemma {:induction false} DispatchExpiresOnly(p: Panel, expired: set<nat>, send: Send)
    ensures var r := Dispatch(p, expired, send);
            && RowsEvolve(p.rows, r.panel.rows) && ExpiresOnly(p.rows, r.panel.rows, expired)
            && forall n <- r.attempts :: n < |r.panel.rows| && !Finished(r.panel.rows[n])
    decreases QueuedCount(p.rows)
  {
    if p.active.Some? && ActiveCommand(p.rows).None? && FirstQueued(p.rows).Some? {
      var i := FirstQueued(p.rows).value;
      if i in expired {
        var row := FinishRow(p.rows[i], None, Some(EXPIRED));
        ExpiringOne(p, i, expired);
        FinishingLowersCount(p.rows, i, row);
        var q := p.(rows := p.rows[i := row]);
        DispatchExpiresOnly(q, expired, send);
        ExpiresTransitive(p.rows, q.rows, Dispatch(q, expired, send).panel.rows, expired);
      }
    }
  }

  lemma {:induction false} ExpireExpiresOnly(p: Panel, expired: set<nat>, n: nat)
    ensures var q := Expire(p, expired, n);
            RowsEvolve(p.rows, q.rows) && ExpiresOnly(p.rows, q.rows, expired)
    decreases n
  {
    hide QueuedCount;
    if n > 0 && p.active.Some? && ActiveCommand(p.rows).None? && FirstQueued(p.rows).Some? {
      var i := FirstQueued(p.rows).value;
      if i in expired {
        ExpiringOne(p, i, expired);
        var q := p.(rows := p.rows[i := FinishRow(p.rows[i], None, Some(EXPIRED))]);
        ExpireExpiresOnly(q, expired, n - 1);
        hide ExpiresOnly;
        hide RowsEvolve;
        ExpiresTransitive(p.rows, q.rows, Expire(q, expired, n - 1).rows, expired);
      }
    }
  }

  lemma RebootExpiresOnly(p: Panel, expired: set<nat>, n: nat)
    ensures var q := Reboot(Expire(p, expired, n));
            RowsEvolve(p.rows, q.rows) && ExpiresOnly(p.rows, q.rows, expired)
  {
    var q := Expire(p, expired, n);
    ExpireExpiresOnly(p, expired, n);
    hide Expire;
    assert RowsEvolve(q.rows, Reboot(q).rows) && ExpiresOnly(q.rows, Reboot(q).rows, expired);
    ExpiresTransitive(p.rows, q.rows, Reboot(q).rows, expired);
  }

  /** What a call with this message finishes: the row its result names, and what expires. */
  ghost predicate FinishesOnly(before: seq<Row>, after: seq<Row>, message: UpMessage, expired: set<nat>) {
    && |after| == |before|
    && forall i :: 0 <= i < |before| && Finished(after[i]) && !Finished(before[i]) ==>
         after[i].id == before[i].id &&
         ((message.Conclude? && message.reply.commandId == before[i].id)
          || (i in expired && after[i] == Row(before[i].id, Failed, None, Some(EXPIRED))))
  }

  lemma HandleFinishesOnly(p: Panel, socket: Socket, message: UpMessage, greeted: bool, expired: set<nat>, send: Send)
    ensures var r := Handle(p, socket, message, greeted, expired, send);
            && FinishesOnly(p.rows, r.panel.rows, message, expired)
            && forall n <- r.attempts :: n < |r.panel.rows| && !Finished(r.panel.rows[n])
  {
    match message {
      case Hello => DispatchExpiresOnly(p.(active := Some(socket), bound := p.bound + {socket}), expired, send);
      case Acknowledge(_) =>
      case Conclude(reply) => DispatchExpiresOnly(Settled(p, reply), expired, send);
    }
  }

  lemma HandleCutFinishesOnly(p: Panel, socket: Socket, message: UpMessage, expired: set<nat>, n: nat)
    ensures FinishesOnly(p.rows, Reboot(HandleCut(p, socket, message, expired, n)).rows, message, expired)
  {
    hide Expire;
    match message {
      case Hello => RebootExpiresOnly(p.(active := Some(socket), bound := p.bound + {socket}), expired, n);
      case Acknowledge(_) =>
      case Conclude(reply) => RebootExpiresOnly(Settled(p, reply), expired, n);
    }
  }

  lemma CreateKeeps(p: Panel, id: Id, expired: set<nat>, send: Send, high: nat)
    requires QueueOk(p.rows, high)
    ensures var r := Create(p, id, expired, send);
            && |r.attempts| <= 1
            && (forall n <- r.attempts :: high - 1 <= n < |r.panel.rows|)
            && high <= Raise(high, r.attempts)
            && QueueOk(r.panel.rows, Raise(high, r.attempts))
            && RowsEvolve(p.rows, r.panel.rows) && NoNewSuccess(p.rows, r.panel.rows)
            && |r.panel.rows| == |p.rows| + 1 && r.panel.rows[|p.rows|].id == id
            && (r.attempts != [] ==> p.active.Some?)
  {
    var q := p.(rows := p.rows + [Row(id, Queued, None, None)]);
    DispatchKeeps(q, expired, send, high);
    assert RowsEvolve(p.rows, q.rows);
  }

  lemma RebootKeeps(p: Panel, high: nat)
    requires QueueOk(p.rows, high)
    ensures QueueOk(Reboot(p).rows, high) && RowsEvolve(p.rows, Reboot(p).rows)
    ensures |Reboot(p).rows| == |p.rows| && NoNewSuccess(p.rows, Reboot(p).rows)
  {
  }
}
