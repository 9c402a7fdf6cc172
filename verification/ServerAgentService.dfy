/** `ServerAgentService` with the command part of `ServerAgentStore`, updated in place, for all bindings.
    Every method is proved to do to its own binding what the functions of PanelCommands.dfy say, and
    what it does to the others. A socket may say hello for a second binding; the first one then keeps
    sending on a socket whose messages and whose closing count for the second. */
module ServerAgentServices {
  import opened Base
  import CommandCache
  import opened HostAgent
  import opened PanelCommands

  /** What a dispatch needs from outside: which rows are older than five minutes, and the send. */
  datatype Circumstance = Circumstance(expired: set<nat>, send: Send)

  class ServerAgentService {
    /** `server_commands`, partitioned by `binding_id`, each part in order of `created_at`. */
    var commands: map<string, seq<Row>>
    var sockets: map<string, Socket>
    var bindings: map<Socket, string>
    /** The command envelopes handed to `socket.send`, with their sockets, in order. */
    var outbox: seq<(Socket, Id)>

    function Rows(binding: string): seq<Row>
      reads this`commands
    {
      if binding in commands then commands[binding] else []
    }

    ghost function View(binding: string): Panel
      reads this
    {
      Panel(Rows(binding),
            if binding in sockets then Some(sockets[binding]) else None,
            set s | s in bindings && bindings[s] == binding)
    }

    /** Every socket says hello for one binding only. */
    ghost predicate Ok()
      reads this
    {
      forall b <- sockets :: sockets[b] in bindings && bindings[sockets[b]] == b
    }

    ghost function Envelopes(socket: Option<Socket>, rows: seq<Row>, attempts: seq<nat>): seq<(Socket, Id)> {
      if socket.None? then []
      else seq(|attempts|, i requires 0 <= i < |attempts| =>
             (socket.value, if attempts[i] < |rows| then rows[attempts[i]].id else ""))
    }

    /** `binding` has changed to `result`, and exactly its attempts were sent on `socket`. No other binding
        has changed, except that a failed send closes the socket for the binding it is bound to. */
    twostate predicate Became(binding: string, result: Sent, socket: Option<Socket>, send: Send)
      reads this
    {
      && View(binding) == result.panel
      && outbox == old(outbox) + Envelopes(socket, result.panel.rows, result.attempts)
      && forall other :: other != binding ==>
           View(other) == if result.attempts != [] && !send.ok && Bound(old(bindings), socket, other)
                          then Close(old(View(other)), socket.value) else old(View(other))
    }

    static predicate Bound(bindings: map<Socket, string>, socket: Option<Socket>, binding: string) {
      socket.Some? && socket.value in bindings && bindings[socket.value] == binding
    }

    /** The constructor requeues what an earlier process left delivered or running. */
    constructor (stored: map<string, seq<Row>>)
      ensures forall b :: View(b) == Reboot(Panel(if b in stored then stored[b] else [], None, {}))
      ensures outbox == [] && Ok()
    {
      commands := map b | b in stored :: Requeue(stored[b]);
      sockets, bindings, outbox := map[], map[], [];
    }

    method SetRow(binding: string, i: nat, row: Row)
      requires i < |Rows(binding)|
      modifies `commands
      ensures Rows(binding) == old(Rows(binding))[i := row]
      ensures forall other :: other != binding ==> Rows(other) == old(Rows(other))
    {
      commands := commands[binding := commands[binding][i := row]];
    }

    method RequeueActive(binding: string)
      modifies `commands
      ensures Rows(binding) == Requeue(old(Rows(binding)))
      ensures forall other :: other != binding ==> Rows(other) == old(Rows(other))
    {
      if binding in commands {
        commands := commands[binding := Requeue(commands[binding])];
      }
    }

    method CloseSocket(socket: Socket)
      modifies this
      ensures outbox == old(outbox) && (old(Ok()) ==> Ok())
      ensures forall b :: View(b) == if socket in old(bindings) && old(bindings)[socket] == b
                                     then Close(old(View(b)), socket) else old(View(b))
    {
      if socket !in bindings {
        return;
      }
      var binding := bindings[socket];
      bindings := bindings - {socket};
      if binding !in sockets || sockets[binding] != socket {
        return;
      }
      sockets := sockets - {binding};
      RequeueActive(binding);
    }

    method DispatchNext(binding: string, c: Circumstance)
      modifies this
      ensures old(Ok()) ==> Ok()
      ensures Became(binding, Dispatch(old(View(binding)), c.expired, c.send), old(View(binding)).active, c.send)
      decreases QueuedCount(Rows(binding))
    {
      var rows := Rows(binding);
      if binding !in sockets || ActiveCommand(rows).Some? {
        return;
      }
      var socket := sockets[binding];
      match FirstQueued(rows) {
        case None =>
        case Some(i) =>
          if i in c.expired {
            var row := FinishRow(rows[i], None, Some(EXPIRED));
            FinishingLowersCount(rows, i, row);
            SetRow(binding, i, row);
            assert View(binding) == old(View(binding)).(rows := rows[i := row]);
            DispatchNext(binding, c);
            return;
          }
          outbox := outbox + [(socket, rows[i].id)];
          if c.send.ok {
            SetRow(binding, i, MarkDelivered(rows[i]));
          } else {
            CloseSocket(socket);
          }
      }
    }

    /** `createCommand`: a new row behind all others, then a dispatch. */
    method CreateCommand(binding: string, id: Id, c: Circumstance)
      modifies this
      ensures old(Ok()) ==> Ok()
      ensures Became(binding, Create(old(View(binding)), id, c.expired, c.send), old(View(binding)).active, c.send)
    {
      hide PanelCommands.Dispatch;
      commands := commands[binding := Rows(binding) + [Row(id, Queued, None, None)]];
      assert View(binding) == old(View(binding)).(rows := old(View(binding)).rows + [Row(id, Queued, None, None)]);
      DispatchNext(binding, c);
    }

    /** `hello` with a token of `binding`. If the socket was bound to another binding, that one loses it
        from the sockets it accepts messages from, but not as the socket it sends on. */
    method Hello(socket: Socket, binding: string, greeted: bool, c: Circumstance)
      modifies this
      ensures old(Ok()) && (socket in old(bindings) ==> old(bindings)[socket] == binding) ==> Ok()
      ensures var result := Greet(old(View(binding)), socket, greeted, c.expired, c.send);
              && View(binding) == result.panel
              && outbox == old(outbox) + Envelopes(Some(socket), result.panel.rows, result.attempts)
      ensures forall other :: other != binding ==>
                View(other) == old(View(other)).(bound := old(View(other)).bound - {socket})
    {
      sockets := sockets[binding := socket];
      bindings := bindings[socket := binding];
      ghost var p := old(View(binding));
      assert View(binding) == p.(active := Some(socket), bound := p.bound + {socket});
      forall other | other != binding
        ensures View(other) == old(View(other)).(bound := old(View(other)).bound - {socket})
      {
      }
      if greeted {
        DispatchNext(binding, c);
      }
    }

    method Ack(binding: string, id: Id)
      modifies `commands
      ensures old(Ok()) ==> Ok()
      ensures Became(binding, Sent(PanelCommands.Acknowledged(old(View(binding)), id), []), None, Send(true, true))
    {
      match Find(Rows(binding), id) {
        case None =>
        case Some(i) => SetRow(binding, i, MarkRunning(Rows(binding)[i]));
      }
    }

    /** `complete` and `fail`. */
    method Conclude(binding: string, reply: Reply, c: Circumstance)
      modifies this
      ensures old(Ok()) ==> Ok()
      ensures Became(binding, Concluded(old(View(binding)), reply, c.expired, c.send), old(View(binding)).active,
                     c.send)
    {
      match Find(Rows(binding), reply.commandId) {
        case None =>
        case Some(i) =>
          SetRow(binding, i, ConcludeRow(Rows(binding)[i], reply));
          assert View(binding) == old(View(binding)).(rows := Rows(binding));
          DispatchNext(binding, c);
      }
    }

    /** `handle` for the agent's messages after hello: one for an unknown socket changes nothing. */
    method HandleMessage(socket: Socket, message: UpMessage, c: Circumstance)
      requires !message.Hello?
      modifies this
      ensures old(Ok()) ==> Ok()
      ensures socket !in old(bindings) ==> outbox == old(outbox) && forall b :: View(b) == old(View(b))
      ensures socket in old(bindings) ==>
                var binding := old(bindings)[socket];
                Became(binding, Handle(old(View(binding)), socket, message, false, c.expired, c.send),
                       old(View(binding)).active, c.send)
    {
      if socket !in bindings {
        return;
      }
      var binding := bindings[socket];
      match message {
        case Acknowledge(id) => Ack(binding, id);
        case Conclude(reply) => Conclude(binding, reply, c);
      }
    }
  }
}
