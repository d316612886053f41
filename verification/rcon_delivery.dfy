/** The request handler of the delivery function: validate the order, pick
    its commands and candidate servers, run the failover loop, and record the
    outcome on the order, in delivery_logs and, when the recipient is offline,
    in delivery_queue. */
module RconDelivery {
  import opened Common
  import opened RconCodec
  import opened RconClient
  import opened Placeholders
  import opened ServerSelection
  import opened Failover
  import opened Store

  /** The JSON replies of the handler, with their HTTP status. */
  datatype Reply =
    | ErrorReply(status: nat, message: string)       // { error }
    | NoCommandsReply                                // 200 { success: true, message }
    | QueuedReply(logs: seq<LogEntry>)               // 200 { success: false, queued: true, logs, message }
    | FinishedReply(success: bool, logs: seq<LogEntry>)  // 200 { success, logs }

  /** The message of the TypeError `order.products.mode` throws when the
      order's product row is missing; the handler's catch turns it into a 500. */
  const NullProductMessage := "Cannot read properties of null (reading 'mode')"

  /** The gift recipient when the order is a gift and names one, otherwise the buyer. */
  function Recipient(o: Order): string
  {
    if o.isGift && Truthy(o.giftRecipientIgn) then o.giftRecipientIgn.value else o.minecraftIgn
  }

  /** The inputs of the failover loop for an order: the candidates, the
      commands' texts, the renderer with the order's values filled in, and the
      exchange that connects to candidate i for command j. */
  function DeliveryOf(orderId: string, o: Order, p: Product, commands: seq<DeliveryCommand>, candidates: seq<RconServer>,
                      passwords: map<string, string>, net: (nat, nat) -> Connection): Delivery
  {
    var recipient := Recipient(o);
    Delivery(orderId, candidates, Templates(commands), passwords,
      Renderer(recipient, o.quantity, Some(p.name)),
      (i: nat, j: nat, password: string, command: string) => SendRconCommand(net(i, j), password, command).result)
  }

  /** How far a request gets: the early exit it takes, or the loop it runs. */
  datatype Stage =
    | MissingId      // 400
    | NotFound       // 404
    | Unpaid         // 400, payment_status is not completed
    | NoCommands     // no enabled delivery command
    | NoProduct      // the product row is missing: `order.products.mode` throws
    | NoServers      // no candidate server
    | Ready(d: Delivery, recipient: string)

  /** The stage a request reaches on the given tables. */
  function StageOf(orders: map<string, Order>, commands: seq<DeliveryCommand>, servers: seq<RconServer>, assignments: seq<Assignment>,
                   orderId: Option<string>, passwords: map<string, string>, net: (nat, nat) -> Connection): Stage
  {
    if !Truthy(orderId) then MissingId
    else if orderId.value !in orders then NotFound
    else if orders[orderId.value].paymentStatus != Completed then Unpaid
    else PaidStage(orderId.value, orders[orderId.value], commands, servers, assignments, passwords, net)
  }

  /** The stage a request for a paid order reaches. */
  function PaidStage(orderId: string, o: Order, commands: seq<DeliveryCommand>, servers: seq<RconServer>, assignments: seq<Assignment>,
                     passwords: map<string, string>, net: (nat, nat) -> Connection): (st: Stage)
    ensures st.Ready? ==>
      && o.product.Some? && st.d.orderId == orderId && st.recipient == Recipient(o)
      && |st.d.templates| > 0 && |st.d.servers| > 0
      && forall s :: s in st.d.servers ==> s.enabled && s.mode == o.product.value.mode
    ensures st.NoCommands? || st.NoProduct? || st.NoServers? || st.Ready?
  {
    var cmds := ProductCommands(commands, o.productId);
    if cmds == [] then NoCommands
    else if o.product.None? then NoProduct
    else
      var candidates := Candidates(servers, assignments, o.productId, o.product.value.mode);
      if candidates == [] then NoServers
      else Ready(DeliveryOf(orderId, o, o.product.value, cmds, candidates, passwords, net), Recipient(o))
  }

  /** A candidate that refuses the password fails on the first command: it
      gets one log entry, "RCON authentication failed", and the loop moves on. */
  lemma RefusedPasswordFailsCandidate(orderId: string, o: Order, p: Product, commands: seq<DeliveryCommand>,
                                      candidates: seq<RconServer>, passwords: map<string, string>,
                                      net: (nat, nat) -> Connection, i: nat, rest: seq<byte>)
    requires |commands| > 0 && i < |candidates|
    requires net(i, 0) == Accepted(Frame(AuthFailedId, 2, []) + rest)
    ensures var d := DeliveryOf(orderId, o, p, commands, candidates, passwords, net);
      && !ServerOk(d, i)
      && (HasPassword(d, i) ==>
            ServerLogs(d, i) == [LogEntry(candidates[i].name, CommandText(d, 0), false, None, Some(AuthFailedMessage))])
  {
    var d := DeliveryOf(orderId, o, p, commands, candidates, passwords, net);
    RefusingServer(rest, Password(passwords, candidates[i]), CommandText(d, 0));
    assert !Outcome(d, i, 0).success;
    if HasPassword(d, i) {
      assert SentCount(d, i, 0) == 1;
      assert SentLogs(d, i, 1) == [AttemptLog(d, i, 0)];
    }
  }

  /** Some candidate took every command. */
  predicate Succeeded(d: Delivery)
  {
    exists i :: 0 <= i < |d.servers| && ServerOk(d, i)
  }

  /** The handler, for a request `{ orderId }`. `net(i, j)` is the connection
      made to candidate i for command j; `now` is the time of the upsert and
      `newQueueId` the id a newly inserted queue row receives. */
  method Serve(db: Database, orderId: Option<string>, passwords: map<string, string>, net: (nat, nat) -> Connection,
               now: Timestamp, newQueueId: string) returns (reply: Reply)
    modifies db
    ensures db.commands == old(db.commands) && db.servers == old(db.servers) && db.assignments == old(db.assignments)
    ensures db.players == old(db.players)
    ensures var st := StageOf(old(db.orders), old(db.commands), old(db.servers), old(db.assignments), orderId, passwords, net);
      // early exits that write nothing
      && (st.MissingId? ==> reply == ErrorReply(400, "Order ID is required") && unchanged(db))
      && (st.NotFound? ==> reply == ErrorReply(404, "Order not found") && unchanged(db))
      && (st.Unpaid? ==> reply == ErrorReply(400, "Payment not completed") && unchanged(db))
      && (st.NoProduct? ==> reply == ErrorReply(500, NullProductMessage) && unchanged(db))
      // no enabled command: delivered, nothing sent
      && (st.NoCommands? ==>
           && reply == NoCommandsReply
           && db.orders == SetStatus(old(db.orders), orderId.value, Delivered)
           && db.queue == old(db.queue) && db.attemptLog == old(db.attemptLog))
      // no candidate server: failed, nothing sent
      && (st.NoServers? ==>
           && reply == ErrorReply(500, "No RCON servers available")
           && db.orders == SetStatus(old(db.orders), orderId.value, Failed)
           && db.queue == old(db.queue) && db.attemptLog == old(db.attemptLog))
      // the loop ran
      && (st.Ready? ==> Finished(st.d, st.recipient, old(db.orders), old(db.queue), old(db.attemptLog), old(db.players),
                                 db.orders, db.queue, db.attemptLog, reply, now, newQueueId, db.defaultMaxAttempts))
  {
    if orderId.None? || orderId.value == "" {
      return ErrorReply(400, "Order ID is required");
    }
    var id := orderId.value;
    if id !in db.orders {
      return ErrorReply(404, "Order not found");
    }
    var order := db.orders[id];
    if order.paymentStatus != Completed {
      return ErrorReply(400, "Payment not completed");
    }
    reply := ServePaid(db, id, passwords, net, now, newQueueId);
  }

  /** The handler from the fetch of the delivery commands on, for a paid order. */
  method ServePaid(db: Database, id: string, passwords: map<string, string>, net: (nat, nat) -> Connection,
                   now: Timestamp, newQueueId: string) returns (reply: Reply)
    requires id in db.orders
    modifies db
    ensures db.commands == old(db.commands) && db.servers == old(db.servers) && db.assignments == old(db.assignments)
    ensures db.players == old(db.players)
    ensures var st := PaidStage(id, old(db.orders)[id], old(db.commands), old(db.servers), old(db.assignments), passwords, net);
      && (st.NoProduct? ==> reply == ErrorReply(500, NullProductMessage) && unchanged(db))
      && (st.NoCommands? ==>
           && reply == NoCommandsReply
           && db.orders == SetStatus(old(db.orders), id, Delivered)
           && db.queue == old(db.queue) && db.attemptLog == old(db.attemptLog))
      && (st.NoServers? ==>
           && reply == ErrorReply(500, "No RCON servers available")
           && db.orders == SetStatus(old(db.orders), id, Failed)
           && db.queue == old(db.queue) && db.attemptLog == old(db.attemptLog))
      && (st.Ready? ==> Finished(st.d, st.recipient, old(db.orders), old(db.queue), old(db.attemptLog), old(db.players),
                                 db.orders, db.queue, db.attemptLog, reply, now, newQueueId, db.defaultMaxAttempts))
  {
    var order := db.orders[id];
    var commands := ProductCommands(db.commands, order.productId);
    if |commands| == 0 {
      db.orders := SetStatus(db.orders, id, Delivered);
      return NoCommandsReply;
    }
    if order.product.None? {
      return ErrorReply(500, NullProductMessage);
    }
    var product := order.product.value;
    var servers := Candidates(db.servers, db.assignments, order.productId, product.mode);
    if |servers| == 0 {
      db.orders := SetStatus(db.orders, id, Failed);
      return ErrorReply(500, "No RCON servers available");
    }
    var recipient := Recipient(order);
    var d := DeliveryOf(id, order, product, commands, servers, passwords, net);
    reply := Deliver(db, d, recipient, now, newQueueId);
  }

  /** The state after the loop ran: one delivery_logs row per command sent;
      then, when no candidate took every command and the recipient is offline,
      the order is queued and its queue row upserted; otherwise the order is
      delivered or failed and keeps the logs. */
  ghost predicate Finished(d: Delivery, recipient: string,
                           orders0: map<string, Order>, queue0: seq<QueueRow>, attemptLog0: seq<AttemptRow>, players: map<string, PlayerStatus>,
                           orders: map<string, Order>, queue: seq<QueueRow>, attemptLog: seq<AttemptRow>,
                           reply: Reply, now: Timestamp, newQueueId: string, maxAttempts: int)
    requires d.orderId in orders0
  {
    Recorded(d.orderId, recipient, DeliveryLogs(d), DeliveryRows(d), Succeeded(d), orders0, queue0, attemptLog0, players,
             orders, queue, attemptLog, reply, now, newQueueId, maxAttempts)
  }

  /** The state after the loop collected `logs` and `rows` and `succeeded`. */
  ghost predicate Recorded(id: string, recipient: string, logs: seq<LogEntry>, rows: seq<AttemptRow>, succeeded: bool,
                           orders0: map<string, Order>, queue0: seq<QueueRow>, attemptLog0: seq<AttemptRow>, players: map<string, PlayerStatus>,
                           orders: map<string, Order>, queue: seq<QueueRow>, attemptLog: seq<AttemptRow>,
                           reply: Reply, now: Timestamp, newQueueId: string, maxAttempts: int)
    requires id in orders0
  {
    && attemptLog == attemptLog0 + rows
    && if !succeeded && !Online(players, recipient) then
         && reply == QueuedReply(logs)
         && orders == SetStatus(orders0, id, Queued)
         && queue == Enqueue(queue0, id, recipient, now, newQueueId, maxAttempts)
       else
         && reply == FinishedReply(succeeded, logs)
         && orders == orders0[id := orders0[id].(deliveryStatus := if succeeded then Delivered else Failed, deliveryLog := Some(logs))]
         && queue == queue0
  }

  /** From "processing" on: run the loop and record the outcome. */
  method Deliver(db: Database, d: Delivery, recipient: string, now: Timestamp, newQueueId: string) returns (reply: Reply)
    requires d.orderId in db.orders
    modifies db
    ensures db.commands == old(db.commands) && db.servers == old(db.servers) && db.assignments == old(db.assignments)
    ensures db.players == old(db.players)
    ensures Finished(d, recipient, old(db.orders), old(db.queue), old(db.attemptLog), old(db.players),
                     db.orders, db.queue, db.attemptLog, reply, now, newQueueId, db.defaultMaxAttempts)
  {
    ghost var orders0 := db.orders;
    db.orders := SetStatus(db.orders, d.orderId, Processing);
    var logs, rows, succeeded := RunFailover(d);
    reply := Record(db, d.orderId, recipient, logs, rows, succeeded, now, newQueueId);
    ghost var o := orders0[d.orderId];
    SetStatusThenWrite(orders0, d.orderId, Processing, o.(deliveryStatus := Queued));
    SetStatusThenWrite(orders0, d.orderId, Processing,
                       o.(deliveryStatus := if succeeded then Delivered else Failed, deliveryLog := Some(logs)));
  }

  /** Writing the outcome: the delivery_logs rows, then the queue and the
      order, or the order with its logs. */
  method Record(db: Database, id: string, recipient: string, logs: seq<LogEntry>, rows: seq<AttemptRow>, succeeded: bool,
                now: Timestamp, newQueueId: string) returns (reply: Reply)
    requires id in db.orders
    modifies db
    ensures db.commands == old(db.commands) && db.servers == old(db.servers) && db.assignments == old(db.assignments)
    ensures db.players == old(db.players)
    ensures Recorded(id, recipient, logs, rows, succeeded, old(db.orders), old(db.queue), old(db.attemptLog), old(db.players),
                     db.orders, db.queue, db.attemptLog, reply, now, newQueueId, db.defaultMaxAttempts)
  {
    db.attemptLog := db.attemptLog + rows;
    if !succeeded && !Online(db.players, recipient) {
      db.queue := Enqueue(db.queue, id, recipient, now, newQueueId, db.defaultMaxAttempts);
      db.orders := SetStatus(db.orders, id, Queued);
      return QueuedReply(logs);
    }
    db.orders := db.orders[id := db.orders[id].(deliveryStatus := if succeeded then Delivered else Failed, deliveryLog := Some(logs))];
    reply := FinishedReply(succeeded, logs);
  }
}
