/** The tables both edge functions read and write, and the updates they
    make to them. Rows carry only the columns the functions use. */
module Store {
  import opened Common
  import opened Sorting
  import opened ServerSelection
  import opened Failover

  /** A row of products, as joined onto an order. */
  datatype Product = Product(id: string, name: string, mode: GameMode)

  /** A row of orders, with its product joined in (`products(*)`); the
      product is absent when the join finds no row. */
  datatype Order = Order(
    id: string,
    productId: string,
    product: Option<Product>,
    paymentStatus: PaymentStatus,
    deliveryStatus: DeliveryStatus,
    quantity: int,
    minecraftIgn: string,
    isGift: bool,
    giftRecipientIgn: Option<string>,
    deliveryLog: Option<seq<LogEntry>>)

  /** A row of delivery_commands. */
  datatype DeliveryCommand = DeliveryCommand(productId: string, commandText: string, orderIndex: int, enabled: bool, delayMs: int)

  /** A row of delivery_queue. */
  datatype QueueRow = QueueRow(
    id: string,
    orderId: string,
    minecraftIgn: string,
    status: DeliveryStatus,
    attemptCount: int,
    maxAttempts: int,
    lastAttemptAt: Option<Timestamp>,
    errorMessage: Option<string>)

  /** A row of player_status, keyed by minecraft_ign. */
  datatype PlayerStatus = PlayerStatus(
    serverName: Option<string>,
    online: bool,
    lastJoinAt: Option<Timestamp>,
    lastLeaveAt: Option<Timestamp>,
    updatedAt: Timestamp)

  /** The database. The functions only read rcon_servers, product_rcon_servers
      and delivery_commands; they write orders, delivery_queue, player_status
      and delivery_logs. */
  class Database {
    var orders: map<string, Order>
    var commands: seq<DeliveryCommand>
    var servers: seq<RconServer>
    var assignments: seq<Assignment>
    var queue: seq<QueueRow>
    var players: map<string, PlayerStatus>
    var attemptLog: seq<AttemptRow>
    /** The column default of delivery_queue.max_attempts, which an inserted row takes. */
    const defaultMaxAttempts: int

    constructor (defaultMaxAttempts: int)
      ensures this.defaultMaxAttempts == defaultMaxAttempts
      ensures orders == map[] && commands == [] && servers == [] && assignments == []
      ensures queue == [] && players == map[] && attemptLog == []
    {
      this.defaultMaxAttempts := defaultMaxAttempts;
      orders, commands, servers, assignments := map[], [], [], [];
      queue, players, attemptLog := [], map[], [];
    }
  }

  // --------------------------------------------------------------- orders

  /** `update({ delivery_status: status }).eq("id", id)`: an id with no row updates nothing. */
  function SetStatus(orders: map<string, Order>, id: string, status: DeliveryStatus): (r: map<string, Order>)
    ensures r.Keys == orders.Keys
    ensures id in orders ==> r[id] == orders[id].(deliveryStatus := status)
    ensures forall k :: k in orders && k != id ==> r[k] == orders[k]
  {
    if id in orders then orders[id := orders[id].(deliveryStatus := status)] else orders
  }

  /** A later write of the order's row replaces an earlier status update. */
  lemma SetStatusThenWrite(orders: map<string, Order>, id: string, status: DeliveryStatus, row: Order)
    requires id in orders
    ensures SetStatus(orders, id, status)[id := row] == orders[id := row]
  {
  }

  // ------------------------------------------------------------- commands

  function OrderIndex(c: DeliveryCommand): int
  {
    c.orderIndex
  }

  /** The commands of the product that pass `eq("enabled", true)`, in storage order. */
  function EnabledOf(commands: seq<DeliveryCommand>, productId: string): (r: seq<DeliveryCommand>)
    ensures forall c :: multiset(r)[c] == if c.productId == productId && c.enabled then multiset(commands)[c] else 0
  {
    if commands == [] then []
    else
      var rest := EnabledOf(commands[1..], productId);
      assert commands == [commands[0]] + commands[1..];
      if commands[0].productId == productId && commands[0].enabled then [commands[0]] + rest else rest
  }

  /** The delivery commands of a product: enabled ones only, in ascending order_index. */
  function ProductCommands(commands: seq<DeliveryCommand>, productId: string): (r: seq<DeliveryCommand>)
    ensures SortedBy(r, OrderIndex)
    ensures forall c :: multiset(r)[c] == if c.productId == productId && c.enabled then multiset(commands)[c] else 0
  {
    SortBy(EnabledOf(commands, productId), OrderIndex)
  }

  /** The command_text column of each command, in order. */
  function Templates(commands: seq<DeliveryCommand>): (r: seq<string>)
    ensures |r| == |commands|
    ensures forall j :: 0 <= j < |r| ==> r[j] == commands[j].commandText
  {
    if commands == [] then [] else [commands[0].commandText] + Templates(commands[1..])
  }

  // ---------------------------------------------------------------- queue

  const QueuedMessage := "Initial delivery failed, queued for retry"

  /** Every order has at most one queue row: the uniqueness the upsert's
      `onConflict: "order_id"` relies on. */
  ghost predicate OneRowPerOrder(queue: seq<QueueRow>)
  {
    forall a, b :: 0 <= a < b < |queue| ==> queue[a].orderId != queue[b].orderId
  }

  predicate HasRowFor(queue: seq<QueueRow>, orderId: string)
  {
    exists k :: 0 <= k < |queue| && queue[k].orderId == orderId
  }

  /** The columns the upsert writes, over an existing row. */
  function Requeued(row: QueueRow, ign: string, now: Timestamp): QueueRow
  {
    row.(minecraftIgn := ign, status := Queued, attemptCount := 1, lastAttemptAt := Some(now), errorMessage := Some(QueuedMessage))
  }

  function RequeueAll(queue: seq<QueueRow>, orderId: string, ign: string, now: Timestamp): (r: seq<QueueRow>)
    ensures |r| == |queue|
    ensures forall k :: 0 <= k < |r| ==>
      r[k] == if queue[k].orderId == orderId then Requeued(queue[k], ign, now) else queue[k]
  {
    if queue == [] then []
    else
      [if queue[0].orderId == orderId then Requeued(queue[0], ign, now) else queue[0]]
      + RequeueAll(queue[1..], orderId, ign, now)
  }

  /** The upsert of the delivery function, keyed by order_id: the row of the
      order is overwritten with status queued and attempt_count 1, or a row is
      inserted with the new id and the default max_attempts. */
  function Enqueue(queue: seq<QueueRow>, orderId: string, ign: string, now: Timestamp, newId: string, maxAttempts: int): (r: seq<QueueRow>)
    ensures HasRowFor(queue, orderId) ==> |r| == |queue|
    ensures !HasRowFor(queue, orderId) ==> |r| == |queue| + 1 && r[..|queue|] == queue
    // every row of the order now reads queued, attempt 1, with the retry message
    ensures forall k :: 0 <= k < |r| && r[k].orderId == orderId ==>
      r[k].status == Queued && r[k].attemptCount == 1 && r[k].minecraftIgn == ign
      && r[k].errorMessage == Some(QueuedMessage) && r[k].lastAttemptAt == Some(now)
    // the rows of other orders are untouched
    ensures forall k :: 0 <= k < |queue| && queue[k].orderId != orderId ==> r[k] == queue[k]
    ensures HasRowFor(r, orderId)
  {
    if HasRowFor(queue, orderId) then
      RequeueAll(queue, orderId, ign, now)
    else
      var r := queue + [QueueRow(newId, orderId, ign, Queued, 1, maxAttempts, Some(now), Some(QueuedMessage))];
      assert r[|queue|].orderId == orderId;
      r
  }

  /** The upsert keeps one row per order. */
  lemma EnqueueKeepsOneRowPerOrder(queue: seq<QueueRow>, orderId: string, ign: string, now: Timestamp, newId: string, maxAttempts: int)
    requires OneRowPerOrder(queue)
    ensures OneRowPerOrder(Enqueue(queue, orderId, ign, now, newId, maxAttempts))
  {
    var r := Enqueue(queue, orderId, ign, now, newId, maxAttempts);
    forall a, b | 0 <= a < b < |r|
      ensures r[a].orderId != r[b].orderId
    {
      if b == |queue| {
        assert !HasRowFor(queue, orderId);
        assert queue[a].orderId != orderId;
      } else {
        assert r[a].orderId == queue[a].orderId && r[b].orderId == queue[b].orderId;
      }
    }
  }

  /** Queueing the same order twice, as a second failed delivery while the
      recipient is offline does, leaves the queue as the first upsert left it
      except for the timestamp: still one row, attempt_count still 1. */
  lemma EnqueueTwice(queue: seq<QueueRow>, orderId: string, ign: string, t1: Timestamp, t2: Timestamp, newId: string, newId2: string, maxAttempts: int)
    ensures var once := Enqueue(queue, orderId, ign, t1, newId, maxAttempts);
      var twice := Enqueue(once, orderId, ign, t2, newId2, maxAttempts);
      && |twice| == |once|
      && forall k :: 0 <= k < |twice| ==> twice[k] == if once[k].orderId == orderId then once[k].(lastAttemptAt := Some(t2)) else once[k]
  {
    var once := Enqueue(queue, orderId, ign, t1, newId, maxAttempts);
    var twice := Enqueue(once, orderId, ign, t2, newId2, maxAttempts);
    assert HasRowFor(once, orderId);
    assert twice == RequeueAll(once, orderId, ign, t2);
  }

  /** `update(fields).eq("id", id)` on delivery_queue: every row with that id becomes `row`. */
  function UpdateRow(queue: seq<QueueRow>, id: string, row: QueueRow): (r: seq<QueueRow>)
    ensures |r| == |queue|
    ensures forall k :: 0 <= k < |r| ==> r[k] == if queue[k].id == id then row else queue[k]
  {
    if queue == [] then []
    else [if queue[0].id == id then row else queue[0]] + UpdateRow(queue[1..], id, row)
  }

  // --------------------------------------------------------------- players

  /** `playerStatus?.online`: a missing row reads as offline. */
  predicate Online(players: map<string, PlayerStatus>, ign: string)
  {
    ign in players && players[ign].online
  }
}
