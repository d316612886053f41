/** The player-listener function: a game server reports a player joining or
    leaving; the function records the player's presence and, on a join,
    retries the player's queued deliveries. */
module PlayerListener {
  import opened Common
  import opened Text
  import opened Store

  /** The JSON body of a request; `timestamp` is resolved into `now` by the caller. */
  datatype Event = Event(minecraftIgn: Option<string>, serverName: Option<string>)

  /** What invoking the delivery function for a queue row gives back: the
      `success` and `error` fields of its reply, or the message of the error
      the invocation threw (a non-2xx reply among them). */
  datatype InvokeResult = Returned(success: bool, error: Option<string>) | Threw(message: string)

  /** An entry of delivery_results. */
  datatype DeliveryResult = DeliveryResult(orderId: string, success: bool, error: Option<string>)

  /** The JSON replies of the function, with their HTTP status. */
  datatype Reply =
    | ErrorReply(status: nat, message: string)
    | JoinReply(player: string, server: Option<string>, processed: nat, results: seq<DeliveryResult>)
    | LeaveReply(player: string)

  /** The number of attempts below which the join handler retries a queue
      row. It is written as a literal in the query, not read from the row's
      max_attempts. */
  const SelectionCap := 5

  const DefaultFailure := "Delivery failed"

  // --------------------------------------------------------------- guards

  /** The token check: it applies only when a non-empty token is configured. */
  function Authorized(configured: Option<string>, provided: Option<string>): (ok: bool)
    ensures !Truthy(configured) ==> ok
    ensures Truthy(configured) ==> (ok <==> provided == configured)
  {
    !(Truthy(configured) && provided != configured)
  }

  /** `url.pathname.split("/").pop()`: what follows the last '/'. */
  function LastSegment(path: string): (r: string)
    ensures '/' !in r
    ensures |r| <= |path| && r == path[|path| - |r|..]
    ensures |r| < |path| ==> path[|path| - |r| - 1] == '/'
  {
    if path == [] then []
    else if path[|path| - 1] == '/' then []
    else LastSegment(path[..|path| - 1]) + [path[|path| - 1]]
  }

  // -------------------------------------------------------------- presence

  /** `server_name || null`. */
  function ServerColumn(serverName: Option<string>): Option<string>
  {
    if Truthy(serverName) then serverName else None
  }

  /** The player_status upsert of a join, keyed by minecraft_ign: columns the
      upsert does not name keep their value on an existing row. */
  function Joined(players: map<string, PlayerStatus>, ign: string, serverName: Option<string>, now: Timestamp): (r: map<string, PlayerStatus>)
    ensures r.Keys == players.Keys + {ign}
    ensures r[ign].online && r[ign].serverName == ServerColumn(serverName) && r[ign].lastJoinAt == Some(now)
    ensures r[ign].lastLeaveAt == if ign in players then players[ign].lastLeaveAt else None
    ensures forall p :: p in players && p != ign ==> r[p] == players[p]
  {
    var row := if ign in players then players[ign].(serverName := ServerColumn(serverName), online := true, lastJoinAt := Some(now), updatedAt := now)
               else PlayerStatus(ServerColumn(serverName), true, Some(now), None, now);
    players[ign := row]
  }

  /** The player_status upsert of a leave. */
  function Left(players: map<string, PlayerStatus>, ign: string, now: Timestamp): (r: map<string, PlayerStatus>)
    ensures r.Keys == players.Keys + {ign}
    ensures !r[ign].online && r[ign].serverName == None && r[ign].lastLeaveAt == Some(now)
    ensures r[ign].lastJoinAt == if ign in players then players[ign].lastJoinAt else None
    ensures forall p :: p in players && p != ign ==> r[p] == players[p]
  {
    var row := if ign in players then players[ign].(serverName := None, online := false, lastLeaveAt := Some(now), updatedAt := now)
               else PlayerStatus(None, false, None, Some(now), now);
    players[ign := row]
  }

  // ------------------------------------------------------------- selection

  /** The filters of the queue query. */
  predicate Eligible(row: QueueRow, ign: string)
  {
    row.minecraftIgn == ign && row.status == Queued && row.attemptCount < SelectionCap
  }

  /** The queue rows the join retries, in storage order. */
  function Selected(queue: seq<QueueRow>, ign: string): (r: seq<QueueRow>)
    ensures forall row :: multiset(r)[row] == if Eligible(row, ign) then multiset(queue)[row] else 0
  {
    if queue == [] then []
    else
      var rest := Selected(queue[1..], ign);
      assert queue == [queue[0]] + queue[1..];
      if Eligible(queue[0], ign) then [queue[0]] + rest else rest
  }

  /** `d.orders?.products?.mode`: the game mode of the row's order's product, if both rows exist. */
  function ModeOf(orders: map<string, Order>, orderId: string): Option<GameMode>
  {
    if orderId in orders && orders[orderId].product.Some? then Some(orders[orderId].product.value.mode) else None
  }

  /** The mode filter: every row passes when the event names no server, and a
      row whose mode is unknown always passes; otherwise the lower-cased
      server name must contain the mode's name. */
  predicate ModeMatches(serverName: Option<string>, mode: Option<GameMode>)
  {
    !Truthy(serverName) || mode.None? || Includes(ToLower(serverName.value), ModeName(mode.value))
  }

  function Matching(rows: seq<QueueRow>, serverName: Option<string>, orders: map<string, Order>): (r: seq<QueueRow>)
    ensures forall row :: multiset(r)[row] ==
                          if ModeMatches(serverName, ModeOf(orders, row.orderId)) then multiset(rows)[row] else 0
  {
    if rows == [] then []
    else
      var rest := Matching(rows[1..], serverName, orders);
      assert rows == [rows[0]] + rows[1..];
      if ModeMatches(serverName, ModeOf(orders, rows[0].orderId)) then [rows[0]] + rest else rest
  }

  // ----------------------------------------------------------------- retry

  /** `data?.error || "Delivery failed"`. */
  function FailureText(error: Option<string>): (t: string)
    ensures Truthy(error) ==> t == error.value
    ensures !Truthy(error) ==> t == DefaultFailure
  {
    if Truthy(error) then error.value else DefaultFailure
  }

  predicate Succeeded(res: InvokeResult)
  {
    res.Returned? && res.success
  }

  /** The message stored and reported for a retry that did not deliver. */
  function FailureOf(res: InvokeResult): string
    requires !Succeeded(res)
  {
    if res.Threw? then res.message else FailureText(res.error)
  }

  /** The update of a retried row. */
  function RetryUpdate(row: QueueRow, res: InvokeResult, now: Timestamp): (r: QueueRow)
    ensures r.id == row.id && r.orderId == row.orderId && r.minecraftIgn == row.minecraftIgn && r.maxAttempts == row.maxAttempts
    ensures r.lastAttemptAt == Some(now)
    // a delivered retry closes the row and does not count as an attempt
    ensures Succeeded(res) ==> r.status == Delivered && r.attemptCount == row.attemptCount && r.errorMessage == row.errorMessage
    // any other outcome counts one attempt and fails the row once it reaches max_attempts
    ensures !Succeeded(res) ==>
      && r.attemptCount == row.attemptCount + 1
      && r.errorMessage == Some(FailureOf(res))
      && (r.status == Failed <==> row.attemptCount + 1 >= row.maxAttempts)
      && (r.status == Queued <==> row.attemptCount + 1 < row.maxAttempts)
  {
    if Succeeded(res) then
      row.(status := Delivered, lastAttemptAt := Some(now))
    else
      var attempts := row.attemptCount + 1;
      row.(attemptCount := attempts, lastAttemptAt := Some(now), errorMessage := Some(FailureOf(res)),
           status := if attempts >= row.maxAttempts then Failed else Queued)
  }

  function ResultOf(row: QueueRow, res: InvokeResult): DeliveryResult
  {
    if Succeeded(res) then DeliveryResult(row.orderId, true, None)
    else DeliveryResult(row.orderId, false, Some(FailureOf(res)))
  }

  /** The queue after rows 0 .. k-1 were retried, the k-th invocation giving `invoke(k)`. */
  function Retried(queue: seq<QueueRow>, rows: seq<QueueRow>, invoke: nat -> InvokeResult, now: Timestamp, k: nat): (r: seq<QueueRow>)
    requires k <= |rows|
    ensures |r| == |queue|
  {
    if k == 0 then queue
    else UpdateRow(Retried(queue, rows, invoke, now, k - 1), rows[k - 1].id, RetryUpdate(rows[k - 1], invoke(k - 1), now))
  }

  /** The delivery_results entries of rows 0 .. k-1. */
  function Results(rows: seq<QueueRow>, invoke: nat -> InvokeResult, k: nat): (r: seq<DeliveryResult>)
    requires k <= |rows|
  {
    if k == 0 then [] else Results(rows, invoke, k - 1) + [ResultOf(rows[k - 1], invoke(k - 1))]
  }

  /** The loop over the matching rows: invoke the delivery function for each,
      update its queue row by id and report one result per row. */
  method RetryAll(db: Database, rows: seq<QueueRow>, invoke: nat -> InvokeResult, now: Timestamp) returns (results: seq<DeliveryResult>)
    modifies db`queue
    ensures db.queue == Retried(old(db.queue), rows, invoke, now, |rows|)
    ensures results == Results(rows, invoke, |rows|)
  {
    ghost var queue0 := db.queue;
    results := [];
    var k := 0;
    while k < |rows|
      invariant 0 <= k <= |rows|
      invariant db.queue == Retried(queue0, rows, invoke, now, k)
      invariant results == Results(rows, invoke, k)
    {
      var row := rows[k];
      var res := invoke(k);
      var updated := RetryUpdate(row, res, now);
      assert Retried(queue0, rows, invoke, now, k + 1) == UpdateRow(db.queue, row.id, updated);
      db.queue := UpdateRow(db.queue, row.id, updated);
      results := results + [ResultOf(row, res)];
      k := k + 1;
    }
  }

  // ----------------------------------------------------------------- facts

  /** One result per retried row, in order, naming the row's order. */
  lemma {:induction false} ResultsPerRow(rows: seq<QueueRow>, invoke: nat -> InvokeResult, k: nat)
    requires k <= |rows|
    ensures |Results(rows, invoke, k)| == k
    ensures forall j :: 0 <= j < k ==> Results(rows, invoke, k)[j].orderId == rows[j].orderId
    ensures forall j :: 0 <= j < k ==> (Results(rows, invoke, k)[j].success <==> Succeeded(invoke(j)))
  {
    if k > 0 {
      ResultsPerRow(rows, invoke, k - 1);
    }
  }

  /** Rows whose id is not among the retried rows' ids are left as they were. */
  lemma {:induction false} RetriedKeepsOthers(queue: seq<QueueRow>, rows: seq<QueueRow>, invoke: nat -> InvokeResult, now: Timestamp, k: nat, i: nat)
    requires k <= |rows| && i < |queue|
    requires forall j :: 0 <= j < k ==> rows[j].id != queue[i].id
    ensures Retried(queue, rows, invoke, now, k)[i] == queue[i]
  {
    if k > 0 {
      RetriedKeepsOthers(queue, rows, invoke, now, k - 1, i);
    }
  }

  /** A retry never changes which id sits at which position of the queue. */
  lemma {:induction false} RetriedKeepsIds(queue: seq<QueueRow>, rows: seq<QueueRow>, invoke: nat -> InvokeResult, now: Timestamp, k: nat, i: nat)
    requires k <= |rows| && i < |queue|
    ensures Retried(queue, rows, invoke, now, k)[i].id == queue[i].id
  {
    if k > 0 {
      RetriedKeepsIds(queue, rows, invoke, now, k - 1, i);
    }
  }

  /** When the retried rows have distinct ids, the queue row with the id of
      the j-th retried row ends up as that row's retry update, built from
      what the j-th invocation gave. */
  lemma {:induction false} RetriedRow(queue: seq<QueueRow>, rows: seq<QueueRow>, invoke: nat -> InvokeResult, now: Timestamp, k: nat, i: nat, j: nat)
    requires k <= |rows| && i < |queue| && j < k
    requires forall a, b :: 0 <= a < b < |rows| ==> rows[a].id != rows[b].id
    requires queue[i].id == rows[j].id
    ensures Retried(queue, rows, invoke, now, k)[i] == RetryUpdate(rows[j], invoke(j), now)
  {
    if k == j + 1 {
      RetriedKeepsIds(queue, rows, invoke, now, j, i);
    } else {
      RetriedRow(queue, rows, invoke, now, k - 1, i, j);
      assert rows[k - 1].id != rows[j].id;
    }
  }

  /** A retry keeps the rule that a queued row is below its max_attempts. */
  lemma RetryKeepsQueuedBelowMax(row: QueueRow, res: InvokeResult, now: Timestamp)
    requires row.status == Queued ==> row.attemptCount < row.maxAttempts
    ensures var r := RetryUpdate(row, res, now); r.status == Queued ==> r.attemptCount < r.maxAttempts
  {
  }

  /** A row at or over the cap is never retried, whatever its max_attempts. */
  lemma CappedRowNotSelected(queue: seq<QueueRow>, ign: string, row: QueueRow)
    requires row.attemptCount >= SelectionCap
    ensures row !in Selected(queue, ign)
  {
    assert multiset(Selected(queue, ign))[row] == 0;
  }

  /** With max_attempts above the cap, a fourth failed retry leaves the row
      queued at five attempts, where the join handler no longer selects it:
      it stays queued and is never retried. */
  lemma QueuedRowStrandedAtCap(row: QueueRow, message: string, now: Timestamp)
    requires row.status == Queued && row.attemptCount == 4 && row.maxAttempts > 5
    ensures var r := RetryUpdate(row, Threw(message), now);
      && Eligible(row, row.minecraftIgn)
      && r.status == Queued && r.attemptCount == 5
      && Selected([r], r.minecraftIgn) == []
  {
    var r := RetryUpdate(row, Threw(message), now);
    CappedRowNotSelected([r], r.minecraftIgn, r);
  }

  // --------------------------------------------------------------- handler

  const NoIgnMessage := "minecraft_ign is required"
  const BadPathMessage := "Invalid event type. Use /join or /leave"

  /** The handler. `configured` is LISTENER_SECRET_TOKEN, `provided` the
      x-listener-token header, `path` the request's pathname; `invoke(k)` is
      what invoking the delivery function for the k-th matching row gives. */
  method Serve(db: Database, configured: Option<string>, provided: Option<string>, path: string, event: Event,
               now: Timestamp, invoke: nat -> InvokeResult) returns (reply: Reply)
    modifies db`players, db`queue
    ensures !Authorized(configured, provided) ==> reply == ErrorReply(401, "Unauthorized") && unchanged(db)
    ensures Authorized(configured, provided) && !Truthy(event.minecraftIgn) ==> reply == ErrorReply(400, NoIgnMessage) && unchanged(db)
    ensures Authorized(configured, provided) && Truthy(event.minecraftIgn) && LastSegment(path) !in {"join", "leave"} ==>
      reply == ErrorReply(400, BadPathMessage) && unchanged(db)
    ensures Authorized(configured, provided) && Truthy(event.minecraftIgn) && LastSegment(path) == "leave" ==>
      && reply == LeaveReply(event.minecraftIgn.value)
      && db.players == Left(old(db.players), event.minecraftIgn.value, now)
      && db.queue == old(db.queue)
    ensures Authorized(configured, provided) && Truthy(event.minecraftIgn) && LastSegment(path) == "join" ==>
      var ign := event.minecraftIgn.value;
      var rows := Matching(Selected(old(db.queue), ign), event.serverName, old(db.orders));
      && reply == JoinReply(ign, event.serverName, |rows|, Results(rows, invoke, |rows|))
      && db.players == Joined(old(db.players), ign, event.serverName, now)
      && db.queue == Retried(old(db.queue), rows, invoke, now, |rows|)
  {
    if !Authorized(configured, provided) {
      return ErrorReply(401, "Unauthorized");
    }
    var segment := LastSegment(path);
    if event.minecraftIgn.None? || event.minecraftIgn.value == "" {
      return ErrorReply(400, NoIgnMessage);
    }
    var ign := event.minecraftIgn.value;
    if segment == "join" {
      db.players := Joined(db.players, ign, event.serverName, now);
      var queued := Selected(db.queue, ign);
      var rows := Matching(queued, event.serverName, db.orders);
      var results := RetryAll(db, rows, invoke, now);
      ResultsPerRow(rows, invoke, |rows|);
      reply := JoinReply(ign, event.serverName, |results|, results);
    } else if segment == "leave" {
      db.players := Left(db.players, ign, now);
      reply := LeaveReply(ign);
    } else {
      reply := ErrorReply(400, BadPathMessage);
    }
  }
}
