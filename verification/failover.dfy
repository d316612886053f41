/** The failover loop of the delivery function: the candidate servers are
    tried in order; on a server without a password nothing is sent; on a
    server with one, the rendered commands are sent one by one until one
    fails; the loop stops at the first server on which every command
    succeeded. */
module Failover {
  import opened Common
  import opened RconClient
  import opened ServerSelection

  /** Everything one run of the loop depends on. `render` is processCommand
      with the recipient, quantity and product name of the order filled in.
      `exchange(i, j, password, command)` is what sendRconCommand resolves to
      when it is called for the j-th command on candidate i: the network is
      not part of the loop. */
  datatype Delivery = Delivery(
    orderId: string,
    servers: seq<RconServer>,
    templates: seq<string>,
    passwords: map<string, string>,
    render: string -> string,
    exchange: (nat, nat, string, string) -> RconResponse)

  /** An entry of deliveryLogs, as returned to the caller and stored on the order. */
  datatype LogEntry = LogEntry(server: string, command: string, success: bool, response: Option<seq<byte>>, error: Option<string>)

  /** A row inserted into delivery_logs. */
  datatype AttemptRow = AttemptRow(orderId: string, serverId: string, commandText: string, success: bool, errorMessage: Option<string>)

  const NoPasswordMessage := "No RCON password configured"

  /** The value of `rconPasswords[key]`, with a missing key read as "". */
  function Lookup(passwords: map<string, string>, key: string): string
  {
    if key in passwords then passwords[key] else ""
  }

  /** `rconPasswords[server.id] || rconPasswords[server.name] || ""`. */
  function Password(passwords: map<string, string>, server: RconServer): (p: string)
    ensures p != "" <==> Lookup(passwords, server.id) != "" || Lookup(passwords, server.name) != ""
    ensures Lookup(passwords, server.id) != "" ==> p == Lookup(passwords, server.id)
    ensures Lookup(passwords, server.id) == "" ==> p == Lookup(passwords, server.name)
  {
    if Lookup(passwords, server.id) != "" then Lookup(passwords, server.id) else Lookup(passwords, server.name)
  }

  predicate HasPassword(d: Delivery, i: nat)
    requires i < |d.servers|
  {
    Password(d.passwords, d.servers[i]) != ""
  }

  /** The text sent for command j. */
  function CommandText(d: Delivery, j: nat): string
    requires j < |d.templates|
  {
    d.render(d.templates[j])
  }

  /** What sending command j to candidate i returns. */
  function Outcome(d: Delivery, i: nat, j: nat): RconResponse
    requires i < |d.servers| && j < |d.templates|
  {
    d.exchange(i, j, Password(d.passwords, d.servers[i]), CommandText(d, j))
  }

  /** Candidate i has a password and every command succeeds on it. */
  predicate ServerOk(d: Delivery, i: nat)
    requires i < |d.servers|
  {
    HasPassword(d, i) && forall j :: 0 <= j < |d.templates| ==> Outcome(d, i, j).success
  }

  // ------------------------------------------------------------ the trace

  /** The deliveryLogs entry for command j on candidate i. */
  function AttemptLog(d: Delivery, i: nat, j: nat): LogEntry
    requires i < |d.servers| && j < |d.templates|
  {
    var r := Outcome(d, i, j);
    LogEntry(d.servers[i].name, CommandText(d, j), r.success, r.response, r.error)
  }

  /** `result.error || null`. */
  function ErrorColumn(error: Option<string>): (e: Option<string>)
    ensures e.Some? <==> Truthy(error)
    ensures e.Some? ==> e == error
  {
    if Truthy(error) then error else None
  }

  /** The delivery_logs row for command j on candidate i. */
  function AttemptRowOf(d: Delivery, i: nat, j: nat): AttemptRow
    requires i < |d.servers| && j < |d.templates|
  {
    var r := Outcome(d, i, j);
    AttemptRow(d.orderId, d.servers[i].id, CommandText(d, j), r.success, ErrorColumn(r.error))
  }

  /** The deliveryLogs entries of commands 0 .. j-1 on candidate i. */
  function SentLogs(d: Delivery, i: nat, j: nat): seq<LogEntry>
    requires i < |d.servers| && j <= |d.templates|
  {
    if j == 0 then [] else SentLogs(d, i, j - 1) + [AttemptLog(d, i, j - 1)]
  }

  /** The delivery_logs rows of commands 0 .. j-1 on candidate i. */
  function SentRows(d: Delivery, i: nat, j: nat): seq<AttemptRow>
    requires i < |d.servers| && j <= |d.templates|
  {
    if j == 0 then [] else SentRows(d, i, j - 1) + [AttemptRowOf(d, i, j - 1)]
  }

  /** How many commands candidate i is sent, counting from j: up to and
      including the first that fails, or all of them. */
  function SentCount(d: Delivery, i: nat, j: nat): (n: nat)
    requires i < |d.servers| && j <= |d.templates|
    ensures j <= n <= |d.templates|
    decreases |d.templates| - j
  {
    if j == |d.templates| then j
    else if !Outcome(d, i, j).success then j + 1
    else SentCount(d, i, j + 1)
  }

  /** The entry logged for a candidate without a password. */
  function SkippedLog(server: RconServer): LogEntry
  {
    LogEntry(server.name, "N/A", false, None, Some(NoPasswordMessage))
  }

  /** The deliveryLogs entries candidate i produces. */
  function ServerLogs(d: Delivery, i: nat): seq<LogEntry>
    requires i < |d.servers|
  {
    if HasPassword(d, i) then SentLogs(d, i, SentCount(d, i, 0)) else [SkippedLog(d.servers[i])]
  }

  /** The delivery_logs rows candidate i produces. */
  function ServerRows(d: Delivery, i: nat): seq<AttemptRow>
    requires i < |d.servers|
  {
    if HasPassword(d, i) then SentRows(d, i, SentCount(d, i, 0)) else []
  }

  /** How many candidates the loop tries, counting from i: up to and
      including the first on which every command succeeds, or all of them. */
  function TriedCount(d: Delivery, i: nat): (n: nat)
    requires i <= |d.servers|
    ensures i <= n <= |d.servers|
    decreases |d.servers| - i
  {
    if i == |d.servers| then i
    else if ServerOk(d, i) then i + 1
    else TriedCount(d, i + 1)
  }

  /** The deliveryLogs entries of candidates 0 .. i-1. */
  function LogsBefore(d: Delivery, i: nat): seq<LogEntry>
    requires i <= |d.servers|
  {
    if i == 0 then [] else LogsBefore(d, i - 1) + ServerLogs(d, i - 1)
  }

  /** The delivery_logs rows of candidates 0 .. i-1. */
  function RowsBefore(d: Delivery, i: nat): seq<AttemptRow>
    requires i <= |d.servers|
  {
    if i == 0 then [] else RowsBefore(d, i - 1) + ServerRows(d, i - 1)
  }

  /** Everything the loop logs, in order. */
  function DeliveryLogs(d: Delivery): seq<LogEntry>
  {
    LogsBefore(d, TriedCount(d, 0))
  }

  /** Every row the loop inserts into delivery_logs, in order. */
  function DeliveryRows(d: Delivery): seq<AttemptRow>
  {
    RowsBefore(d, TriedCount(d, 0))
  }

  lemma {:induction false} SentCountFrom(d: Delivery, i: nat, j: nat)
    requires i < |d.servers| && j <= |d.templates|
    requires forall k :: 0 <= k < j ==> Outcome(d, i, k).success
    ensures SentCount(d, i, 0) == SentCount(d, i, j)
  {
    if j > 0 {
      SentCountFrom(d, i, j - 1);
    }
  }

  lemma {:induction false} TriedCountFrom(d: Delivery, i: nat)
    requires i <= |d.servers|
    requires forall k :: 0 <= k < i ==> !ServerOk(d, k)
    ensures TriedCount(d, 0) == TriedCount(d, i)
  {
    if i > 0 {
      TriedCountFrom(d, i - 1);
    }
  }

  /** The loop stops at the first candidate on which every command succeeds:
      it tries candidates 0 .. i and no other. */
  lemma StopsAtFirstSuccess(d: Delivery, i: nat)
    requires i < |d.servers| && ServerOk(d, i)
    requires forall k :: 0 <= k < i ==> !ServerOk(d, k)
    ensures TriedCount(d, 0) == i + 1
    ensures DeliveryLogs(d) == LogsBefore(d, i + 1) && DeliveryRows(d) == RowsBefore(d, i + 1)
  {
    TriedCountFrom(d, i);
  }

  /** When no candidate takes every command, the loop tries them all. */
  lemma TriesEveryServer(d: Delivery)
    requires forall k :: 0 <= k < |d.servers| ==> !ServerOk(d, k)
    ensures TriedCount(d, 0) == |d.servers|
    ensures DeliveryLogs(d) == LogsBefore(d, |d.servers|) && DeliveryRows(d) == RowsBefore(d, |d.servers|)
  {
    TriedCountFrom(d, |d.servers|);
  }

  /** The entries and rows of the first j commands sent to candidate i are
      those commands' attempts, in order. */
  lemma {:induction false} SentAt(d: Delivery, i: nat, j: nat)
    requires i < |d.servers| && j <= |d.templates|
    ensures |SentLogs(d, i, j)| == j && |SentRows(d, i, j)| == j
    ensures forall k :: 0 <= k < j ==> SentLogs(d, i, j)[k] == AttemptLog(d, i, k)
    ensures forall k :: 0 <= k < j ==> SentRows(d, i, j)[k] == AttemptRowOf(d, i, k)
  {
    if j > 0 {
      SentAt(d, i, j - 1);
    }
  }

  /** SentCount stops right after the first command that fails. */
  lemma {:induction false} SentCountStops(d: Delivery, i: nat, j: nat)
    requires i < |d.servers| && j <= |d.templates|
    ensures var n := SentCount(d, i, j);
      && (forall k :: j <= k < n - 1 ==> Outcome(d, i, k).success)
      && (n < |d.templates| ==> j < n && !Outcome(d, i, n - 1).success)
      && (n == |d.templates| && (forall k :: j <= k < n ==> Outcome(d, i, k).success) <==>
          forall k :: j <= k < |d.templates| ==> Outcome(d, i, k).success)
    decreases |d.templates| - j
  {
    if j < |d.templates| && Outcome(d, i, j).success {
      SentCountStops(d, i, j + 1);
    }
  }

  /** On a candidate with a password the commands go out in order, each
      logged and stored as one row, and the run stops right after the first
      failure; the candidate counts as a success when none failed. */
  lemma ServerTrace(d: Delivery, i: nat)
    requires i < |d.servers| && HasPassword(d, i)
    ensures var n := SentCount(d, i, 0);
      && |ServerLogs(d, i)| == n && |ServerRows(d, i)| == n
      && (forall k :: 0 <= k < n ==> ServerLogs(d, i)[k] == AttemptLog(d, i, k) && ServerRows(d, i)[k] == AttemptRowOf(d, i, k))
      && (forall k :: 0 <= k < n - 1 ==> Outcome(d, i, k).success)
      && (n < |d.templates| ==> 0 < n && !Outcome(d, i, n - 1).success)
      && (ServerOk(d, i) <==> n == |d.templates| && forall k :: 0 <= k < n ==> Outcome(d, i, k).success)
  {
    SentAt(d, i, SentCount(d, i, 0));
    SentCountStops(d, i, 0);
  }

  /** A candidate without a password under its id or its name gets exactly one
      failed "N/A" entry and no row: no command goes to it. */
  lemma SkippedServer(d: Delivery, i: nat)
    requires i < |d.servers| && !HasPassword(d, i)
    ensures ServerLogs(d, i) == [LogEntry(d.servers[i].name, "N/A", false, None, Some(NoPasswordMessage))]
    ensures ServerRows(d, i) == [] && !ServerOk(d, i)
  {
  }

  /** How many of candidates 0 .. i-1 have no password. */
  function SkippedBefore(d: Delivery, i: nat): (n: nat)
    requires i <= |d.servers|
    ensures n <= i
  {
    if i == 0 then 0 else SkippedBefore(d, i - 1) + (if HasPassword(d, i - 1) then 0 else 1)
  }

  /** Every entry of deliveryLogs is either a row of delivery_logs or a skipped candidate. */
  lemma {:induction false} LogsCount(d: Delivery, i: nat)
    requires i <= |d.servers|
    ensures |LogsBefore(d, i)| == |RowsBefore(d, i)| + SkippedBefore(d, i)
  {
    if i > 0 {
      LogsCount(d, i - 1);
      if HasPassword(d, i - 1) {
        SentAt(d, i - 1, SentCount(d, i - 1, 0));
      }
    }
  }

  // ------------------------------------------------------------ the loops

  /** The inner loop: the commands, in order, on candidate i, which has a
      password; it stops right after the first command that fails. */
  method RunServer(d: Delivery, i: nat, password: string)
    returns (logs: seq<LogEntry>, rows: seq<AttemptRow>, serverSuccess: bool)
    requires i < |d.servers| && password == Password(d.passwords, d.servers[i]) && password != ""
    ensures serverSuccess <==> ServerOk(d, i)
    ensures logs == ServerLogs(d, i) && rows == ServerRows(d, i)
  {
    var server := d.servers[i];
    logs, rows, serverSuccess := [], [], true;
    var j := 0;
    while j < |d.templates|
      invariant 0 <= j <= |d.templates|
      invariant forall k :: 0 <= k < j ==> Outcome(d, i, k).success
      invariant logs == SentLogs(d, i, j) && rows == SentRows(d, i, j)
    {
      var command := CommandText(d, j);
      var result := d.exchange(i, j, password, command);
      rows := rows + [AttemptRow(d.orderId, server.id, command, result.success, ErrorColumn(result.error))];
      logs := logs + [LogEntry(server.name, command, result.success, result.response, result.error)];
      if !result.success {
        serverSuccess := false;
        SentCountFrom(d, i, j);
        break;
      }
      j := j + 1;
    }
    if serverSuccess {
      SentCountFrom(d, i, j);
    }
  }

  /** One turn of the outer loop: look up candidate i's password, then skip
      the candidate or run the commands on it. */
  method TryServer(d: Delivery, i: nat) returns (logs: seq<LogEntry>, rows: seq<AttemptRow>, serverSuccess: bool)
    requires i < |d.servers|
    ensures serverSuccess <==> ServerOk(d, i)
    ensures logs == ServerLogs(d, i) && rows == ServerRows(d, i)
  {
    var server := d.servers[i];
    var password := Password(d.passwords, server);
    if password == "" {
      logs, rows, serverSuccess := [LogEntry(server.name, "N/A", false, None, Some(NoPasswordMessage))], [], false;
    } else {
      logs, rows, serverSuccess := RunServer(d, i, password);
    }
  }

  /** The outer loop: the candidates in order, until one of them takes every command. */
  method RunFailover(d: Delivery) returns (logs: seq<LogEntry>, rows: seq<AttemptRow>, succeeded: bool)
    ensures succeeded <==> exists i :: 0 <= i < |d.servers| && ServerOk(d, i)
    ensures logs == DeliveryLogs(d) && rows == DeliveryRows(d)
  {
    logs, rows, succeeded := [], [], false;
    var i := 0;
    while i < |d.servers|
      invariant 0 <= i <= |d.servers|
      invariant forall k :: 0 <= k < i ==> !ServerOk(d, k)
      invariant logs == LogsBefore(d, i) && rows == RowsBefore(d, i)
    {
      var serverLogs, serverRows, serverSuccess := TryServer(d, i);
      logs, rows := logs + serverLogs, rows + serverRows;
      if serverSuccess {
        succeeded := true;
        StopsAtFirstSuccess(d, i);
        break;
      }
      assert forall k :: 0 <= k < i + 1 ==> !ServerOk(d, k);
      i := i + 1;
    }
    if !succeeded {
      TriesEveryServer(d);
    }
  }
}
