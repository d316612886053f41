/** Which RCON servers a delivery may use: the servers assigned to the
    product in product_rcon_servers when there are any, otherwise every
    server; in both cases only enabled servers of the product's game mode,
    in ascending priority. */
module ServerSelection {
  import opened Common
  import opened Sorting

  /** A row of rcon_servers. */
  datatype RconServer = RconServer(
    id: string, name: string, host: string, port: int,
    mode: GameMode, enabled: bool, priority: int)

  /** A row of product_rcon_servers. */
  datatype Assignment = Assignment(productId: string, serverId: string)

  /** The rcon_server_id of every assignment row of the product, in storage order. */
  function AssignedIds(assignments: seq<Assignment>, productId: string): (ids: seq<string>)
    ensures forall id :: id in ids <==> Assignment(productId, id) in assignments
    ensures |ids| <= |assignments|
  {
    if assignments == [] then []
    else
      var rest := AssignedIds(assignments[1..], productId);
      assert forall a :: a in assignments <==> a == assignments[0] || a in assignments[1..];
      if assignments[0].productId == productId then [assignments[0].serverId] + rest else rest
  }

  /** The filters of the query: `in("id", ids)` when the product has
      assignment rows, then `eq("enabled", true)` and `eq("mode", mode)`. */
  predicate Eligible(s: RconServer, ids: seq<string>, mode: GameMode)
  {
    (|ids| > 0 ==> s.id in ids) && s.enabled && s.mode == mode
  }

  /** The servers that pass the filters, in storage order. */
  function Filtered(servers: seq<RconServer>, ids: seq<string>, mode: GameMode): (r: seq<RconServer>)
    ensures forall s :: multiset(r)[s] == if Eligible(s, ids, mode) then multiset(servers)[s] else 0
  {
    if servers == [] then []
    else
      var rest := Filtered(servers[1..], ids, mode);
      assert servers == [servers[0]] + servers[1..];
      if Eligible(servers[0], ids, mode) then [servers[0]] + rest else rest
  }

  function Priority(s: RconServer): int
  {
    s.priority
  }

  /** The candidate servers for a product of the given mode, in the order the
      failover loop tries them. */
  function Candidates(servers: seq<RconServer>, assignments: seq<Assignment>, productId: string, mode: GameMode): (r: seq<RconServer>)
    ensures SortedBy(r, Priority)
    ensures forall s :: s in r ==> s.enabled && s.mode == mode
    ensures (exists a :: a in assignments && a.productId == productId) ==>
      forall s :: s in r ==> Assignment(productId, s.id) in assignments
    ensures forall s :: multiset(r)[s] ==
                        if Eligible(s, AssignedIds(assignments, productId), mode) then multiset(servers)[s] else 0
  {
    var ids := AssignedIds(assignments, productId);
    assert (exists a :: a in assignments && a.productId == productId) ==> |ids| > 0 by {
      if a :| a in assignments && a.productId == productId {
        assert a == Assignment(productId, a.serverId);
        assert a.serverId in ids;
      }
    }
    var r := SortBy(Filtered(servers, ids, mode), Priority);
    assert forall s :: s in r ==> Eligible(s, ids, mode) by {
      forall s | s in r ensures Eligible(s, ids, mode) {
        assert multiset(r)[s] > 0;
      }
    }
    r
  }

  /** Every eligible server is a candidate: the selection drops nothing the filters keep. */
  lemma CandidatesComplete(servers: seq<RconServer>, assignments: seq<Assignment>, productId: string, mode: GameMode, s: RconServer)
    requires s in servers && s.enabled && s.mode == mode
    requires (exists a :: a in assignments && a.productId == productId) ==> Assignment(productId, s.id) in assignments
    ensures s in Candidates(servers, assignments, productId, mode)
  {
    var ids := AssignedIds(assignments, productId);
    assert |ids| > 0 ==> s.id in ids by {
      if |ids| > 0 {
        assert ids[0] in ids;
        assert Assignment(productId, ids[0]) in assignments;
      }
    }
    assert multiset(servers)[s] > 0;
    assert multiset(Candidates(servers, assignments, productId, mode))[s] > 0;
  }
}
