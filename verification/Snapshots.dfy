/** Status snapshots: the parsed form of OpenVPN's `status 3` response. */
module Snapshots {
  import opened Basics

  /** A CLIENT_LIST row. */
  datatype StatusClient = StatusClient(
    cid: string,
    cn: string,
    realAddress: string,
    virtualAddress: string,
    connectedAt: int,
    established: bool,
    routingConfirmed: bool)

  datatype EstablishedSession = EstablishedSession(cid: string, cn: string, connectedAt: int)

  datatype StatusSnapshot = StatusSnapshot(clients: seq<StatusClient>, established: seq<EstablishedSession>)

  function SessionOf(c: StatusClient): EstablishedSession {
    EstablishedSession(c.cid, c.cn, c.connectedAt)
  }

  /** The established clients, in order. */
  function EstablishedOf(clients: seq<StatusClient>): (rows: seq<EstablishedSession>)
    ensures forall r :: r in rows <==> exists c :: c in clients && c.established && SessionOf(c) == r
  {
    if clients == [] then []
    else
      var init := clients[..|clients| - 1];
      var last := clients[|clients| - 1];
      assert clients == init + [last];
      EstablishedOf(init) + if last.established then [SessionOf(last)] else []
  }

  /** The rows are those of the established clients: at `pos`, in order, none left out and none twice. */
  ghost predicate Picks(clients: seq<StatusClient>, rows: seq<EstablishedSession>, pos: seq<nat>) {
    && |pos| == |rows|
    && (forall j, k :: 0 <= j < k < |pos| ==> pos[j] < pos[k])
    && (forall k :: 0 <= k < |pos| ==>
          pos[k] < |clients| && clients[pos[k]].established && rows[k] == SessionOf(clients[pos[k]]))
    && (forall i :: 0 <= i < |clients| && clients[i].established ==> i in pos)
  }

  ghost function Positions(clients: seq<StatusClient>): seq<nat> {
    if clients == [] then []
    else
      var n := |clients| - 1;
      Positions(clients[..n]) + if clients[n].established then [n] else []
  }

  lemma {:induction false} EstablishedInOrder(clients: seq<StatusClient>)
    ensures Picks(clients, EstablishedOf(clients), Positions(clients))
  {
    if clients != [] {
      var n := |clients| - 1;
      EstablishedInOrder(clients[..n]);
      assert clients == clients[..n] + [clients[n]];
      PicksOneMore(clients[..n], EstablishedOf(clients[..n]), Positions(clients[..n]), clients[n]);
      assert EstablishedOf(clients[..n]) + [] == EstablishedOf(clients[..n])
          && Positions(clients[..n]) + [] == Positions(clients[..n]);
    }
  }

  lemma PicksOneMore(init: seq<StatusClient>, rows: seq<EstablishedSession>, pos: seq<nat>, last: StatusClient)
    requires Picks(init, rows, pos)
    ensures last.established ==> Picks(init + [last], rows + [SessionOf(last)], pos + [|init|])
    ensures !last.established ==> Picks(init + [last], rows, pos)
  {
    var clients := init + [last];
    assert forall i :: 0 <= i < |init| ==> clients[i] == init[i];
    assert clients[|init|] == last;
    forall i | 0 <= i < |clients| && clients[i].established
      ensures i in pos + [|init|] && (!last.established ==> i in pos)
    {
      if i < |init| {
        assert i in pos;
      }
    }
  }

  /** True of every snapshot that the status parser builds. */
  predicate Consistent(s: StatusSnapshot) {
    s.established == EstablishedOf(s.clients)
  }

  predicate DistinctClients(clients: seq<StatusClient>) {
    forall i, j :: 0 <= i < j < |clients| ==> clients[i].cid != clients[j].cid
  }

  predicate DistinctSessions(rows: seq<EstablishedSession>) {
    forall i, j :: 0 <= i < j < |rows| ==> rows[i].cid != rows[j].cid
  }

  lemma {:induction false} EstablishedDistinct(clients: seq<StatusClient>)
    requires DistinctClients(clients)
    ensures DistinctSessions(EstablishedOf(clients))
  {
    if clients != [] {
      var init := clients[..|clients| - 1];
      EstablishedDistinct(init);
      var rows := EstablishedOf(init);
      forall i | 0 <= i < |rows|
        ensures rows[i].cid != clients[|clients| - 1].cid
      {
        assert rows[i] in rows;
        var c :| c in init && c.established && SessionOf(c) == rows[i];
      }
    }
  }

  /** The first client with the given ID, as a linear search finds it. */
  method ClientByCid(s: StatusSnapshot, cid: string) returns (r: Option<StatusClient>)
    ensures r.None? ==> forall c :: c in s.clients ==> c.cid != cid
    ensures r.Some? ==> exists i :: 0 <= i < |s.clients| && s.clients[i] == r.value && r.value.cid == cid
                                    && forall j :: 0 <= j < i ==> s.clients[j].cid != cid
  {
    for i := 0 to |s.clients|
      invariant forall j :: 0 <= j < i ==> s.clients[j].cid != cid
    {
      if s.clients[i].cid == cid {
        return Some(s.clients[i]);
      }
    }
    return None;
  }
}
