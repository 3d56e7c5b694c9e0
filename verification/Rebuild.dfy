/**
 Reconnect bootstrap: the ownership tables are reconciled with an authoritative status
 snapshot. Absent clients are dropped, the established rows elect one owner per identity,
 and the maximum-duration timers are anchored to the snapshot's connect times.
 */
module Rebuild {
  import opened Basics
  import opened Text
  import opened Ownership
  import opened Snapshots
  import E = Election

  // ----- dropping what the snapshot does not list -----

  function Present(clients: seq<StatusClient>): set<Cid> {
    set c | c in clients :: c.cid
  }

  /** Record `c` of identity `i` is dropped because the snapshot does not list it. */
  predicate Dropped(t: Tables, present: set<Cid>, i: Identity, c: Cid) {
    c in t.cids && c !in present && t.cids[c].identity == i
  }

  function Sweep(t: Tables, present: set<Cid>): Tables {
    Tables(
      map c | c in t.cids && c in present :: t.cids[c],
      map i | i in t.active && !Dropped(t, present, i, t.active[i]) :: t.active[i],
      map i | i in t.attempt && !Dropped(t, present, i, t.attempt[i]) :: t.attempt[i])
  }

  lemma SweepKeepsInv(t: Tables, present: set<Cid>)
    requires Inv(t)
    ensures Inv(Sweep(t, present))
  {
  }

  // ----- adopting the established rows -----

  /** What a valid established row says about its CID. */
  datatype Adoption = Adoption(cn: string, identity: Identity, loser: bool)

  /** Kept fields survive; a new CID starts from the zero record. */
  function Adopt(cids: map<Cid, CidState>, c: Cid, a: Adoption): CidState {
    var st := if c in cids then cids[c] else Fresh;
    st.(cn := a.cn, identity := a.identity, promoted := false, established := true,
        evictionRequested := st.evictionRequested || a.loser)
  }

  /** Losing an election only adds the eviction mark. */
  lemma AdoptLoser(cids: map<Cid, CidState>, c: Cid, a: Adoption)
    ensures Adopt(cids, c, a.(loser := true)) == Adopt(cids, c, a).(evictionRequested := true)
  {
  }

  function Merge(s: Tables, adopted: map<Cid, Adoption>, owners: map<Identity, Cid>): Tables {
    Tables(
      map c | c in s.cids.Keys + adopted.Keys :: if c in adopted then Adopt(s.cids, c, adopted[c]) else s.cids[c],
      s.active + owners,
      map i | i in s.attempt && !(s.attempt[i] in adopted && adopted[s.attempt[i]].identity == i) :: s.attempt[i])
  }

  /** The owners are adopted rows of their identity, and every other adopted row is a loser. */
  ghost predicate Decides(adopted: map<Cid, Adoption>, owners: map<Identity, Cid>) {
    && (forall i :: i in owners ==> owners[i] in adopted && adopted[owners[i]].identity == i)
    && (forall c :: c in adopted ==>
          adopted[c].identity in owners && (owners[adopted[c].identity] == c || adopted[c].loser))
  }

  /** The rows agree with the records they meet. */
  ghost predicate Fits(s: Tables, adopted: map<Cid, Adoption>) {
    && (forall c :: c in s.cids && c in adopted ==> s.cids[c].identity == adopted[c].identity && !s.cids[c].inFlight)
    && (forall c :: c in s.cids && s.cids[c].established ==> c in adopted)
  }

  lemma MergeKeepsAttempts(s: Tables, adopted: map<Cid, Adoption>, owners: map<Identity, Cid>)
    requires PhasesDisjoint(s) && AttemptsAgree(s) && Fits(s, adopted)
    ensures PhasesDisjoint(Merge(s, adopted, owners)) && AttemptsAgree(Merge(s, adopted, owners))
  {
  }

  lemma MergeKeepsOwners(s: Tables, adopted: map<Cid, Adoption>, owners: map<Identity, Cid>)
    requires ActiveAgree(s) && Fits(s, adopted) && Decides(adopted, owners)
    ensures ActiveAgree(Merge(s, adopted, owners)) && LosersMarked(Merge(s, adopted, owners))
  {
    var u := Merge(s, adopted, owners);
    forall i | i in u.active
      ensures i in owners
    {
      if i in s.active {
        assert adopted[s.active[i]].identity == i;
      }
    }
    forall c | c in u.cids && u.cids[c].established
      ensures c in adopted && (Owns(u, c) || u.cids[c].evictionRequested)
    {
    }
  }

  // ----- from a snapshot -----

  /** The valid established rows by CID. */
  function ByCid(rows: seq<EstablishedSession>): (m: map<Cid, EstablishedSession>)
    ensures forall c :: c in m ==> m[c] in rows && E.Valid(m[c]) && m[c].cid == c
    ensures forall r :: r in rows && E.Valid(r) ==> r.cid in m
  {
    if rows == [] then map[]
    else
      var init, last := rows[..|rows| - 1], rows[|rows| - 1];
      assert rows == init + [last];
      if E.Valid(last) then ByCid(init)[last.cid := last] else ByCid(init)
  }

  function Adoptions(rows: seq<EstablishedSession>): map<Cid, Adoption> {
    var m, o := ByCid(rows), E.Elect(rows);
    map c | c in m :: Adoption(m[c].cn, E.Identity(m[c]), c in o.evictions)
  }

  function Owners(rows: seq<EstablishedSession>): map<Identity, Cid> {
    var w := E.Elect(rows).winners;
    map i | i in w :: w[i].cid
  }

  /** The first critical section of the rebuild, in closed form. */
  function Reconcile(t: Tables, snap: StatusSnapshot): Tables {
    Merge(Sweep(t, Present(snap.clients)), Adoptions(snap.established), Owners(snap.established))
  }

  lemma ByCidFinds(rows: seq<EstablishedSession>, r: EstablishedSession)
    requires DistinctSessions(rows) && r in rows && E.Valid(r)
    ensures r.cid in ByCid(rows) && ByCid(rows)[r.cid] == r
  {
    E.SameCidSameRow(rows, r, ByCid(rows)[r.cid]);
  }

  lemma WinnerAdopted(rows: seq<EstablishedSession>, i: Identity)
    requires DistinctSessions(rows) && i in E.Elect(rows).winners
    ensures var w := E.Elect(rows).winners[i];
            E.Valid(w) && w.cid in ByCid(rows) && ByCid(rows)[w.cid] == w && E.Identity(w) == i
  {
    hide E.Valid, E.Identity, E.Newer, E.Elect;
    E.ElectPartitions(rows);
    ByCidFinds(rows, E.Elect(rows).winners[i]);
  }

  /** An elected owner is one of the rows, is adopted and is no loser. */
  lemma OwnerAdopted(rows: seq<EstablishedSession>, i: Identity)
    requires DistinctSessions(rows) && i in Owners(rows)
    ensures exists r :: r in rows && r.cid == Owners(rows)[i]
    ensures Owners(rows)[i] in Adoptions(rows) && !Adoptions(rows)[Owners(rows)[i]].loser
  {
    hide E.Valid, E.Identity, E.Newer, E.Elect;
    WinnerAdopted(rows, i);
    E.ElectPartitions(rows);
    var w := E.Elect(rows).winners[i];
    assert E.Wins(E.Elect(rows), w);
  }

  lemma LoserEvicted(rows: seq<EstablishedSession>, c: Cid)
    requires DistinctSessions(rows) && c in ByCid(rows)
    ensures var o, i := E.Elect(rows), E.Identity(ByCid(rows)[c]);
            i in o.winners && (o.winners[i].cid == c || c in o.evictions)
  {
    hide E.Valid, E.Identity, E.Newer, E.Elect;
    E.ElectPartitions(rows);
    assert E.Standing(rows, E.Identity(ByCid(rows)[c]));
  }

  lemma ElectionDecides(rows: seq<EstablishedSession>)
    requires DistinctSessions(rows)
    ensures Decides(Adoptions(rows), Owners(rows))
  {
    hide E.Valid, E.Identity, E.Newer, E.Elect, DistinctSessions;
    var o, m := E.Elect(rows), ByCid(rows);
    forall i | i in Owners(rows)
      ensures Owners(rows)[i] in Adoptions(rows) && Adoptions(rows)[Owners(rows)[i]].identity == i
    {
      WinnerAdopted(rows, i);
    }
    forall c | c in Adoptions(rows)
      ensures Adoptions(rows)[c].identity in Owners(rows)
      ensures Owners(rows)[Adoptions(rows)[c].identity] == c || Adoptions(rows)[c].loser
    {
      LoserEvicted(rows, c);
    }
  }

  /** A row that is the only one of its identity owns the identity and is not evicted. */
  lemma SoleRowWins(rows: seq<EstablishedSession>, r: EstablishedSession)
    requires DistinctSessions(rows) && r in rows && E.Valid(r)
    requires forall q :: q in rows && E.Valid(q) && E.Identity(q) == E.Identity(r) ==> q.cid == r.cid
    ensures E.Identity(r) in Owners(rows) && Owners(rows)[E.Identity(r)] == r.cid
    ensures r.cid in Adoptions(rows) && Adoptions(rows)[r.cid] == Adoption(r.cn, E.Identity(r), false)
  {
    hide E.Valid, E.Identity, E.Newer, E.Elect;
    E.ElectPartitions(rows);
    ByCidFinds(rows, r);
    assert E.Standing(rows, E.Identity(r));
    E.SameCidSameRow(rows, r, E.Elect(rows).winners[E.Identity(r)]);
  }

  /** Established rows are rows of the client list. */
  lemma RowIsClient(snap: StatusSnapshot, r: EstablishedSession)
    requires Consistent(snap) && r in snap.established
    ensures exists c :: c in snap.clients && c.established && SessionOf(c) == r
    ensures r.cid in Present(snap.clients)
  {
    var c :| c in snap.clients && c.established && SessionOf(c) == r;
  }

  // ----- environment assumptions -----

  /** What the handler relies on of a snapshot taken in state `t`. */
  ghost predicate Trustworthy(t: Tables, snap: StatusSnapshot) {
    && Consistent(snap)
    && DistinctClients(snap.clients)
    && (forall r :: r in snap.clients && r.cid in t.cids ==>
          // the common name of a CID never changes
          && NormalizeIdentity(r.cn) == Some(t.cids[r.cid].identity)
          // once established, always listed as established
          && (t.cids[r.cid].established ==> r.established)
          // not listed as established while still in flight
          && (r.established ==> !t.cids[r.cid].inFlight))
  }

  lemma SnapshotFits(t: Tables, snap: StatusSnapshot)
    requires Trustworthy(t, snap)
    ensures Fits(Sweep(t, Present(snap.clients)), Adoptions(snap.established))
  {
    hide E.Newer, E.Elect, E.Identity, Trustworthy, ByCid;
    var s, m := Sweep(t, Present(snap.clients)), ByCid(snap.established);
    forall c | c in s.cids && c in m
      ensures s.cids[c].identity == E.Identity(m[c]) && !s.cids[c].inFlight
    {
      RowFits(t, snap, m[c]);
    }
    forall c | c in s.cids && s.cids[c].established
      ensures c in m
    {
      EstablishedIsRow(t, snap, c);
    }
  }

  lemma RowFits(t: Tables, snap: StatusSnapshot, r: EstablishedSession)
    requires Trustworthy(t, snap) && r in snap.established && E.Valid(r) && r.cid in t.cids
    ensures t.cids[r.cid].identity == E.Identity(r) && !t.cids[r.cid].inFlight
  {
    RowIsClient(snap, r);
    var k :| k in snap.clients && k.established && SessionOf(k) == r;
  }

  lemma EstablishedIsRow(t: Tables, snap: StatusSnapshot, c: Cid)
    requires Trustworthy(t, snap) && c in t.cids && t.cids[c].established && c in Present(snap.clients)
    ensures c in ByCid(snap.established)
  {
    var k :| k in snap.clients && k.cid == c;
    assert SessionOf(k) in snap.established && E.Valid(SessionOf(k));
  }

  lemma ReconcileKeepsInv(t: Tables, snap: StatusSnapshot)
    requires Inv(t) && Trustworthy(t, snap)
    ensures Inv(Reconcile(t, snap))
  {
    EstablishedDistinct(snap.clients);
    SweepKeepsInv(t, Present(snap.clients));
    SnapshotFits(t, snap);
    ElectionDecides(snap.established);
    MergeKeepsAttempts(Sweep(t, Present(snap.clients)), Adoptions(snap.established), Owners(snap.established));
    MergeKeepsOwners(Sweep(t, Present(snap.clients)), Adoptions(snap.established), Owners(snap.established));
  }

  // ----- the expiry pass -----

  predicate Expired(r: EstablishedSession, now: Time, maxDuration: int) {
    maxDuration > 0 && now - r.connectedAt >= maxDuration
  }

  function Anchor(t: Tables, r: EstablishedSession, now: Time, maxDuration: int): Tables {
    if maxDuration <= 0 then t
    else
      var u := SetExpiry(t, r.cid, r.connectedAt);
      if Expired(r, now, maxDuration) then RequestEviction(u, r.cid) else u
  }

  function AnchorAll(t: Tables, rows: seq<EstablishedSession>, now: Time, maxDuration: int): Tables {
    if rows == [] then t
    else Anchor(AnchorAll(t, rows[..|rows| - 1], now, maxDuration), rows[|rows| - 1], now, maxDuration)
  }

  function ExpiredCids(rows: seq<EstablishedSession>, now: Time, maxDuration: int): seq<Cid> {
    if rows == [] then []
    else ExpiredCids(rows[..|rows| - 1], now, maxDuration) +
         if Expired(rows[|rows| - 1], now, maxDuration) then [rows[|rows| - 1].cid] else []
  }

  lemma {:induction false} ExpiredMeans(rows: seq<EstablishedSession>, now: Time, maxDuration: int, c: Cid)
    ensures c in ExpiredCids(rows, now, maxDuration) <==>
              exists r :: r in rows && r.cid == c && maxDuration > 0 && now - r.connectedAt >= maxDuration
  {
    if rows != [] {
      var init, last := rows[..|rows| - 1], rows[|rows| - 1];
      assert rows == init + [last];
      ExpiredMeans(init, now, maxDuration, c);
    }
  }

  lemma {:induction false} NothingLate(rows: seq<EstablishedSession>, now: Time, maxDuration: int)
    requires maxDuration <= 0
    ensures ExpiredCids(rows, now, maxDuration) == []
  {
    if rows != [] {
      NothingLate(rows[..|rows| - 1], now, maxDuration);
    }
  }

  /** Each row is listed once if its session has lasted the maximum duration, and never before. */
  lemma {:induction false} ExpiredOnce(
    rows: seq<EstablishedSession>, now: Time, maxDuration: int, r: EstablishedSession)
    requires DistinctSessions(rows) && r in rows
    ensures multiset(ExpiredCids(rows, now, maxDuration))[r.cid] ==
              if maxDuration > 0 && now - r.connectedAt >= maxDuration then 1 else 0
  {
    var init, last := rows[..|rows| - 1], rows[|rows| - 1];
    assert rows == init + [last];
    ExpiredMeans(init, now, maxDuration, r.cid);
    if r in init {
      ExpiredOnce(init, now, maxDuration, r);
      var k :| 0 <= k < |init| && init[k] == r;
      assert rows[k] == r && rows[|init|] == last;
    } else {
      forall q | q in init
        ensures q.cid != r.cid
      {
        var k :| 0 <= k < |init| && init[k] == q;
        assert rows[k] == q && rows[|init|] == r;
      }
      assert r.cid !in ExpiredCids(init, now, maxDuration);
    }
  }

  /** The whole rebuild when nothing interleaves. */
  function Rebuild(t: Tables, snap: StatusSnapshot, now: Time, maxDuration: int): Tables {
    AnchorAll(Reconcile(t, snap), snap.established, now, maxDuration)
  }

  /** The record that the expiry pass leaves for a row. */
  function Anchored(st: CidState, r: EstablishedSession, now: Time, maxDuration: int): CidState {
    st.(expiry := Some(r.connectedAt), evictionRequested := st.evictionRequested || now - r.connectedAt >= maxDuration)
  }

  function RowCids(rows: seq<EstablishedSession>): set<Cid> {
    set r | r in rows :: r.cid
  }

  /** The expiry pass sets the anchor and the eviction mark of each row's record, and nothing else. */
  ghost predicate Anchors(t: Tables, u: Tables, rows: seq<EstablishedSession>, now: Time, maxDuration: int) {
    && u.cids.Keys == t.cids.Keys && u.active == t.active && u.attempt == t.attempt
    && (forall c :: c in t.cids && c !in RowCids(rows) ==> u.cids[c] == t.cids[c])
    && (forall r :: r in rows && r.cid in t.cids ==> u.cids[r.cid] == Anchored(t.cids[r.cid], r, now, maxDuration))
  }

  lemma {:induction false} AnchorAllShape(t: Tables, rows: seq<EstablishedSession>, now: Time, maxDuration: int)
    requires DistinctSessions(rows)
    ensures maxDuration > 0 ==> Anchors(t, AnchorAll(t, rows, now, maxDuration), rows, now, maxDuration)
    ensures maxDuration <= 0 ==> AnchorAll(t, rows, now, maxDuration) == t
  {
    if rows != [] {
      var init, last := rows[..|rows| - 1], rows[|rows| - 1];
      assert rows == init + [last];
      AnchorAllShape(t, init, now, maxDuration);
      if maxDuration > 0 {
        forall r | r in init
          ensures r.cid != last.cid
        {
          var k :| 0 <= k < |init| && init[k] == r;
          assert rows[k] == r && rows[|init|] == last;
        }
        AnchorStep(t, AnchorAll(t, init, now, maxDuration), init, last, now, maxDuration);
      }
    }
  }

  lemma OneAnchored(u: Tables, r: EstablishedSession, now: Time, maxDuration: int)
    requires maxDuration > 0
    ensures Anchor(u, r, now, maxDuration) ==
              if r.cid in u.cids then u.(cids := u.cids[r.cid := Anchored(u.cids[r.cid], r, now, maxDuration)]) else u
  {
  }

  lemma AnchorStep(t: Tables, u: Tables, init: seq<EstablishedSession>, last: EstablishedSession, now: Time,
      maxDuration: int)
    requires maxDuration > 0 && Anchors(t, u, init, now, maxDuration)
    requires forall r :: r in init ==> r.cid != last.cid
    ensures Anchors(t, Anchor(u, last, now, maxDuration), init + [last], now, maxDuration)
  {
    assert RowCids(init + [last]) == RowCids(init) + {last.cid};
    assert last.cid !in RowCids(init);
    OneAnchored(u, last, now, maxDuration);
    hide Anchor, RowCids, Anchored;
  }

  // ----- exactness and idempotence -----

  /** What the reconciliation makes of the record of a valid row. */
  lemma ReconciledRow(t: Tables, snap: StatusSnapshot, r: EstablishedSession)
    requires Consistent(snap) && DistinctClients(snap.clients) && r in snap.established && E.Valid(r)
    ensures var v := Reconcile(t, snap);
            && r.cid in v.cids && v.cids[r.cid].established && !v.cids[r.cid].promoted
            && v.cids[r.cid].cn == r.cn && v.cids[r.cid].identity == E.Identity(r)
            && (v.cids[r.cid].evictionRequested <==>
                  (r.cid in t.cids && t.cids[r.cid].evictionRequested) || !E.Wins(E.Elect(snap.established), r))
            && (r.cid in t.cids ==>
                  v.cids[r.cid] == t.cids[r.cid].(cn := r.cn, identity := E.Identity(r), promoted := false,
                                                  established := true,
                                                  evictionRequested := v.cids[r.cid].evictionRequested))
  {
    hide E.Newer, E.Elect, E.Valid, E.Identity, E.Wins, ByCid;
    EstablishedDistinct(snap.clients);
    RowIsClient(snap, r);
    ByCidFinds(snap.established, r);
    E.ElectPartitions(snap.established);
  }

  /**
   After a rebuild the record of a valid row is anchored to its connect time when a maximum is set, and marked
   exactly when it was marked before, lost the election, or has lasted the maximum duration.
   */
  lemma RebuildMarksExactly(t: Tables, snap: StatusSnapshot, now: Time, maxDuration: int, r: EstablishedSession)
    requires Consistent(snap) && DistinctClients(snap.clients) && r in snap.established && E.Valid(r)
    ensures var u := Rebuild(t, snap, now, maxDuration);
            && r.cid in u.cids && u.cids[r.cid].established
            && (u.cids[r.cid].evictionRequested <==>
                  || (r.cid in t.cids && t.cids[r.cid].evictionRequested)
                  || !E.Wins(E.Elect(snap.established), r)
                  || (maxDuration > 0 && now - r.connectedAt >= maxDuration))
            && (maxDuration > 0 ==> u.cids[r.cid].expiry == Some(r.connectedAt))
  {
    hide E.Newer, E.Elect, E.Valid, E.Wins, Reconcile, AnchorAll;
    EstablishedDistinct(snap.clients);
    ReconciledRow(t, snap, r);
    AnchorAllShape(Reconcile(t, snap), snap.established, now, maxDuration);
  }

  /** Afterwards the tracked CIDs are the old ones still listed and all valid established ones. */
  lemma RebuildTracks(t: Tables, snap: StatusSnapshot, now: Time, maxDuration: int, c: Cid)
    requires Consistent(snap) && DistinctClients(snap.clients)
    ensures c in Rebuild(t, snap, now, maxDuration).cids <==>
              || (c in t.cids && exists r :: r in snap.clients && r.cid == c)
              || (exists r :: r in snap.clients && r.cid == c && r.established && NormalizeIdentity(r.cn).Some?)
  {
    hide E.Newer, E.Elect;
    EstablishedDistinct(snap.clients);
    AnchorAllShape(Reconcile(t, snap), snap.established, now, maxDuration);
    if c in ByCid(snap.established) {
      RowIsClient(snap, ByCid(snap.established)[c]);
    }
    if r :| r in snap.clients && r.cid == c && r.established && NormalizeIdentity(r.cn).Some? {
      assert SessionOf(r) in snap.established && E.Valid(SessionOf(r));
    }
  }

  /** Adopting the same rows into tables that already hold them changes nothing. */
  lemma MergeAgain(u: Tables, adopted: map<Cid, Adoption>, owners: map<Identity, Cid>)
    requires adopted.Keys <= u.cids.Keys
    requires forall c :: c in adopted ==> Adopt(u.cids, c, adopted[c]) == u.cids[c]
    requires u.active + owners == u.active
    requires forall i :: i in u.attempt && u.attempt[i] in adopted ==> adopted[u.attempt[i]].identity != i
    ensures Merge(u, adopted, owners) == u
  {
    var w := Merge(u, adopted, owners);
    assert w.cids == u.cids;
    assert w.attempt == u.attempt;
  }

  lemma SweepAgain(u: Tables, present: set<Cid>)
    requires u.cids.Keys <= present
    ensures Sweep(u, present) == u
  {
    var w := Sweep(u, present);
    assert w.cids == u.cids && w.active == u.active && w.attempt == u.attempt;
  }

  lemma AnchoredAgain(u: Tables, rows: seq<EstablishedSession>, now: Time, maxDuration: int)
    requires DistinctSessions(rows)
    requires maxDuration > 0 ==>
      forall r :: r in rows && r.cid in u.cids ==> Anchored(u.cids[r.cid], r, now, maxDuration) == u.cids[r.cid]
    ensures AnchorAll(u, rows, now, maxDuration) == u
  {
    AnchorAllShape(u, rows, now, maxDuration);
    var w := AnchorAll(u, rows, now, maxDuration);
    forall c | c in u.cids && maxDuration > 0
      ensures w.cids[c] == u.cids[c]
    {
      if r :| r in rows && r.cid == c {
      }
    }
    assert w.cids == u.cids;
  }

  /** The merged tables stay a fixed point when only anchors and eviction marks are added. */
  lemma MergeFixed(s: Tables, u: Tables, adopted: map<Cid, Adoption>, owners: map<Identity, Cid>)
    requires var v := Merge(s, adopted, owners);
             && u.cids.Keys == v.cids.Keys && u.active == v.active && u.attempt == v.attempt
             && forall c :: c in v.cids ==>
                  && u.cids[c] == v.cids[c].(expiry := u.cids[c].expiry,
                      evictionRequested := u.cids[c].evictionRequested)
                  && (v.cids[c].evictionRequested ==> u.cids[c].evictionRequested)
    ensures Merge(u, adopted, owners) == u
  {
    assert u.active + owners == u.active;
    MergeAgain(u, adopted, owners);
  }

  /** Applying the same snapshot again at the same clock changes nothing. */
  lemma RebuildIdempotent(t: Tables, snap: StatusSnapshot, now: Time, maxDuration: int)
    requires Consistent(snap) && DistinctClients(snap.clients)
    ensures var u := Rebuild(t, snap, now, maxDuration);
            Rebuild(u, snap, now, maxDuration) == u
  {
    hide E.Valid, E.Identity, E.Newer, E.Elect, DistinctClients, DistinctSessions, Merge, Sweep, Adoptions, Owners;
    var v, u := Reconcile(t, snap), Rebuild(t, snap, now, maxDuration);
    var present, rows := Present(snap.clients), snap.established;
    EstablishedDistinct(snap.clients);
    AnchorAllShape(v, rows, now, maxDuration);
    forall c | c in u.cids
      ensures c in present
    {
      RebuildTracks(t, snap, now, maxDuration, c);
    }
    if maxDuration > 0 {
      AnchorsOnly(v, u, rows, now, maxDuration);
    }
    hide Anchors, AnchorAll, Anchored, RowCids;
    SweepAgain(u, present);
    MergeFixed(Sweep(t, present), u, Adoptions(rows), Owners(rows));
    AnchoredAgain(u, rows, now, maxDuration);
  }

  lemma AnchorsOnly(v: Tables, u: Tables, rows: seq<EstablishedSession>, now: Time, maxDuration: int)
    requires Anchors(v, u, rows, now, maxDuration)
    ensures forall c :: c in v.cids ==>
      && u.cids[c] == v.cids[c].(expiry := u.cids[c].expiry, evictionRequested := u.cids[c].evictionRequested)
      && (v.cids[c].evictionRequested ==> u.cids[c].evictionRequested)
    ensures forall r :: r in rows && r.cid in u.cids ==> Anchored(u.cids[r.cid], r, now, maxDuration) == u.cids[r.cid]
  {
    forall c | c in v.cids && c in RowCids(rows)
      ensures u.cids[c] == v.cids[c].(expiry := u.cids[c].expiry, evictionRequested := u.cids[c].evictionRequested)
      ensures v.cids[c].evictionRequested ==> u.cids[c].evictionRequested
    {
      var r :| r in rows && r.cid == c;
    }
  }

  // ----- one row at a time, as the code adopts them -----

  /** The winner that a row replaces, if it does. */
  function Replaced(o: E.Outcome, r: EstablishedSession): Option<Cid>
    requires E.Valid(r)
  {
    var i := E.Identity(r);
    if i in o.winners && E.Newer(r, o.winners[i]) then Some(o.winners[i].cid) else None
  }

  predicate Loses(o: E.Outcome, r: EstablishedSession)
    requires E.Valid(r)
  {
    E.Identity(r) in o.winners && !E.Newer(r, o.winners[E.Identity(r)])
  }

  /** A row with a new CID is foreign to the election so far. */
  lemma NewRow(init: seq<EstablishedSession>, r: EstablishedSession)
    requires DistinctSessions(init + [r])
    ensures DistinctSessions(init)
    ensures r.cid !in ByCid(init) && r.cid !in E.Elect(init).evictions
    ensures E.Valid(r) && Replaced(E.Elect(init), r).Some? ==> Replaced(E.Elect(init), r).value in ByCid(init)
  {
    hide E.Valid, E.Identity, E.Newer, E.Elect;
    var rows, o := init + [r], E.Elect(init);
    assert forall k :: 0 <= k < |init| ==> rows[k] == init[k];
    assert rows[|init|] == r;
    forall q | q in init
      ensures q.cid != r.cid
    {
      var k :| 0 <= k < |init| && init[k] == q;
      assert rows[k] == q;
    }
    E.ElectPartitions(init);
    if E.Valid(r) && Replaced(o, r).Some? {
      WinnerAdopted(init, E.Identity(r));
    }
  }

  lemma NextBallot(init: seq<EstablishedSession>, r: EstablishedSession)
    ensures E.Elect(init + [r]) == E.Ballot(E.Elect(init), r)
    ensures ByCid(init + [r]) == if E.Valid(r) then ByCid(init)[r.cid := r] else ByCid(init)
  {
    var rows := init + [r];
    assert rows[..|rows| - 1] == init && rows[|rows| - 1] == r;
  }

  lemma NextAdoptions(init: seq<EstablishedSession>, r: EstablishedSession)
    requires DistinctSessions(init + [r])
    ensures !E.Valid(r) ==> Adoptions(init + [r]) == Adoptions(init)
    ensures E.Valid(r) ==>
      var a, b, o := Adoptions(init), Adoptions(init + [r]), E.Elect(init);
      && r.cid !in a && b.Keys == a.Keys + {r.cid}
      && (Replaced(o, r).Some? ==> Replaced(o, r).value in a)
      && b[r.cid] == Adoption(r.cn, E.Identity(r), Loses(o, r))
      && forall c :: c in a ==> b[c] == a[c].(loser := a[c].loser || Replaced(o, r) == Some(c))
  {
    hide E.Valid, E.Identity, E.Newer, E.Elect, ByCid, DistinctSessions;
    NewRow(init, r);
    NextBallot(init, r);
  }

  /** Merging one more row: the row's record is adopted and the replaced winner is marked. */
  lemma MergeOneMore(s: Tables, a: map<Cid, Adoption>, b: map<Cid, Adoption>, c: Cid, replaced: Option<Cid>)
    requires c !in a && b.Keys == a.Keys + {c}
    requires forall d :: d in a ==> b[d] == a[d].(loser := a[d].loser || replaced == Some(d))
    requires replaced.Some? ==> replaced.value in a
    ensures var t, u := Merge(s, a, map[]), Merge(s, b, map[]);
            var cids := t.cids[c := Adopt(t.cids, c, b[c])];
            && (replaced.Some? ==> replaced.value in t.cids && replaced.value != c)
            && u.cids == (if replaced.None? then cids
                          else cids[replaced.value := cids[replaced.value].(evictionRequested := true)])
            && u.attempt == Unlink(t.attempt, b[c].identity, c)
  {
    var t, u := Merge(s, a, map[]), Merge(s, b, map[]);
    var cids := t.cids[c := Adopt(t.cids, c, b[c])];
    var cids' := if replaced.Some? then cids[replaced.value := cids[replaced.value].(evictionRequested := true)]
        else cids;
    assert u.cids.Keys == cids'.Keys;
    forall d | d in u.cids
      ensures u.cids[d] == cids'[d]
    {
      MergeRecord(s, a, b, c, replaced, d);
    }
    MergeAttempts(s, a, b, c);
  }

  /** What one more row does to the merged tables. */
  lemma MergeRow(s: Tables, init: seq<EstablishedSession>, r: EstablishedSession)
    requires DistinctSessions(init + [r])
    ensures var t, u := Merge(s, Adoptions(init), map[]), Merge(s, Adoptions(init + [r]), map[]);
            if !E.Valid(r) then u == t
            else
              var replaced := Replaced(E.Elect(init), r);
              var cids := t.cids[r.cid := Adopt(t.cids, r.cid, Adoption(r.cn, E.Identity(r), Loses(E.Elect(init), r)))];
              && (replaced.Some? ==> replaced.value in t.cids && replaced.value != r.cid)
              && u.cids == (if replaced.None? then cids
                            else cids[replaced.value := cids[replaced.value].(evictionRequested := true)])
              && u.attempt == Unlink(t.attempt, E.Identity(r), r.cid)
  {
    hide E.Valid, E.Identity, E.Newer, E.Elect, Adoptions, Merge, DistinctSessions, Replaced, Loses, Adopt;
    NextAdoptions(init, r);
    if E.Valid(r) {
      MergeOneMore(s, Adoptions(init), Adoptions(init + [r]), r.cid, Replaced(E.Elect(init), r));
    }
  }

  lemma MergeRecord(s: Tables, a: map<Cid, Adoption>, b: map<Cid, Adoption>, c: Cid, replaced: Option<Cid>, d: Cid)
    requires c !in a && b.Keys == a.Keys + {c}
    requires d in a ==> b[d] == a[d].(loser := a[d].loser || replaced == Some(d))
    requires replaced.Some? ==> replaced.value in a
    requires d in Merge(s, b, map[]).cids
    ensures var t, u := Merge(s, a, map[]), Merge(s, b, map[]);
            && (d != c ==> d in t.cids)
            && u.cids[d] == if d == c then Adopt(t.cids, c, b[c])
                            else if replaced == Some(d) then t.cids[d].(evictionRequested := true) else t.cids[d]
  {
  }

  lemma MergeAttempts(s: Tables, a: map<Cid, Adoption>, b: map<Cid, Adoption>, c: Cid)
    requires c !in a && b.Keys == a.Keys + {c}
    requires forall d :: d in a ==> b[d].identity == a[d].identity
    ensures Merge(s, b, map[]).attempt == Unlink(Merge(s, a, map[]).attempt, b[c].identity, c)
  {
  }
}
