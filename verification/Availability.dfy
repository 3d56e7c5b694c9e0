/**
 Who owns an identity over a run: exactly the CID that established last or was elected last, until it goes.
 Attempts that connect, fail, time out or are superseded do not matter.
 */
module Availability {
  import opened Basics
  import opened Text
  import opened Snapshots
  import opened OwnershipRuns
  import O = Ownership
  import R = Rebuild
  import E = Election

  function OwnerOf(t: O.Tables, i: Identity): Option<Cid> {
    if i in t.active then Some(t.active[i]) else None
  }

  predicate Tracked(s: State, d: Cid, i: Identity) {
    d in s.tables.cids && s.tables.cids[d].identity == i
  }

  /** The owner of `i` after a step, when it was `o` before. */
  function Take(s: State, a: Action, i: Identity, o: Option<Cid>): Option<Cid> {
    match a
    case EstablishFromEvent(d, _) => if Tracked(s, d, i) then Some(d) else o
    case EstablishFromStatus(d) => if Tracked(s, d, i) then Some(d) else o
    case Disconnect(d) => if o == Some(d) then None else o
    case Reconcile(snap, clock) =>
      var owners := R.Owners(snap.established);
      if i in owners then Some(owners[i]) else None
    case _ => o
  }

  // ----- one step -----

  /** What a rebuild leaves in the active index is exactly what it elected. */
  lemma RebuildElectsExactly(env: Env, s: State, snap: StatusSnapshot)
    requires Inv(env, s) && Truthful(env, s.tables, snap)
    ensures R.Reconcile(s.tables, snap).active == R.Owners(snap.established)
  {
    hide E.Newer, E.Elect, R.Adoptions, R.Owners, O.Inv, HistoryInv, Truthful;
    var u, owners := R.Reconcile(s.tables, snap), R.Owners(snap.established);
    forall i | i in u.active
      ensures i in owners
    {
      if i !in owners {
        SweptOwnerStands(env, s, snap, i);
      }
    }
  }

  /** An owner that the snapshot lists stands for election. */
  lemma SweptOwnerStands(env: Env, s: State, snap: StatusSnapshot, i: Identity)
    requires Inv(env, s) && Truthful(env, s.tables, snap) && i in R.Sweep(s.tables, R.Present(snap.clients)).active
    ensures i in R.Owners(snap.established)
  {
    hide E.Newer, E.Elect;
    O.OwnerSettled(s.tables, i);
    var c := s.tables.active[i];
    hide O.Inv, UnestablishedUnanchored, StartsSound, AnchorsSound;
    var k :| k in snap.clients && k.cid == c;
    EstablishedDistinct(snap.clients);
    E.ElectPartitions(snap.established);
    assert SessionOf(k) in snap.established && E.Valid(SessionOf(k)) && E.Identity(SessionOf(k)) == i;
    assert E.Standing(snap.established, i);
  }

  lemma EstablishOwner(t: O.Tables, d: Cid, i: Identity)
    ensures OwnerOf(O.Establish(t, d), i) == if d in t.cids && t.cids[d].identity == i then Some(d) else OwnerOf(t, i)
  {
  }

  lemma DisconnectOwner(t: O.Tables, d: Cid, i: Identity)
    requires O.ActiveAgree(t)
    ensures OwnerOf(O.Disconnect(t, d), i) == if OwnerOf(t, i) == Some(d) then None else OwnerOf(t, i)
  {
  }

  lemma StepOwner(env: Env, s: State, a: Action, i: Identity)
    requires Inv(env, s) && Enabled(env, s, a)
    ensures OwnerOf(Next(env, s, a).tables, i) == Take(s, a, i, OwnerOf(s.tables, i))
  {
    hide NormalizeIdentity, HistoryInv, O.LosersMarked, O.AttemptsAgree, O.PhasesDisjoint, O.ActiveAgree,
         O.Establish, O.Disconnect, O.Connect, R.Reconcile, R.Owners, Truthful;
    match a
    case EstablishFromEvent(d, _) => EstablishOwner(s.tables, d, i);
    case EstablishFromStatus(d) => EstablishOwner(s.tables, d, i);
    case Disconnect(d) => DisconnectOwner(s.tables, d, i);
    case Reconcile(snap, clock) => RebuildElectsExactly(env, s, snap);
    case Connect(e, supersedable) => O.ConnectShape(s.tables, e, supersedable);
    case _ =>
  }

  // ----- runs -----

  /** The owner of `i` at the end of a run that starts with owner `o`. */
  ghost function LastTaker(env: Env, s: State, acts: seq<Action>, i: Identity, o: Option<Cid>): Option<Cid>
    decreases |acts|
  {
    if acts == [] then o else LastTaker(env, Next(env, s, acts[0]), acts[1..], i, Take(s, acts[0], i, o))
  }

  /** Over any run the owner is the last CID to establish or to be elected, unless it went afterwards. */
  lemma {:induction false} OwnerIsLastTaker(env: Env, s: State, acts: seq<Action>, s': State, i: Identity)
    requires Inv(env, s) && Run(env, s, acts, s')
    ensures OwnerOf(s'.tables, i) == LastTaker(env, s, acts, i, OwnerOf(s.tables, i))
    decreases |acts|
  {
    hide Inv, Enabled, Next, OwnerOf, Take;
    if acts != [] {
      StepOwner(env, s, acts[0], i);
      InvKept(env, s, acts[0]);
      OwnerIsLastTaker(env, Next(env, s, acts[0]), acts[1..], s', i);
    }
  }

  /** The step takes `i` from its owner `c`. */
  ghost predicate TakesAway(s: State, a: Action, i: Identity, c: Cid) {
    match a
    case EstablishFromEvent(d, _) => d != c && Tracked(s, d, i)
    case EstablishFromStatus(d) => d != c && Tracked(s, d, i)
    case Disconnect(d) => d == c
    case Reconcile(snap, clock) => !(i in R.Owners(snap.established) && R.Owners(snap.established)[i] == c)
    case _ => false
  }

  ghost predicate NoneTakes(env: Env, s: State, acts: seq<Action>, i: Identity, c: Cid)
    decreases |acts|
  {
    acts != [] ==> !TakesAway(s, acts[0], i, c) && NoneTakes(env, Next(env, s, acts[0]), acts[1..], i, c)
  }

  ghost predicate OwnsThroughout(env: Env, s: State, acts: seq<Action>, i: Identity, c: Cid)
    decreases |acts|
  {
    OwnerOf(s.tables, i) == Some(c) && (acts != [] ==> OwnsThroughout(env, Next(env, s, acts[0]), acts[1..], i, c))
  }

  /** An owner owns its identity in every state of a run if and only if no step takes it away. */
  lemma {:induction false} OwnsThroughoutIff(env: Env, s: State, acts: seq<Action>, s': State, i: Identity, c: Cid)
    requires Inv(env, s) && Run(env, s, acts, s') && OwnerOf(s.tables, i) == Some(c)
    ensures OwnsThroughout(env, s, acts, i, c) <==> NoneTakes(env, s, acts, i, c)
    decreases |acts|
  {
    hide Inv, Enabled, Next, R.Owners;
    if acts != [] {
      StepOwner(env, s, acts[0], i);
      InvKept(env, s, acts[0]);
      if !TakesAway(s, acts[0], i, c) {
        OwnsThroughoutIff(env, Next(env, s, acts[0]), acts[1..], s', i, c);
      }
    }
  }

  // ----- what else the owner's record says -----

  /** The anchor of `c` after a step, when it was `e` before. */
  function AnchorBy(a: Action, c: Cid, e: Option<Time>): Option<Time> {
    if a.SetExpiry? && a.start.cid == c then Some(a.start.at) else e
  }

  function LastAnchor(acts: seq<Action>, c: Cid, e: Option<Time>): Option<Time> {
    if acts == [] then e else LastAnchor(acts[1..], c, AnchorBy(acts[0], c, e))
  }

  /** What a step leaves of the record of an owner that it does not displace. */
  ghost predicate Stands(t: O.Tables, u: O.Tables, a: Action, c: Cid)
    requires c in t.cids
  {
    && c in u.cids && u.cids[c].established
    && u.cids[c].expiry == AnchorBy(a, c, t.cids[c].expiry)
    && (u.cids[c].evictionRequested <==> t.cids[c].evictionRequested || a == RequestEviction(c))
  }

  lemma ReconcileStands(env: Env, s: State, snap: StatusSnapshot, clock: Time, i: Identity, c: Cid)
    requires Inv(env, s) && Truthful(env, s.tables, snap) && OwnerOf(s.tables, i) == Some(c)
    requires i in R.Owners(snap.established) && R.Owners(snap.established)[i] == c
    ensures c in s.tables.cids && Stands(s.tables, R.Reconcile(s.tables, snap), Reconcile(snap, clock), c)
  {
    hide E.Newer, E.Elect, R.Adoptions, R.Owners, R.Merge, R.Sweep, R.Present, O.Inv, HistoryInv;
    O.OwnerSettled(s.tables, i);
    EstablishedDistinct(snap.clients);
    R.OwnerAdopted(snap.established, i);
    var r :| r in snap.established && r.cid == c;
    R.RowIsClient(snap, r);
    MergeStands(s.tables, R.Present(snap.clients), R.Adoptions(snap.established), R.Owners(snap.established), c);
  }

  lemma MergeStands(t: O.Tables, present: set<Cid>, adopted: map<Cid, R.Adoption>, owners: map<Identity, Cid>, c: Cid)
    requires c in present && c in t.cids && c in adopted && !adopted[c].loser
    ensures var u := R.Merge(R.Sweep(t, present), adopted, owners);
            && c in u.cids && u.cids[c].established
            && u.cids[c].expiry == t.cids[c].expiry && u.cids[c].evictionRequested == t.cids[c].evictionRequested
  {
  }

  lemma EstablishStands(t: O.Tables, d: Cid, i: Identity, c: Cid)
    requires O.Inv(t) && OwnerOf(t, i) == Some(c) && c in t.cids
    requires d != c && d in t.cids ==> t.cids[d].identity != i
    ensures var u := O.Establish(t, d);
            && c in u.cids && u.cids[c].established
            && u.cids[c].expiry == t.cids[c].expiry && u.cids[c].evictionRequested == t.cids[c].evictionRequested
  {
    O.OwnerSettled(t, i);
    hide O.LosersMarked, O.AttemptsAgree, O.PhasesDisjoint;
    if d in t.cids {
      hide O.Establish;
      O.EstablishShape(t, d);
    }
  }

  lemma RestStands(env: Env, s: State, a: Action, i: Identity, c: Cid)
    requires Inv(env, s) && Enabled(env, s, a) && OwnerOf(s.tables, i) == Some(c) && a != Disconnect(c)
    requires !a.Reconcile? && !a.EstablishFromEvent? && !a.EstablishFromStatus?
    ensures c in s.tables.cids && Stands(s.tables, Next(env, s, a).tables, a, c)
  {
    hide NormalizeIdentity, O.Inv, HistoryInv, O.Connect, O.Classify, O.Promote, O.CleanupPromoted, O.ClearInFlight,
         O.Disconnect, O.SetUsername;
    O.OwnerSettled(s.tables, i);
    if a.Connect? {
      ConnectStands(env, s, a.e, a.supersedable, i, c);
    } else if !a.SetExpiry? && !a.RequestEviction? {
      QuietStands(s.tables, a, c);
    }
  }

  /** Steps about other phases or other CIDs. */
  lemma QuietStands(t: O.Tables, a: Action, c: Cid)
    requires c in t.cids && t.cids[c].established && !O.Live(t.cids[c])
    ensures a.Promote? ==> Stands(t, O.Promote(t, a.cid, a.now), a, c)
    ensures a.CleanupPromoted? ==> Stands(t, O.CleanupPromoted(t, a.cid), a, c)
    ensures a.ClearInFlight? ==> Stands(t, O.ClearInFlight(t, a.cid), a, c)
    ensures a.Disconnect? && a.cid != c ==> Stands(t, O.Disconnect(t, a.cid), a, c)
    ensures a.SetUsername? ==> Stands(t, O.SetUsername(t, a.cid, a.username), a, c)
  {
  }

  lemma ConnectStands(env: Env, s: State, e: O.ConnectEvent, supersedable: bool, i: Identity, c: Cid)
    requires Inv(env, s) && Enabled(env, s, Connect(e, supersedable)) && OwnerOf(s.tables, i) == Some(c)
        && c in s.tables.cids
    ensures var u := O.Connect(s.tables, e, supersedable);
            && c in u.cids && u.cids[c].established == s.tables.cids[c].established
            && u.cids[c].expiry == s.tables.cids[c].expiry
            && u.cids[c].evictionRequested == s.tables.cids[c].evictionRequested
  {
    hide NormalizeIdentity, O.Inv, O.Connect, O.Classify, UnestablishedUnanchored, StartsSound, AnchorsSound;
    O.OwnerSettled(s.tables, i);
    O.ConnectShape(s.tables, e, supersedable);
    if e.cid == c {
      assert c in s.seen;
      O.AttemptIsLive(s.tables, e.identity);
    }
  }

  lemma StepStands(env: Env, s: State, a: Action, i: Identity, c: Cid)
    requires Inv(env, s) && Enabled(env, s, a) && OwnerOf(s.tables, i) == Some(c) && !TakesAway(s, a, i, c)
    ensures c in s.tables.cids && Stands(s.tables, Next(env, s, a).tables, a, c)
  {
    hide HistoryInv, NormalizeIdentity, O.Inv, O.Establish, O.Connect, R.Reconcile, R.Owners, Truthful;
    O.OwnerSettled(s.tables, i);
    match a
    case Reconcile(snap, clock) => ReconcileStands(env, s, snap, clock, i, c);
    case EstablishFromEvent(d, _) => EstablishStands(s.tables, d, i, c);
    case EstablishFromStatus(d) => EstablishStands(s.tables, d, i, c);
    case _ => RestStands(env, s, a, i, c);
  }

  lemma {:induction false} OwnerStands(env: Env, s: State, acts: seq<Action>, s': State, i: Identity, c: Cid)
    requires Inv(env, s) && Run(env, s, acts, s') && OwnerOf(s.tables, i) == Some(c) && NoneTakes(env, s, acts, i, c)
    ensures OwnerOf(s'.tables, i) == Some(c)
    ensures c in s.tables.cids && c in s'.tables.cids && s'.tables.cids[c].established
    ensures s'.tables.cids[c].expiry == LastAnchor(acts, c, s.tables.cids[c].expiry)
    ensures s'.tables.cids[c].evictionRequested <==> s.tables.cids[c].evictionRequested || RequestEviction(c) in acts
    decreases |acts|
  {
    hide HistoryInv, O.Inv, Enabled, Next, R.Owners, AnchorBy;
    O.OwnerSettled(s.tables, i);
    if acts != [] {
      var u := Next(env, s, acts[0]);
      StepOwner(env, s, acts[0], i);
      StepStands(env, s, acts[0], i, c);
      InvKept(env, s, acts[0]);
      hide Take, TakesAway, Inv;
      OwnerStands(env, u, acts[1..], s', i, c);
      assert acts == [acts[0]] + acts[1..];
    }
  }

  // ----- marks come from rebuilds that find the row overdue -----

  /** How often a step lists `c` as past its duration. */
  function Overdue(env: Env, a: Action, c: Cid): nat {
    if a.Reconcile? then multiset(R.ExpiredCids(a.snap.established, a.clock, env.maxDuration))[c] else 0
  }

  function TimesOverdue(env: Env, acts: seq<Action>, c: Cid): nat {
    if acts == [] then 0 else Overdue(env, acts[0], c) + TimesOverdue(env, acts[1..], c)
  }

  function TimesMarked(acts: seq<Action>, c: Cid): nat {
    if acts == [] then 0 else (if acts[0] == RequestEviction(c) then 1 else 0) + TimesMarked(acts[1..], c)
  }

  /** Every overdue row is marked once or still queued. */
  lemma {:induction false} MarksBalance(env: Env, s: State, acts: seq<Action>, s': State, c: Cid)
    requires Run(env, s, acts, s')
    ensures s'.overdue[c] + TimesMarked(acts, c) == s.overdue[c] + TimesOverdue(env, acts, c)
    ensures TimesMarked(acts, c) > 0 <==> RequestEviction(c) in acts
    decreases |acts|
  {
    hide Next, Enabled, Overdue;
    if acts != [] {
      assert acts == [acts[0]] + acts[1..];
      StepBalance(env, s, acts[0], c);
      MarksBalance(env, Next(env, s, acts[0]), acts[1..], s', c);
    }
  }

  lemma StepBalance(env: Env, s: State, a: Action, c: Cid)
    requires Enabled(env, s, a)
    ensures Next(env, s, a).overdue[c] + (if a == RequestEviction(c) then 1 else 0) == s.overdue[c] + Overdue(env, a, c)
  {
    hide R.ExpiredCids, O.Connect, O.Classify, O.Establish, O.StartsExpiry, R.Reconcile, R.RowCids, StartsOf;
  }

  /** A rebuild of the run listed `c` when `c` was past its duration. */
  ghost predicate FoundOverdue(env: Env, acts: seq<Action>, c: Cid) {
    exists k, r :: && 0 <= k < |acts| && acts[k].Reconcile? && r in acts[k].snap.established
                   && r.cid == c && env.maxDuration > 0 && acts[k].clock - r.connectedAt >= env.maxDuration
  }

  lemma {:induction false} OverdueMeans(env: Env, acts: seq<Action>, c: Cid)
    ensures TimesOverdue(env, acts, c) > 0 <==> FoundOverdue(env, acts, c)
    decreases |acts|
  {
    hide R.ExpiredCids;
    if acts != [] {
      var a, rest := acts[0], acts[1..];
      OverdueMeans(env, rest, c);
      if a.Reconcile? {
        R.ExpiredMeans(a.snap.established, a.clock, env.maxDuration, c);
      }
      if FoundOverdue(env, rest, c) {
        var k, r :| && 0 <= k < |rest| && rest[k].Reconcile? && r in rest[k].snap.established
                    && r.cid == c && env.maxDuration > 0 && rest[k].clock - r.connectedAt >= env.maxDuration;
        assert acts[k + 1] == rest[k];
      }
      if k, r :| && 0 <= k < |acts| && acts[k].Reconcile? && r in acts[k].snap.established
                 && r.cid == c && env.maxDuration > 0 && acts[k].clock - r.connectedAt >= env.maxDuration {
        assert k > 0 ==> rest[k - 1] == acts[k];
      }
    }
  }

  /**
   Availability first: whatever else happens, until another CID of the identity establishes, a rebuild elects
   another one, or the owner disconnects, the owner keeps its identity and stays established. Its anchor changes
   only by its own timer start. Its eviction mark is new exactly when a rebuild found it overdue and the mark is
   no longer queued.
   */
  lemma AvailabilityFirst(env: Env, s: State, acts: seq<Action>, s': State, i: Identity, c: Cid)
    requires Inv(env, s) && Run(env, s, acts, s') && OwnerOf(s.tables, i) == Some(c) && NoneTakes(env, s, acts, i, c)
    ensures OwnerOf(s'.tables, i) == Some(c)
    ensures c in s.tables.cids && c in s'.tables.cids && s'.tables.cids[c].established
    ensures s'.tables.cids[c].expiry == LastAnchor(acts, c, s.tables.cids[c].expiry)
    ensures s'.tables.cids[c].evictionRequested <==>
              s.tables.cids[c].evictionRequested || s.overdue[c] + TimesOverdue(env, acts, c) > s'.overdue[c]
    ensures s'.tables.cids[c].evictionRequested && !s.tables.cids[c].evictionRequested ==>
              c in s.overdue || FoundOverdue(env, acts, c)
    ensures c !in s'.overdue && FoundOverdue(env, acts, c) ==> s'.tables.cids[c].evictionRequested
  {
    hide Inv, Run, NoneTakes, FoundOverdue;
    OwnerStands(env, s, acts, s', i, c);
    MarksBalance(env, s, acts, s', c);
    OverdueMeans(env, acts, c);
  }

  // ----- the anchor of an anchored owner -----

  /** The timer of `c` is started again. */
  ghost predicate Restarted(acts: seq<Action>, c: Cid) {
    exists k :: 0 <= k < |acts| && acts[k].SetExpiry? && acts[k].start.cid == c
  }

  /** Once anchored, a CID is anchored again only to the connect time that snapshots give. */
  lemma {:induction false} AnchorsToConnectTime(env: Env, s: State, acts: seq<Action>, s': State, c: Cid,
      e: Option<Time>)
    requires Inv(env, s) && Run(env, s, acts, s') && c in s.anchors
    ensures LastAnchor(acts, c, e) == if Restarted(acts, c) then Some(env.since(c)) else e
    decreases |acts|
  {
    hide O.Inv, NamesAgree, UnestablishedUnanchored, AnchorsSound, O.Connect, O.Establish, R.Reconcile;
    if acts != [] {
      InvKept(env, s, acts[0]);
      AnchorsToConnectTime(env, Next(env, s, acts[0]), acts[1..], s', c, AnchorBy(acts[0], c, e));
      RestartedTail(acts, c);
    }
  }

  lemma RestartedTail(acts: seq<Action>, c: Cid)
    requires acts != []
    ensures Restarted(acts, c) <==> (acts[0].SetExpiry? && acts[0].start.cid == c) || Restarted(acts[1..], c)
  {
    var rest := acts[1..];
    if k :| 0 <= k < |rest| && rest[k].SetExpiry? && rest[k].start.cid == c {
      assert acts[k + 1] == rest[k];
    }
    if k :| 0 <= k < |acts| && acts[k].SetExpiry? && acts[k].start.cid == c {
      assert k > 0 ==> rest[k - 1] == acts[k];
    }
  }

  /**
   The anchor of an undisturbed owner that is already anchored moves exactly when its timer is started again and
   it was not at the connect time yet; and it moves there.
   */
  lemma AnchorMovesIff(env: Env, s: State, acts: seq<Action>, s': State, i: Identity, c: Cid)
    requires Inv(env, s) && Run(env, s, acts, s') && OwnerOf(s.tables, i) == Some(c) && NoneTakes(env, s, acts, i, c)
    requires c in s.anchors
    ensures c in s.tables.cids && c in s'.tables.cids
    ensures var was, now := s.tables.cids[c].expiry, s'.tables.cids[c].expiry;
            && (now != was <==> Restarted(acts, c) && was != Some(env.since(c)))
            && (now != was ==> now == Some(env.since(c)) && (was.Some? ==> env.since(c) < was.value))
  {
    hide O.Inv, Run, NoneTakes, Restarted;
    OwnerStands(env, s, acts, s', i, c);
    AnchorsToConnectTime(env, s, acts, s', c, s.tables.cids[c].expiry);
  }

  // ----- a rebuild moves an anchor, and may mark the owner -----

  function Listing(c: Cid, cn: string, since: Time): StatusClient {
    StatusClient(c, cn, "", "", since, true, false)
  }

  function OneClient(c: Cid, cn: string, since: Time): StatusSnapshot {
    var k := Listing(c, cn, since);
    StatusSnapshot([k], [SessionOf(k)])
  }

  lemma OneClientElected(c: Cid, cn: string, since: Time)
    requires NormalizeIdentity(cn).Some?
    ensures var snap := OneClient(c, cn, since);
            && Consistent(snap) && R.Owners(snap.established) == map[NormalizeIdentity(cn).value := c]
            && StartsOf(snap.established) == multiset{Start(c, since, false)}
  {
    hide NormalizeIdentity;
    var snap := OneClient(c, cn, since);
    assert snap.clients[..0] == [] && snap.established[..0] == [];
    assert EstablishedOf(snap.clients[..0]) == [];
    assert E.Elect(snap.established[..0]) == E.Outcome(map[], []);
  }

  /** A client that connects, is let in, establishes and has its timer anchored at the event. */
  ghost function Settled(env: Env, e: O.ConnectEvent): State {
    var s1 := Next(env, Init, Connect(e, false));
    var s2 := Next(env, s1, Promote(e.cid, e.now));
    var s3 := Next(env, s2, EstablishFromEvent(e.cid, e.now));
    Next(env, s3, SetExpiry(Start(e.cid, e.now, true)))
  }

  ghost predicate Fitting(env: Env, e: O.ConnectEvent) {
    e.cn == env.names(e.cid) && NormalizeIdentity(e.cn) == Some(e.identity) && env.since(e.cid) <= e.now
  }

  lemma SettledReachable(env: Env, e: O.ConnectEvent)
    requires Fitting(env, e) && env.maxDuration > 0
    ensures Reachable(env, Settled(env, e))
    ensures var s := Settled(env, e);
            && s.starts == multiset{} && s.seen == {e.cid} && s.anchors == map[e.cid := e.now]
            && s.tables.attempt == map[]
            && OwnerOf(s.tables, e.identity) == Some(e.cid) && s.tables.cids.Keys == {e.cid}
            && s.tables.cids[e.cid].identity == e.identity
            && s.tables.cids[e.cid].established && !s.tables.cids[e.cid].inFlight
            && s.tables.cids[e.cid].expiry == Some(e.now) && !s.tables.cids[e.cid].evictionRequested
  {
    hide NormalizeIdentity, Reachable;
    var s1 := Next(env, Init, Connect(e, false));
    var s2 := Next(env, s1, Promote(e.cid, e.now));
    var s3 := Next(env, s2, EstablishFromEvent(e.cid, e.now));
    InitReachable(env);
    ReachableStep(env, Init, Connect(e, false));
    ReachableStep(env, s1, Promote(e.cid, e.now));
    ReachableStep(env, s2, EstablishFromEvent(e.cid, e.now));
    ReachableStep(env, s3, SetExpiry(Start(e.cid, e.now, true)));
  }

  /** A rebuild that lists the settled client, at some clock, and one step that it leads to. */
  ghost function Rebuilding(env: Env, e: O.ConnectEvent, clock: Time, next: Action): (acts: seq<Action>)
    ensures |acts| == 2
  {
    [Reconcile(OneClient(e.cid, e.cn, env.since(e.cid)), clock), next]
  }

  ghost function Rebuilt(env: Env, e: O.ConnectEvent, clock: Time, next: Action): State {
    Next(env, Next(env, Settled(env, e), Rebuilding(env, e, clock, next)[0]), next)
  }

  /** The timer starts again, or the client is overdue and is marked. */
  ghost predicate FollowsRebuild(env: Env, e: O.ConnectEvent, clock: Time, next: Action) {
    || next == SetExpiry(Start(e.cid, env.since(e.cid), false))
    || (next == RequestEviction(e.cid) && clock - env.since(e.cid) >= env.maxDuration)
  }

  lemma RebuiltUndisturbed(env: Env, e: O.ConnectEvent, clock: Time, next: Action)
    requires Fitting(env, e) && env.maxDuration > 0 && FollowsRebuild(env, e, clock, next)
    ensures var s, acts, s' := Settled(env, e), Rebuilding(env, e, clock, next), Rebuilt(env, e, clock, next);
            && Reachable(env, s) && Run(env, s, acts, s')
            && OwnerOf(s.tables, e.identity) == Some(e.cid) && NoneTakes(env, s, acts, e.identity, e.cid)
            && e.cid in s.tables.cids && e.cid in s'.tables.cids
            && s.tables.cids[e.cid].expiry == Some(e.now)
            && s'.tables.cids[e.cid].expiry == AnchorBy(next, e.cid, Some(e.now))
            && !s.tables.cids[e.cid].evictionRequested
            && (s'.tables.cids[e.cid].evictionRequested <==> next == RequestEviction(e.cid))
  {
    hide NormalizeIdentity, Settled, Next, Enabled, Reachable;
    var s, acts := Settled(env, e), Rebuilding(env, e, clock, next);
    var u, v := Next(env, s, acts[0]), Rebuilt(env, e, clock, next);
    SettledReachable(env, e);
    RebuildSteps(env, e, clock, next);
    OneStep(env, s, acts[0]);
    OneStep(env, u, next);
    RunThen(env, s, [acts[0]], u, [next], v);
    assert [acts[0]] + [next] == acts;
    assert acts[1..] == [next] && acts[1..][1..] == [];
    assert NoneTakes(env, v, acts[1..][1..], e.identity, e.cid);
    assert NoneTakes(env, u, acts[1..], e.identity, e.cid);
    ReachableInv(env, s);
    OwnerStands(env, s, acts, v, e.identity, e.cid);
    assert LastAnchor(acts[1..][1..], e.cid, AnchorBy(next, e.cid, Some(e.now))) == AnchorBy(next, e.cid, Some(e.now));
    assert LastAnchor(acts[1..], e.cid, Some(e.now)) == AnchorBy(next, e.cid, Some(e.now));
  }

  /**
   The anchor of an undisturbed owner does change: a rebuild starts its timer again, at the connect time of the
   snapshot, which is earlier than the event it was first anchored to.
   */
  lemma RebuildMovesAnchor(env: Env, e: O.ConnectEvent, clock: Time)
    requires Fitting(env, e) && env.since(e.cid) < e.now && env.maxDuration > 0
    ensures var next := SetExpiry(Start(e.cid, env.since(e.cid), false));
            var s, acts, s' := Settled(env, e), Rebuilding(env, e, clock, next), Rebuilt(env, e, clock, next);
            && Reachable(env, s) && Run(env, s, acts, s')
            && OwnerOf(s.tables, e.identity) == Some(e.cid) && NoneTakes(env, s, acts, e.identity, e.cid)
            && e.cid in s.tables.cids && e.cid in s'.tables.cids
            && s.tables.cids[e.cid].expiry == Some(e.now) && s'.tables.cids[e.cid].expiry == Some(env.since(e.cid))
  {
    hide Settled, Rebuilt, Rebuilding, Reachable, Run, NoneTakes, Fitting;
    RebuiltUndisturbed(env, e, clock, SetExpiry(Start(e.cid, env.since(e.cid), false)));
  }

  /** Its eviction mark changes too: a rebuild after its maximum duration marks it, and it still owns its identity. */
  lemma RebuildMarksOverdue(env: Env, e: O.ConnectEvent, clock: Time)
    requires Fitting(env, e) && env.maxDuration > 0 && clock - env.since(e.cid) >= env.maxDuration
    ensures var next := RequestEviction(e.cid);
            var s, acts, s' := Settled(env, e), Rebuilding(env, e, clock, next), Rebuilt(env, e, clock, next);
            && Reachable(env, s) && Run(env, s, acts, s')
            && OwnerOf(s.tables, e.identity) == Some(e.cid) && NoneTakes(env, s, acts, e.identity, e.cid)
            && e.cid in s.tables.cids && e.cid in s'.tables.cids
            && !s.tables.cids[e.cid].evictionRequested && s'.tables.cids[e.cid].evictionRequested
  {
    hide Settled, Rebuilt, Rebuilding, Reachable, Run, NoneTakes, Fitting;
    RebuiltUndisturbed(env, e, clock, RequestEviction(e.cid));
  }

  lemma OneClientTruthful(env: Env, t: O.Tables, c: Cid)
    requires NormalizeIdentity(env.names(c)).Some? && (c in t.cids ==> !t.cids[c].inFlight)
    ensures Truthful(env, t, OneClient(c, env.names(c), env.since(c)))
  {
    OneClientElected(c, env.names(c), env.since(c));
    hide NormalizeIdentity, R.Owners, StartsOf, Consistent;
    var snap := OneClient(c, env.names(c), env.since(c));
    assert forall r :: r in snap.clients ==> r == Listing(c, env.names(c), env.since(c));
  }

  lemma RebuildSteps(env: Env, e: O.ConnectEvent, clock: Time, next: Action)
    requires Fitting(env, e) && env.maxDuration > 0 && FollowsRebuild(env, e, clock, next)
    ensures var s, acts := Settled(env, e), Rebuilding(env, e, clock, next);
            && Enabled(env, s, acts[0]) && Enabled(env, Next(env, s, acts[0]), next)
            && !TakesAway(s, acts[0], e.identity, e.cid) && !TakesAway(Next(env, s, acts[0]), next, e.identity, e.cid)
  {
    hide NormalizeIdentity, Settled, R.Owners, R.Reconcile, StartsOf, R.ExpiredCids, Consistent, Reachable,
         EstablishedOf, Truthful;
    var s, since := Settled(env, e), env.since(e.cid);
    var rows := OneClient(e.cid, e.cn, since).established;
    SettledReachable(env, e);
    OneClientElected(e.cid, e.cn, since);
    OneClientTruthful(env, s.tables, e.cid);
    assert Start(e.cid, since, false) in StartsOf(rows);
    R.ExpiredMeans(rows, clock, env.maxDuration, e.cid);
    assert rows[0] in rows;
  }

  // ----- newest wins, until a loser is replayed -----

  /**
   After a rebuild every identity with a valid established row is owned by its winner, and stays so through a
   replay exactly as long as no other tracked CID of the identity establishes, the winner does not disconnect and
   no later rebuild elects another.
   */
  lemma NewestWinsUntilTaken(
    env: Env, s: State, snap: StatusSnapshot, clock: Time, acts: seq<Action>, s': State, i: Identity)
    requires Inv(env, s) && Enabled(env, s, Reconcile(snap, clock)) && i in E.Elect(snap.established).winners
    requires Run(env, Next(env, s, Reconcile(snap, clock)), acts, s')
    ensures var u, w := Next(env, s, Reconcile(snap, clock)), E.Elect(snap.established).winners[i].cid;
            && OwnerOf(u.tables, i) == Some(w)
            && (OwnsThroughout(env, u, acts, i, w) <==> NoneTakes(env, u, acts, i, w))
  {
    hide HistoryInv, O.Inv, R.Reconcile, E.Elect;
    RebuildElectsExactly(env, s, snap);
    InvKept(env, s, Reconcile(snap, clock));
    OwnsThroughoutIff(env, Next(env, s, Reconcile(snap, clock)), acts, s', i, E.Elect(snap.established).winners[i].cid);
  }

  /** A replayed ESTABLISHED of a row that lost takes the identity back, although the row is marked for eviction. */
  lemma ReplayedLoserTakes(env: Env, s: State, snap: StatusSnapshot, clock: Time, r: EstablishedSession, now: Time)
    requires Inv(env, s) && Enabled(env, s, Reconcile(snap, clock)) && env.since(r.cid) <= now
    requires r in snap.established && E.Valid(r) && !E.Wins(E.Elect(snap.established), r)
    ensures var u := Next(env, s, Reconcile(snap, clock));
            && Run(env, s, [Reconcile(snap, clock), EstablishFromEvent(r.cid, now)],
                Next(env, u, EstablishFromEvent(r.cid, now)))
            && OwnerOf(u.tables, E.Identity(r)).Some? && OwnerOf(u.tables, E.Identity(r)) != Some(r.cid)
    ensures var v := Next(env, Next(env, s, Reconcile(snap, clock)), EstablishFromEvent(r.cid, now));
            && OwnerOf(v.tables, E.Identity(r)) == Some(r.cid)
            && r.cid in v.tables.cids && v.tables.cids[r.cid].evictionRequested
  {
    hide E.Newer, E.Elect, HistoryInv, O.Inv, O.Establish, R.Reconcile, NormalizeIdentity;
    var u, i, a := Next(env, s, Reconcile(snap, clock)), E.Identity(r), EstablishFromEvent(r.cid, now);
    RebuildElectsExactly(env, s, snap);
    InvKept(env, s, Reconcile(snap, clock));
    LoserRecorded(env, s, snap, r);
    OneStep(env, s, Reconcile(snap, clock));
    OneStep(env, u, a);
    RunThen(env, s, [Reconcile(snap, clock)], u, [a], Next(env, u, a));
    assert [Reconcile(snap, clock)] + [a] == [Reconcile(snap, clock), a];
    StepOwner(env, u, a, i);
    O.EstablishShape(u.tables, r.cid);
  }

  lemma LoserRecorded(env: Env, s: State, snap: StatusSnapshot, r: EstablishedSession)
    requires Inv(env, s) && Truthful(env, s.tables, snap)
    requires r in snap.established && E.Valid(r) && !E.Wins(E.Elect(snap.established), r)
    ensures var u, i, owners := R.Reconcile(s.tables, snap), E.Identity(r), R.Owners(snap.established);
            && i in owners && owners[i] != r.cid
            && r.cid in u.cids && u.cids[r.cid].identity == i && u.cids[r.cid].established
            && !u.cids[r.cid].inFlight && u.cids[r.cid].evictionRequested
    ensures O.ActiveAgree(R.Reconcile(s.tables, snap))
  {
    hide E.Newer, E.Elect, R.Reconcile;
    EstablishedDistinct(snap.clients);
    R.ByCidFinds(snap.established, r);
    R.LoserEvicted(snap.established, r.cid);
    E.ElectPartitions(snap.established);
    TruthfulIsTrustworthy(env, s, snap);
    R.ReconcileKeepsInv(s.tables, snap);
    AdoptedRecord(s.tables, snap, r);
    if E.Elect(snap.established).winners[E.Identity(r)].cid == r.cid {
      E.SameCidSameRow(snap.established, E.Elect(snap.established).winners[E.Identity(r)], r);
    }
  }

  lemma AdoptedRecord(t: O.Tables, snap: StatusSnapshot, r: EstablishedSession)
    requires r.cid in R.ByCid(snap.established) && R.ByCid(snap.established)[r.cid] == r
    ensures var u := R.Reconcile(t, snap);
            && r.cid in u.cids && u.cids[r.cid].identity == E.Identity(r) && u.cids[r.cid].established
            && (r.cid in E.Elect(snap.established).evictions ==> u.cids[r.cid].evictionRequested)
  {
    hide E.Newer, E.Elect, E.Identity, R.ByCid;
  }

  function TwoClients(cn: string): StatusSnapshot {
    var j, k := Listing("1", cn, 1), Listing("2", cn, 2);
    StatusSnapshot([j, k], [SessionOf(j), SessionOf(k)])
  }

  lemma TwoClientsElected(cn: string)
    requires NormalizeIdentity(cn).Some?
    ensures var snap := TwoClients(cn);
            && Consistent(snap) && DistinctClients(snap.clients)
            && E.Elect(snap.established).winners == map[NormalizeIdentity(cn).value := snap.established[1]]
  {
    hide NormalizeIdentity;
    var snap := TwoClients(cn);
    OneClientElected("1", cn, 1);
    var one := OneClient("1", cn, 1);
    assert snap.clients[..1] == one.clients && snap.established[..1] == one.established;
    assert E.Elect(one.established) == E.Outcome(map[NormalizeIdentity(cn).value := snap.established[0]], []) by {
      assert one.established[..0] == [];
      assert E.Elect(one.established[..0]) == E.Outcome(map[], []);
    }
  }

  /** Everybody is called `cn`, and connected at time 1 or 2. */
  function TwoNamesakes(cn: string, maxDuration: int): Env {
    Env(_ => cn, c => if c == "1" then 1 else 2, maxDuration)
  }

  lemma TwoClientsTruthful(cn: string, maxDuration: int)
    requires NormalizeIdentity(cn).Some?
    ensures Truthful(TwoNamesakes(cn, maxDuration), O.Empty, TwoClients(cn))
  {
    TwoClientsElected(cn);
    hide NormalizeIdentity, E.Elect, Consistent, DistinctClients;
    var snap := TwoClients(cn);
    assert forall r :: r in snap.clients ==> r == Listing("1", cn, 1) || r == Listing("2", cn, 2);
  }

  /** Such a run exists: two sessions of one name, of which the older one's event is replayed. */
  lemma LoserCanBeReplayed(cn: string, maxDuration: int, clock: Time)
    requires NormalizeIdentity(cn).Some?
    ensures var env, snap := TwoNamesakes(cn, maxDuration), TwoClients(cn);
            var s := Next(env, Next(env, Init, Reconcile(snap, clock)), EstablishFromEvent("1", 1));
            && Reachable(env, s) && OwnerOf(s.tables, NormalizeIdentity(cn).value) == Some("1")
            && E.Newer(snap.established[1], snap.established[0])
  {
    var env, snap := TwoNamesakes(cn, maxDuration), TwoClients(cn);
    TwoClientsElected(cn);
    TwoClientsTruthful(cn, maxDuration);
    InitReachable(env);
    ReachableInv(env, Init);
    OlderLoses(cn);
    hide NormalizeIdentity, E.Elect, E.Newer, E.Wins, Consistent, Inv, Truthful, Next;
    ReplayedLoserTakes(env, Init, snap, clock, snap.established[0], 1);
  }

  lemma OlderLoses(cn: string)
    requires NormalizeIdentity(cn).Some?
    ensures var rows := TwoClients(cn).established;
            E.Newer(rows[1], rows[0]) && E.Valid(rows[0]) && E.Identity(rows[0]) == NormalizeIdentity(cn).value
                && !E.Wins(E.Elect(rows), rows[0])
  {
    TwoClientsElected(cn);
    hide NormalizeIdentity, E.Elect, Consistent;
  }
}
