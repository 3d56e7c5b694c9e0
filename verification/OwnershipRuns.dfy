/**
 Runs of the ownership tables: every interleaving of the handler's critical sections, from
 the event loop, the callback server, the timeout goroutines and the reconnect bootstrap.
 */
module OwnershipRuns {
  import opened Basics
  import opened Text
  import opened Snapshots
  import O = Ownership
  import R = Rebuild
  import E = Election

  type Cid = O.Cid
  type Identity = O.Identity
  type Time = O.Time

  /** What OpenVPN fixes for a whole run: the common name and the connect time of each CID. */
  datatype Env = Env(names: Cid -> string, since: Cid -> Time, maxDuration: int)

  /** A pending call of `replaceExpiryState`; `fromEvent` when an ESTABLISHED event caused it. */
  datatype Start = Start(cid: Cid, at: Time, fromEvent: bool)

  /**
   `starts` are goroutines between establishing a CID and setting its anchor; `overdue` are the rows of a
   rebuild that were past their time and are still to be marked.
   `anchors` and `seen` are history: the last anchor set for a CID, and the CIDs that were ever recorded.
   */
  datatype State = State(
    tables: O.Tables,
    starts: multiset<Start>,
    overdue: multiset<Cid>,
    anchors: map<Cid, Time>,
    seen: set<Cid>)

  const Init := State(O.Empty, multiset{}, multiset{}, map[], {})

  datatype Action =
    | Connect(e: O.ConnectEvent, supersedable: bool)
    | Promote(cid: Cid, now: Time)
    | SetUsername(cid: Cid, username: string)
    | EstablishFromEvent(cid: Cid, now: Time)
    | EstablishFromStatus(cid: Cid)
    | SetExpiry(start: Start)
    | Disconnect(cid: Cid)
    | CleanupPromoted(cid: Cid)
    | ClearInFlight(cid: Cid)
    | Reconcile(snap: StatusSnapshot, clock: Time)
    | RequestEviction(cid: Cid)

  predicate NotInFlight(t: O.Tables, cid: Cid) {
    cid in t.cids ==> !t.cids[cid].inFlight
  }

  /** The snapshot tells the truth about names and times, and about what the tables know. */
  ghost predicate Truthful(env: Env, t: O.Tables, snap: StatusSnapshot) {
    && Consistent(snap)
    && DistinctClients(snap.clients)
    && (forall r :: r in snap.clients ==> r.cn == env.names(r.cid) && r.connectedAt == env.since(r.cid))
    && (forall r :: r in snap.clients && r.cid in t.cids ==>
          && (t.cids[r.cid].established ==> r.established)
          && (r.established ==> !t.cids[r.cid].inFlight))
  }

  /** The environment assumptions under which each step may happen. */
  ghost predicate Enabled(env: Env, s: State, a: Action) {
    match a
    case Connect(e, _) =>
      // CIDs are not reused, except for the CONNECT of the attempt already recorded
      && e.cn == env.names(e.cid) && NormalizeIdentity(e.cn) == Some(e.identity)
      && (e.cid !in s.seen || (e.identity in s.tables.attempt && s.tables.attempt[e.identity] == e.cid))
    case EstablishFromEvent(cid, now) =>
      NotInFlight(s.tables, cid) && env.since(cid) <= now
    case EstablishFromStatus(cid) =>
      NotInFlight(s.tables, cid)
    case SetExpiry(start) =>
      start in s.starts
    case Reconcile(snap, clock) =>
      // the bootstrap runs in the goroutine that handles events, so no event is half handled
      Truthful(env, s.tables, snap) && forall x :: x in s.starts ==> !x.fromEvent
    case RequestEviction(cid) => cid in s.overdue
    case _ => true
  }

  /** The starts that the expiry pass of a rebuild goes on to make. */
  function StartsOf(rows: seq<EstablishedSession>): multiset<Start> {
    if rows == [] then multiset{}
    else StartsOf(rows[..|rows| - 1]) + multiset{Start(rows[|rows| - 1].cid, rows[|rows| - 1].connectedAt, false)}
  }

  function Establish(env: Env, s: State, cid: Cid, at: Time, fromEvent: bool): State {
    s.(tables := O.Establish(s.tables, cid),
       starts := if O.StartsExpiry(s.tables, cid, !fromEvent, env.maxDuration)
                 then s.starts + multiset{Start(cid, at, fromEvent)} else s.starts)
  }

  function Next(env: Env, s: State, a: Action): State {
    match a
    case Connect(e, supersedable) =>
      s.(tables := O.Connect(s.tables, e, supersedable),
         seen := if O.Admitted(O.Classify(s.tables, e, supersedable)) then s.seen + {e.cid} else s.seen)
    case Promote(cid, now) => s.(tables := O.Promote(s.tables, cid, now))
    case SetUsername(cid, username) => s.(tables := O.SetUsername(s.tables, cid, username))
    case EstablishFromEvent(cid, now) => Establish(env, s, cid, now, true)
    case EstablishFromStatus(cid) => Establish(env, s, cid, env.since(cid), false)
    case SetExpiry(start) =>
      s.(tables := O.SetExpiry(s.tables, start.cid, start.at),
         starts := s.starts - multiset{start},
         anchors := if start.cid in s.tables.cids then s.anchors[start.cid := start.at] else s.anchors)
    case Disconnect(cid) => s.(tables := O.Disconnect(s.tables, cid))
    case CleanupPromoted(cid) => s.(tables := O.CleanupPromoted(s.tables, cid))
    case ClearInFlight(cid) => s.(tables := O.ClearInFlight(s.tables, cid))
    case Reconcile(snap, clock) =>
      s.(tables := R.Reconcile(s.tables, snap),
         starts := s.starts + (if env.maxDuration > 0 then StartsOf(snap.established) else multiset{}),
         overdue := s.overdue + multiset(R.ExpiredCids(snap.established, clock, env.maxDuration)),
         seen := s.seen + R.RowCids(snap.established))
    case RequestEviction(cid) =>
      s.(tables := O.RequestEviction(s.tables, cid), overdue := s.overdue - multiset{cid})
  }

  ghost predicate Run(env: Env, s: State, acts: seq<Action>, s': State)
    decreases |acts|
  {
    if acts == [] then s' == s
    else Enabled(env, s, acts[0]) && Run(env, Next(env, s, acts[0]), acts[1..], s')
  }

  ghost predicate Reachable(env: Env, s: State) {
    exists acts :: Run(env, Init, acts, s)
  }

  lemma {:induction false} RunThen(env: Env, s: State, acts: seq<Action>, m: State, more: seq<Action>, s': State)
    requires Run(env, s, acts, m) && Run(env, m, more, s')
    ensures Run(env, s, acts + more, s')
    decreases |acts|
  {
    hide Enabled, Next;
    if acts == [] {
      assert acts + more == more;
    } else {
      assert (acts + more)[1..] == acts[1..] + more;
      RunThen(env, Next(env, s, acts[0]), acts[1..], m, more, s');
    }
  }

  lemma OneStep(env: Env, s: State, a: Action)
    requires Enabled(env, s, a)
    ensures Run(env, s, [a], Next(env, s, a))
  {
    assert [a][1..] == [];
    assert Run(env, Next(env, s, a), [], Next(env, s, a));
  }

  /** One more step of a reachable state is reachable. */
  lemma ReachableStep(env: Env, s: State, a: Action)
    requires Reachable(env, s) && Enabled(env, s, a)
    ensures Reachable(env, Next(env, s, a))
  {
    hide Enabled, Next;
    var acts :| Run(env, Init, acts, s);
    OneStep(env, s, a);
    RunThen(env, Init, acts, s, [a], Next(env, s, a));
  }

  lemma InitReachable(env: Env)
    ensures Reachable(env, Init)
  {
    assert Run(env, Init, [], Init);
  }

  // ----- the invariant of every reachable state -----

  /** The recorded identity of a CID is the normalized form of its name. */
  ghost predicate NamesAgree(env: Env, s: State) {
    forall c :: c in s.tables.cids ==> c in s.seen && NormalizeIdentity(env.names(c)) == Some(s.tables.cids[c].identity)
  }

  /** Nothing has anchored a tracked CID that is not established. */
  ghost predicate UnestablishedUnanchored(s: State) {
    forall c :: c in s.tables.cids && !s.tables.cids[c].established ==>
      c !in s.anchors && forall x :: x in s.starts ==> x.cid != c
  }

  ghost predicate StartsSound(env: Env, s: State) {
    forall x :: x in s.starts ==>
      && x.cid in s.seen
      && x.at >= env.since(x.cid)
      && (!x.fromEvent ==> x.at == env.since(x.cid))
      && (x.fromEvent ==> x.cid !in s.anchors && s.starts[x] == 1 && forall y :: y in s.starts && y.cid == x.cid ==>
            y == x)
  }

  ghost predicate AnchorsSound(env: Env, s: State) {
    && (forall c :: c in s.anchors ==> c in s.seen && s.anchors[c] >= env.since(c))
    && (forall c :: c in s.tables.cids && s.tables.cids[c].expiry.Some? ==>
          c in s.anchors && s.tables.cids[c].expiry.value == s.anchors[c])
  }

  ghost predicate HistoryInv(env: Env, s: State) {
    NamesAgree(env, s) && UnestablishedUnanchored(s) && StartsSound(env, s) && AnchorsSound(env, s)
  }

  ghost predicate Inv(env: Env, s: State) {
    O.Inv(s.tables) && HistoryInv(env, s)
  }

  lemma TruthfulIsTrustworthy(env: Env, s: State, snap: StatusSnapshot)
    requires NamesAgree(env, s) && Truthful(env, s.tables, snap)
    ensures R.Trustworthy(s.tables, snap)
  {
  }

  lemma TablesInvKept(env: Env, s: State, a: Action)
    requires Inv(env, s) && Enabled(env, s, a)
    ensures O.Inv(Next(env, s, a).tables)
  {
    match a
    case Connect(e, supersedable) => O.ConnectKeepsInv(s.tables, e, supersedable);
    case Promote(cid, now) => O.PromoteKeepsInv(s.tables, cid, now);
    case EstablishFromEvent(cid, _) => O.EstablishKeepsInv(s.tables, cid);
    case EstablishFromStatus(cid) => O.EstablishKeepsInv(s.tables, cid);
    case Disconnect(cid) => O.RemovalsKeepInv(s.tables, cid);
    case CleanupPromoted(cid) => O.RemovalsKeepInv(s.tables, cid);
    case ClearInFlight(cid) => O.RemovalsKeepInv(s.tables, cid);
    case SetUsername(cid, u) => O.FieldUpdatesKeepInv(s.tables, cid, 0, u);
    case SetExpiry(x) => O.FieldUpdatesKeepInv(s.tables, x.cid, x.at, "");
    case RequestEviction(cid) => O.FieldUpdatesKeepInv(s.tables, cid, 0, "");
    case Reconcile(snap, clock) =>
      TruthfulIsTrustworthy(env, s, snap);
      R.ReconcileKeepsInv(s.tables, snap);
  }

  /** Records keep identity, anchor and establishment, or are new; the history only sees new CIDs. */
  ghost predicate Frames(env: Env, s: State, u: State) {
    && u.anchors == s.anchors && u.starts == s.starts && s.seen <= u.seen
    && (forall c :: c in u.tables.cids && c in s.tables.cids ==>
          && u.tables.cids[c].identity == s.tables.cids[c].identity
          && (u.tables.cids[c].expiry == s.tables.cids[c].expiry || u.tables.cids[c].expiry == None)
          && (s.tables.cids[c].established ==> u.tables.cids[c].established))
    && (forall c :: c in u.tables.cids && c !in s.tables.cids ==>
          && c !in s.seen && c in u.seen
          && NormalizeIdentity(env.names(c)) == Some(u.tables.cids[c].identity)
          && u.tables.cids[c].expiry == None)
  }

  lemma FrameKeepsHistory(env: Env, s: State, u: State)
    requires HistoryInv(env, s) && Frames(env, s, u)
    ensures HistoryInv(env, u)
  {
    hide NormalizeIdentity;
  }

  lemma ConnectKeepsHistory(env: Env, s: State, e: O.ConnectEvent, supersedable: bool)
    requires Inv(env, s) && Enabled(env, s, Connect(e, supersedable))
    ensures HistoryInv(env, Next(env, s, Connect(e, supersedable)))
  {
    hide NormalizeIdentity, HistoryInv, O.Inv, O.Connect, O.Classify, Frames;
    ConnectFrames(env, s, e, supersedable);
    FrameKeepsHistory(env, s, Next(env, s, Connect(e, supersedable)));
  }

  lemma ConnectFrames(env: Env, s: State, e: O.ConnectEvent, supersedable: bool)
    requires Inv(env, s) && Enabled(env, s, Connect(e, supersedable))
    ensures Frames(env, s, Next(env, s, Connect(e, supersedable)))
  {
    hide NormalizeIdentity, UnestablishedUnanchored, StartsSound, AnchorsSound, O.Inv, O.Connect, O.Classify;
    O.ConnectShape(s.tables, e, supersedable);
    if e.cid in s.tables.cids {
      assert e.cid in s.seen;
    }
  }

  lemma EstablishFrames(env: Env, s: State, cid: Cid)
    requires O.ActiveAgree(s.tables) && cid in s.tables.cids
    ensures var u := O.Establish(s.tables, cid);
            Frames(env, s, s.(tables := u)) && cid in u.cids && u.cids[cid].established
  {
    hide O.Establish;
    O.EstablishShape(s.tables, cid);
  }

  lemma EstablishKeepsHistory(env: Env, s: State, cid: Cid, at: Time, fromEvent: bool)
    requires Inv(env, s)
    requires at >= env.since(cid) && (!fromEvent ==> at == env.since(cid))
    ensures HistoryInv(env, Establish(env, s, cid, at, fromEvent))
  {
    hide NormalizeIdentity, HistoryInv, O.LosersMarked, O.AttemptsAgree, O.PhasesDisjoint;
    if cid in s.tables.cids {
      hide O.Establish;
      var u := s.(tables := O.Establish(s.tables, cid));
      EstablishFrames(env, s, cid);
      hide Frames;
      FrameKeepsHistory(env, s, u);
      var v := Establish(env, s, cid, at, fromEvent);
      if v.starts != u.starts {
        AddStartKeepsHistory(env, s, u, Start(cid, at, fromEvent));
      }
    }
  }

  lemma AddStartKeepsHistory(env: Env, s: State, u: State, x: Start)
    requires HistoryInv(env, s) && HistoryInv(env, u) && u == s.(tables := u.tables)
    requires x.cid in s.tables.cids && !s.tables.cids[x.cid].established
    requires x.cid in u.tables.cids && u.tables.cids[x.cid].established
    requires x.at >= env.since(x.cid) && (!x.fromEvent ==> x.at == env.since(x.cid))
    ensures HistoryInv(env, u.(starts := u.starts + multiset{x}))
  {
    hide NormalizeIdentity;
  }

  lemma SetExpiryKeepsHistory(env: Env, s: State, x: Start)
    requires Inv(env, s) && x in s.starts
    ensures HistoryInv(env, Next(env, s, SetExpiry(x)))
  {
    hide O.Inv, O.SetExpiry, NamesAgree, UnestablishedUnanchored, StartsSound, AnchorsSound;
    var u := Next(env, s, SetExpiry(x));
    AnchorKeepsStarts(env, s, u, x);
    AnchorKeepsNames(env, s, u, x);
    StartSound(env, s, x);
    AnchorKeepsAnchors(env, s, u, x);
  }

  lemma AnchorKeepsNames(env: Env, s: State, u: State, x: Start)
    requires NamesAgree(env, s) && UnestablishedUnanchored(s) && x in s.starts
    requires u.tables == O.SetExpiry(s.tables, x.cid, x.at) && u.starts == s.starts - multiset{x} && u.seen == s.seen
    requires u.anchors == s.anchors || u.anchors == s.anchors[x.cid := x.at]
    ensures NamesAgree(env, u) && UnestablishedUnanchored(u)
  {
    hide NormalizeIdentity;
    assert forall y :: y in u.starts ==> y in s.starts;
  }

  lemma AnchorKeepsAnchors(env: Env, s: State, u: State, x: Start)
    requires AnchorsSound(env, s) && x.cid in s.seen && x.at >= env.since(x.cid)
    requires u.tables == O.SetExpiry(s.tables, x.cid, x.at) && u.seen == s.seen
    requires u.anchors == if x.cid in s.tables.cids then s.anchors[x.cid := x.at] else s.anchors
    ensures AnchorsSound(env, u)
  {
  }

  lemma StartSound(env: Env, s: State, x: Start)
    requires StartsSound(env, s) && x in s.starts
    ensures x.cid in s.seen && x.at >= env.since(x.cid)
  {
  }

  lemma FewerStarts(env: Env, s: State, x: Start)
    requires StartsSound(env, s) && x in s.starts
    ensures forall y :: y in s.starts - multiset{x} ==> y in s.starts && (s.starts - multiset{x})[y] <= s.starts[y]
    ensures forall y :: y in s.starts - multiset{x} && y.fromEvent ==> y.cid != x.cid
  {
  }

  lemma AnchorKeepsStarts(env: Env, s: State, u: State, x: Start)
    requires StartsSound(env, s) && x in s.starts && u.starts == s.starts - multiset{x} && u.seen == s.seen
    requires u.anchors == s.anchors || u.anchors == s.anchors[x.cid := x.at]
    ensures StartsSound(env, u)
  {
    FewerStarts(env, s, x);
  }

  lemma {:induction false} StartsOfRows(rows: seq<EstablishedSession>, x: Start)
    ensures x in StartsOf(rows) ==>
      !x.fromEvent && exists r :: r in rows && r.cid == x.cid && r.connectedAt == x.at
  {
    if rows != [] && x in StartsOf(rows) {
      var init, last := rows[..|rows| - 1], rows[|rows| - 1];
      assert rows == init + [last];
      StartsOfRows(init, x);
      if x in StartsOf(init) {
        var r :| r in init && r.cid == x.cid && r.connectedAt == x.at;
        assert r in rows;
      } else {
        assert last in rows;
      }
    }
  }

  /** What the reconciliation leaves for each record. */
  lemma ReconcileRecord(env: Env, s: State, snap: StatusSnapshot, c: Cid)
    requires Inv(env, s) && Truthful(env, s.tables, snap) && c in R.Reconcile(s.tables, snap).cids
    ensures var st := R.Reconcile(s.tables, snap).cids[c];
            && (c in s.tables.cids || (c in R.RowCids(snap.established) && st.established))
            && NormalizeIdentity(env.names(c)) == Some(st.identity)
            && (c in s.tables.cids ==> st.expiry == s.tables.cids[c].expiry && (s.tables.cids[c].established ==>
                  st.established))
            && (c !in s.tables.cids ==> st.expiry == None)
            && (!st.established ==> c !in R.RowCids(snap.established))
  {
    hide E.Newer, E.Elect;
    var m := R.ByCid(snap.established);
    if c in m {
      R.RowIsClient(snap, m[c]);
      var k :| k in snap.clients && k.established && SessionOf(k) == m[c];
    }
    if c in R.RowCids(snap.established) {
      var r :| r in snap.established && r.cid == c;
      R.RowIsClient(snap, r);
      var k :| k in snap.clients && k.established && SessionOf(k) == r;
      assert c !in m ==> c in s.tables.cids && NormalizeIdentity(r.cn).Some?;
    }
  }

  lemma ReconcileKeepsHistory(env: Env, s: State, snap: StatusSnapshot, clock: Time)
    requires Inv(env, s) && Enabled(env, s, Reconcile(snap, clock))
    ensures HistoryInv(env, Next(env, s, Reconcile(snap, clock)))
  {
    hide R.Reconcile, NormalizeIdentity, O.Inv, NamesAgree, UnestablishedUnanchored, StartsSound, AnchorsSound,
         Truthful;
    ReconcileKeepsRecords(env, s, snap, clock);
    ReconcileKeepsStarts(env, s, snap, clock);
  }

  lemma ReconcileKeepsRecords(env: Env, s: State, snap: StatusSnapshot, clock: Time)
    requires Inv(env, s) && Enabled(env, s, Reconcile(snap, clock))
    ensures var u := Next(env, s, Reconcile(snap, clock));
            NamesAgree(env, u) && UnestablishedUnanchored(u) && AnchorsSound(env, u)
  {
    hide R.Reconcile, E.Newer, E.Elect, StartsSound, O.Inv, NormalizeIdentity, Truthful;
    var u := Next(env, s, Reconcile(snap, clock));
    forall c | c in u.tables.cids
      ensures c in u.seen && NormalizeIdentity(env.names(c)) == Some(u.tables.cids[c].identity)
      ensures u.tables.cids[c].expiry.Some? ==> c in s.tables.cids && s.tables.cids[c].expiry == u.tables.cids[c].expiry
      ensures !u.tables.cids[c].established ==>
                c in s.tables.cids && !s.tables.cids[c].established && c !in R.RowCids(snap.established)
    {
      ReconcileRecord(env, s, snap, c);
    }
    forall x | x in u.starts
      ensures x in s.starts || x.cid in R.RowCids(snap.established)
    {
      NewStart(env, s, snap, clock, x);
    }
  }

  lemma NewStart(env: Env, s: State, snap: StatusSnapshot, clock: Time, x: Start)
    requires Truthful(env, s.tables, snap) && x in Next(env, s, Reconcile(snap, clock)).starts
    ensures x in s.starts || (!x.fromEvent && x.cid in R.RowCids(snap.established) && x.at == env.since(x.cid))
  {
    hide R.Reconcile, NormalizeIdentity;
    if x !in s.starts {
      StartsOfRows(snap.established, x);
      var r :| r in snap.established && r.cid == x.cid && r.connectedAt == x.at;
      R.RowIsClient(snap, r);
      var k :| k in snap.clients && k.established && SessionOf(k) == r;
    }
  }

  lemma ReconcileKeepsStarts(env: Env, s: State, snap: StatusSnapshot, clock: Time)
    requires StartsSound(env, s) && Enabled(env, s, Reconcile(snap, clock))
    ensures StartsSound(env, Next(env, s, Reconcile(snap, clock)))
  {
    hide R.Reconcile, NormalizeIdentity, Truthful, StartsOf, R.RowCids;
    var u := Next(env, s, Reconcile(snap, clock));
    forall x | x in u.starts
      ensures x in s.starts || (!x.fromEvent && x.cid in R.RowCids(snap.established) && x.at == env.since(x.cid))
    {
      NewStart(env, s, snap, clock, x);
    }
  }

  lemma RestKeepsHistory(env: Env, s: State, a: Action)
    requires Inv(env, s) && Enabled(env, s, a)
    requires !a.Connect? && !a.EstablishFromEvent? && !a.EstablishFromStatus? && !a.SetExpiry? && !a.Reconcile?
    ensures HistoryInv(env, Next(env, s, a))
  {
    hide NormalizeIdentity, HistoryInv, O.Inv;
    FrameKeepsHistory(env, s, Next(env, s, a));
  }

  lemma InvKept(env: Env, s: State, a: Action)
    requires Inv(env, s) && Enabled(env, s, a)
    ensures Inv(env, Next(env, s, a))
  {
    TablesInvKept(env, s, a);
    match a
    case Connect(e, supersedable) => ConnectKeepsHistory(env, s, e, supersedable);
    case EstablishFromEvent(cid, now) => EstablishKeepsHistory(env, s, cid, now, true);
    case EstablishFromStatus(cid) => EstablishKeepsHistory(env, s, cid, env.since(cid), false);
    case SetExpiry(x) => SetExpiryKeepsHistory(env, s, x);
    case Reconcile(snap, clock) => ReconcileKeepsHistory(env, s, snap, clock);
    case _ => RestKeepsHistory(env, s, a);
  }

  lemma {:induction false} RunKeepsInv(env: Env, s: State, acts: seq<Action>, s': State)
    requires Inv(env, s) && Run(env, s, acts, s')
    ensures Inv(env, s')
    decreases |acts|
  {
    hide Inv, Enabled, Next;
    if acts != [] {
      InvKept(env, s, acts[0]);
      RunKeepsInv(env, Next(env, s, acts[0]), acts[1..], s');
    }
  }

  /** In every reachable state the indexes and records agree and every losing session is marked. */
  lemma ReachableInv(env: Env, s: State)
    requires Reachable(env, s)
    ensures Inv(env, s)
  {
    hide Inv;
    var acts :| Run(env, Init, acts, s);
    InitInv(env);
    RunKeepsInv(env, Init, acts, s);
  }

  lemma InitInv(env: Env)
    ensures Inv(env, Init)
  {
  }
}
