/**
 The daemon as one machine: the ownership tables and the race for pending sessions, tied together where the code
 ties them. A CONNECT consults and changes the session store; a CID is promoted after its own session was
 authenticated or because OpenVPN reports it established; only OpenVPN's reports establish.
 */
module DaemonRuns {
  import opened Basics
  import opened Sessions
  import opened Snapshots
  import O = Ownership
  import Re = Rebuild
  import W = OwnershipRuns
  import C = Callback
  import B = StateBlob
  import Reader

  type Cid = W.Cid

  /** What OpenVPN said: an event that the reader handed on, or the answer to a status query. */
  datatype Report = Notified(event: Reader.Event) | Answered(snap: StatusSnapshot)

  /** `reports` is history, in order of arrival. */
  datatype State = State(own: W.State, race: C.Sys, reports: seq<Report>)

  const Init := State(W.Init, C.Init, [])

  datatype Action =
    // `timer` and `loser` are the threads of the timeout and of the superseded session
    | Connect(e: O.ConnectEvent, sess: PendingSession, timer: nat, loser: nat)
    | Hear(report: Report)
    | Tables(a: W.Action)
    | Race(c: C.Action)

  /** Whether the store lets the CONNECT supersede the recorded attempt. */
  predicate Supersedable(s: State, e: O.ConnectEvent) {
    var t := s.own.tables;
    && e.identity in t.attempt && t.attempt[e.identity] in t.cids
    && IsPending(s.race.store, t.cids[t.attempt[e.identity]].sid)
  }

  function Meets(s: State, e: O.ConnectEvent): O.Conflict {
    O.Classify(s.own.tables, e, Supersedable(s, e))
  }

  /** The session belongs to the CONNECT. */
  predicate SessionOf(e: O.ConnectEvent, sess: PendingSession) {
    && sess.sessionId == e.sid && sess.cid == e.cid && sess.kid == e.kid && sess.cn == e.cn
    && sess.status == SessionStatus.Pending
  }

  /** OpenVPN accepted the `client-auth` of a session of this CID. */
  ghost predicate LetIn(log: seq<C.Entry>, cid: Cid) {
    exists i :: 0 <= i < |log| && log[i].Authenticated? && log[i].sess.cid == cid
  }

  /** An ESTABLISHED event of this CID has arrived. */
  ghost predicate Announced(reports: seq<Report>, c: Cid) {
    exists k :: 0 <= k < |reports| && reports[k].Notified? && reports[k].event.typ.Established?
        && reports[k].event.cid == c
  }

  /** A status answer listed this CID as established. */
  ghost predicate Listed(reports: seq<Report>, c: Cid) {
    exists k :: 0 <= k < |reports| && reports[k].Answered? && c in Re.RowCids(reports[k].snap.established)
  }

  ghost predicate Enabled(env: W.Env, s: State, a: Action) {
    match a
    case Connect(e, sess, timer, loser) =>
      && W.Enabled(env, s.own, W.Connect(e, Supersedable(s, e)))
      && SessionOf(e, sess) && e.sid !in s.race.issued && timer !in s.race.threads && loser !in s.race.threads
      && timer != loser
    case Hear(_) => true
    case Tables(a) =>
      && W.Enabled(env, s.own, a) && !a.Connect?
      && (a.Promote? ==> Announced(s.reports, a.cid) || LetIn(s.race.log, a.cid))
      && (a.EstablishFromEvent? ==> Announced(s.reports, a.cid))
      && (a.EstablishFromStatus? ==> Listed(s.reports, a.cid))
    case Race(c) => C.Enabled(s.race, c) && !c.Accept? && !c.Supersede?
  }

  /** The first half of a CONNECT's work on the sessions: the pending one it supersedes is taken. */
  ghost function Superseded(signer: B.Signer, r: C.Sys, m: O.Conflict, loser: nat): C.Sys
    requires m.PendingAttempt? ==> C.Enabled(r, C.Supersede(loser, m.oldSid))
  {
    if m.PendingAttempt? then C.Next(signer, r, C.Supersede(loser, m.oldSid)) else r
  }

  lemma ConnectEnabled(env: W.Env, signer: B.Signer, s: State, a: Action)
    requires a.Connect? && Enabled(env, s, a)
    ensures var m := Meets(s, a.e);
            && (m.PendingAttempt? ==> C.Enabled(s.race, C.Supersede(a.loser, m.oldSid)))
            && (O.Admitted(m) ==> C.Enabled(Superseded(signer, s.race, m, a.loser), C.Accept(a.timer, a.sess)))
  {
  }

  ghost function Next(env: W.Env, signer: B.Signer, s: State, a: Action): State
    requires Enabled(env, s, a)
  {
    match a
    case Connect(e, sess, timer, loser) =>
      var m := Meets(s, e);
      ConnectEnabled(env, signer, s, a);
      var r := Superseded(signer, s.race, m, loser);
      s.(own := W.Next(env, s.own, W.Connect(e, Supersedable(s, e))),
         race := if O.Admitted(m) then C.Next(signer, r, C.Accept(timer, sess)) else r)
    case Hear(report) => s.(reports := s.reports + [report])
    case Tables(a) =>
      s.(own := W.Next(env, s.own, a),
         reports := if a.Reconcile? then s.reports + [Answered(a.snap)] else s.reports)
    case Race(c) => s.(race := C.Next(signer, s.race, c))
  }

  ghost predicate Run(env: W.Env, signer: B.Signer, s: State, acts: seq<Action>, s': State)
    decreases |acts|
  {
    if acts == [] then s' == s
    else Enabled(env, s, acts[0]) && Run(env, signer, Next(env, signer, s, acts[0]), acts[1..], s')
  }

  ghost predicate Reachable(env: W.Env, signer: B.Signer, s: State) {
    exists acts :: Run(env, signer, Init, acts, s)
  }

  // ----- both parts run as they do alone -----

  lemma StepProjects(env: W.Env, signer: B.Signer, s: State, a: Action)
    requires Enabled(env, s, a) && W.Reachable(env, s.own) && C.Reachable(signer, s.race)
    ensures W.Reachable(env, Next(env, signer, s, a).own) && C.Reachable(signer, Next(env, signer, s, a).race)
  {
    hide W.Reachable, C.Reachable, W.Next, C.Next, W.Enabled, C.Enabled, O.Classify, Supersedable;
    match a
    case Connect(e, sess, timer, loser) =>
      var m := Meets(s, e);
      ConnectEnabled(env, signer, s, a);
      W.ReachableStep(env, s.own, W.Connect(e, Supersedable(s, e)));
      if m.PendingAttempt? {
        C.ReachableStep(signer, s.race, C.Supersede(loser, m.oldSid));
      }
      if O.Admitted(m) {
        C.ReachableStep(signer, Superseded(signer, s.race, m, loser), C.Accept(timer, sess));
      }
    case Tables(w) => W.ReachableStep(env, s.own, w);
    case Race(c) => C.ReachableStep(signer, s.race, c);
    case Hear(_) =>
  }

  lemma {:induction false} RunProjects(env: W.Env, signer: B.Signer, s: State, acts: seq<Action>, s': State)
    requires Run(env, signer, s, acts, s') && W.Reachable(env, s.own) && C.Reachable(signer, s.race)
    ensures W.Reachable(env, s'.own) && C.Reachable(signer, s'.race)
    decreases |acts|
  {
    hide W.Reachable, C.Reachable, Next, Enabled;
    if acts != [] {
      StepProjects(env, signer, s, acts[0]);
      RunProjects(env, signer, Next(env, signer, s, acts[0]), acts[1..], s');
    }
  }

  /** Whatever holds in every run of the tables or of the race alone holds in every run of the daemon. */
  lemma ReachableParts(env: W.Env, signer: B.Signer, s: State)
    requires Reachable(env, signer, s)
    ensures W.Reachable(env, s.own) && C.Reachable(signer, s.race)
  {
    hide W.Reachable, C.Reachable;
    var acts :| Run(env, signer, Init, acts, s);
    W.InitReachable(env);
    C.InitReachable(signer);
    RunProjects(env, signer, Init, acts, s);
  }

  // ----- the invariant that ties them -----

  /** The CONNECT of this CID, session and key was accepted. */
  ghost predicate Accepted(log: seq<C.Entry>, cid: Cid, sid: Sid, kid: string) {
    exists i :: 0 <= i < |log| && log[i].Accepted? && log[i].sess.cid == cid && log[i].sess.sessionId == sid
        && log[i].sess.kid == kid
  }

  /** Every CID is accepted at most once, with a session of its own, and then it is recorded. */
  ghost predicate ServedOnce(s: State) {
    && (forall i :: 0 <= i < |s.race.log| && s.race.log[i].Accepted? ==>
          s.race.log[i].sess.cid in s.own.seen && s.race.log[i].sess.sessionId in s.race.issued)
    && (forall i, j :: 0 <= i < j < |s.race.log| && s.race.log[i].Accepted? && s.race.log[j].Accepted? ==>
          && s.race.log[i].sess.cid != s.race.log[j].sess.cid
          && s.race.log[i].sess.sessionId != s.race.log[j].sess.sessionId)
  }

  /** Every record has grounds for its phase. */
  ghost predicate Grounded(s: State, c: Cid, st: O.CidState) {
    && (st.inFlight ==> Accepted(s.race.log, c, st.sid, st.kid))
    && (st.promoted ==> Announced(s.reports, c) || LetIn(s.race.log, c))
    && (st.established ==> Announced(s.reports, c) || Listed(s.reports, c))
  }

  ghost predicate AllGrounded(s: State) {
    forall c :: c in s.own.tables.cids ==> Grounded(s, c, s.own.tables.cids[c])
  }

  ghost predicate Inv(s: State) {
    ServedOnce(s) && AllGrounded(s)
  }

  lemma HeardStays(reports: seq<Report>, more: seq<Report>, c: Cid)
    requires reports <= more
    ensures Announced(reports, c) ==> Announced(more, c)
    ensures Listed(reports, c) ==> Listed(more, c)
  {
    assert forall k :: 0 <= k < |reports| ==> more[k] == reports[k];
  }

  lemma JustListed(reports: seq<Report>, snap: StatusSnapshot, c: Cid)
    requires c in Re.RowCids(snap.established)
    ensures Listed(reports + [Answered(snap)], c)
  {
    assert (reports + [Answered(snap)])[|reports|] == Answered(snap);
  }

  /** Grounds survive growing histories. */
  lemma GroundsGrow(s: State, u: State, c: Cid, st: O.CidState)
    requires Grounded(s, c, st) && s.race.log <= u.race.log && s.reports <= u.reports
    ensures Grounded(u, c, st)
  {
    HeardStays(s.reports, u.reports, c);
    hide Announced, Listed;
    if st.inFlight {
      var i :| 0 <= i < |s.race.log| && s.race.log[i].Accepted? && s.race.log[i].sess.cid == c
               && s.race.log[i].sess.sessionId == st.sid && s.race.log[i].sess.kid == st.kid;
      assert u.race.log[i] == s.race.log[i];
    }
    if LetIn(s.race.log, c) {
      var i :| 0 <= i < |s.race.log| && s.race.log[i].Authenticated? && s.race.log[i].sess.cid == c;
      assert u.race.log[i] == s.race.log[i];
    }
  }

  /** How a step of the tables other than a CONNECT may change the phase of a record. */
  ghost predicate Follows(t: O.Tables, a: W.Action, c: Cid, st: O.CidState) {
    && (st.inFlight ==> c in t.cids && t.cids[c].inFlight && st.sid == t.cids[c].sid && st.kid == t.cids[c].kid)
    && (st.promoted ==> (c in t.cids && t.cids[c].promoted) || (a.Promote? && a.cid == c))
    && (st.established ==>
          || (c in t.cids && t.cids[c].established)
          || ((a.EstablishFromEvent? || a.EstablishFromStatus?) && a.cid == c)
          || (a.Reconcile? && c in Re.RowCids(a.snap.established)))
  }

  lemma ReconcileFollows(t: O.Tables, snap: StatusSnapshot, clock: W.Time, c: Cid)
    requires c in Re.Reconcile(t, snap).cids
    ensures Follows(t, W.Reconcile(snap, clock), c, Re.Reconcile(t, snap).cids[c])
  {
    hide Re.E.Elect, Re.E.Newer, Re.Owners;
    var m := Re.ByCid(snap.established);
    if c in m {
      assert m[c] in snap.established;
    }
  }

  lemma EstablishFollows(t: O.Tables, a: W.Action, c: Cid)
    requires (a.EstablishFromEvent? || a.EstablishFromStatus?) && c in O.Establish(t, a.cid).cids
    ensures Follows(t, a, c, O.Establish(t, a.cid).cids[c])
  {
  }

  lemma TablesFollow(env: W.Env, s: W.State, a: W.Action, c: Cid)
    requires !a.Connect? && c in W.Next(env, s, a).tables.cids
    ensures Follows(s.tables, a, c, W.Next(env, s, a).tables.cids[c])
  {
    hide Re.Reconcile, O.Establish, O.Promote, O.Disconnect, O.CleanupPromoted, O.ClearInFlight, Follows,
         O.SetExpiry, O.RequestEviction, O.SetUsername, Re.ExpiredCids, W.StartsOf, Re.RowCids, O.StartsExpiry;
    match a
    case Reconcile(snap, clock) => ReconcileFollows(s.tables, snap, clock, c);
    case EstablishFromEvent(_, _) => EstablishFollows(s.tables, a, c);
    case EstablishFromStatus(_) => EstablishFollows(s.tables, a, c);
    case SetExpiry(x) => FieldFollows(s.tables, a, c);
    case RequestEviction(_) => FieldFollows(s.tables, a, c);
    case SetUsername(_, _) => FieldFollows(s.tables, a, c);
    case _ => PhaseFollows(s.tables, a, c);
  }

  lemma FieldFollows(t: O.Tables, a: W.Action, c: Cid)
    ensures a.SetExpiry? && c in O.SetExpiry(t, a.start.cid, a.start.at).cids ==>
              Follows(t, a, c, O.SetExpiry(t, a.start.cid, a.start.at).cids[c])
    ensures a.RequestEviction? && c in O.RequestEviction(t, a.cid).cids ==>
              Follows(t, a, c, O.RequestEviction(t, a.cid).cids[c])
    ensures a.SetUsername? && c in O.SetUsername(t, a.cid, a.username).cids ==>
              Follows(t, a, c, O.SetUsername(t, a.cid, a.username).cids[c])
  {
  }

  lemma PhaseFollows(t: O.Tables, a: W.Action, c: Cid)
    ensures a.Promote? && c in O.Promote(t, a.cid, a.now).cids ==> Follows(t, a, c, O.Promote(t, a.cid, a.now).cids[c])
    ensures a.Disconnect? && c in O.Disconnect(t, a.cid).cids ==> Follows(t, a, c, O.Disconnect(t, a.cid).cids[c])
    ensures a.CleanupPromoted? && c in O.CleanupPromoted(t, a.cid).cids ==>
              Follows(t, a, c, O.CleanupPromoted(t, a.cid).cids[c])
    ensures a.ClearInFlight? && c in O.ClearInFlight(t, a.cid).cids ==>
              Follows(t, a, c, O.ClearInFlight(t, a.cid).cids[c])
  {
  }

  // ----- every step keeps it -----

  lemma TablesKeepInv(env: W.Env, signer: B.Signer, s: State, a: W.Action)
    requires Inv(s) && Enabled(env, s, Tables(a))
    ensures Inv(Next(env, signer, s, Tables(a)))
  {
    hide W.Next, W.Enabled, Grounded;
    var u := Next(env, signer, s, Tables(a));
    SeenGrows(env, s.own, a);
    forall c | c in u.own.tables.cids
      ensures Grounded(u, c, u.own.tables.cids[c])
    {
      TablesFollow(env, s.own, a, c);
      FollowerGrounded(s, u, a, c, u.own.tables.cids[c]);
    }
  }

  lemma SeenGrows(env: W.Env, s: W.State, a: W.Action)
    ensures s.seen <= W.Next(env, s, a).seen
  {
    hide O.Connect, O.Classify, O.Establish, Re.Reconcile;
  }

  lemma FollowerGrounded(s: State, u: State, a: W.Action, c: Cid, st: O.CidState)
    requires AllGrounded(s) && Follows(s.own.tables, a, c, st) && u.race == s.race
    requires u.reports == if a.Reconcile? then s.reports + [Answered(a.snap)] else s.reports
    requires a.Promote? ==> Announced(s.reports, a.cid) || LetIn(s.race.log, a.cid)
    requires a.EstablishFromEvent? ==> Announced(s.reports, a.cid)
    requires a.EstablishFromStatus? ==> Listed(s.reports, a.cid)
    ensures Grounded(u, c, st)
  {
    hide Accepted, LetIn, Re.RowCids, Announced, Listed;
    HeardStays(s.reports, u.reports, c);
    if a.Reconcile? && c in Re.RowCids(a.snap.established) {
      JustListed(s.reports, a.snap, c);
    }
    assert c in s.own.tables.cids ==> Grounded(s, c, s.own.tables.cids[c]);
  }

  /** The other steps of the race accept nothing. */
  lemma RaceLogs(signer: B.Signer, r: C.Sys, c: C.Action)
    requires C.Enabled(r, c) && !c.Accept?
    ensures r.log <= C.Next(signer, r, c).log
    ensures forall i :: |r.log| <= i < |C.Next(signer, r, c).log| ==> !C.Next(signer, r, c).log[i].Accepted?
    ensures r.issued <= C.Next(signer, r, c).issued
  {
    hide C.Evaluate, C.K.Enabled, C.K.Next, B.TrimState, B.DecodeState;
  }

  /** A step that leaves the tables alone and accepts nothing. */
  lemma HistoryGrows(s: State, u: State)
    requires Inv(s) && u.own == s.own && s.race.log <= u.race.log && s.race.issued <= u.race.issued
    requires s.reports <= u.reports
    requires forall i :: |s.race.log| <= i < |u.race.log| ==> !u.race.log[i].Accepted?
    ensures Inv(u)
  {
    hide Grounded;
    assert forall i :: 0 <= i < |s.race.log| ==> u.race.log[i] == s.race.log[i];
    forall c | c in u.own.tables.cids
      ensures Grounded(u, c, u.own.tables.cids[c])
    {
      GroundsGrow(s, u, c, u.own.tables.cids[c]);
    }
  }

  lemma ConnectLogs(env: W.Env, signer: B.Signer, s: State, a: Action)
    requires a.Connect? && Enabled(env, s, a)
    ensures Next(env, signer, s, a).race.log == if O.Admitted(Meets(s, a.e)) then s.race.log + [C.Accepted(a.sess)]
        else s.race.log
    ensures Next(env, signer, s, a).race.issued == if O.Admitted(Meets(s, a.e)) then s.race.issued + {a.e.sid}
        else s.race.issued
  {
    hide W.Next, W.Enabled, O.Classify, Supersedable;
    ConnectEnabled(env, signer, s, a);
  }

  lemma ConnectKeepsInv(env: W.Env, signer: B.Signer, s: State, a: Action)
    requires Inv(s) && a.Connect? && Enabled(env, s, a)
    ensures Inv(Next(env, signer, s, a))
  {
    hide Next, Enabled, ServedOnce, AllGrounded;
    ConnectServesOnce(env, signer, s, a);
    ConnectKeepsGrounds(env, signer, s, a);
  }

  lemma ConnectServesOnce(env: W.Env, signer: B.Signer, s: State, a: Action)
    requires ServedOnce(s) && a.Connect? && Enabled(env, s, a)
    ensures ServedOnce(Next(env, signer, s, a))
  {
    hide O.Connect, O.Classify, Supersedable, C.Next, C.Enabled, ServedOnce;
    ConnectLogs(env, signer, s, a);
    O.ConnectShape(s.own.tables, a.e, Supersedable(s, a.e));
    var u := Next(env, signer, s, a);
    if O.Admitted(Meets(s, a.e)) {
      ServesOneMore(s, u, a.sess);
    } else {
      ServesNobodyNew(s, u);
    }
  }

  lemma ServesOneMore(s: State, u: State, sess: PendingSession)
    requires ServedOnce(s) && u.race.log == s.race.log + [C.Accepted(sess)]
    requires u.own.seen == s.own.seen + {sess.cid} && u.race.issued == s.race.issued + {sess.sessionId}
    requires sess.cid !in s.own.seen && sess.sessionId !in s.race.issued
    ensures ServedOnce(u)
  {
  }

  lemma ServesNobodyNew(s: State, u: State)
    requires ServedOnce(s) && u.race.log == s.race.log && s.own.seen <= u.own.seen && u.race.issued == s.race.issued
    ensures ServedOnce(u)
  {
  }

  lemma ConnectKeepsGrounds(env: W.Env, signer: B.Signer, s: State, a: Action)
    requires AllGrounded(s) && a.Connect? && Enabled(env, s, a)
    ensures AllGrounded(Next(env, signer, s, a))
  {
    hide O.Connect, O.Classify, Supersedable, Grounded, C.Next, C.Enabled, W.Enabled;
    var u := Next(env, signer, s, a);
    ConnectLogs(env, signer, s, a);
    O.ConnectShape(s.own.tables, a.e, Supersedable(s, a.e));
    forall c | c in u.own.tables.cids
      ensures Grounded(u, c, u.own.tables.cids[c])
    {
      if O.Admitted(Meets(s, a.e)) && c == a.e.cid {
        NewcomerGrounded(u, a.e, a.sess);
      } else {
        QuieterGrounded(s, c, s.own.tables.cids[c], u.own.tables.cids[c]);
        GroundsGrow(s, u, c, u.own.tables.cids[c]);
      }
    }
  }

  lemma NewcomerGrounded(u: State, e: O.ConnectEvent, sess: PendingSession)
    requires SessionOf(e, sess) && u.race.log != [] && u.race.log[|u.race.log| - 1] == C.Accepted(sess)
    ensures Grounded(u, e.cid, O.NewRecord(e))
  {
  }

  lemma QuieterGrounded(s: State, c: Cid, st: O.CidState, now: O.CidState)
    requires Grounded(s, c, st) && now == st.(inFlight := now.inFlight, sid := now.sid) && (now.inFlight ==> now == st)
    ensures Grounded(s, c, now)
  {
  }

  lemma InvKept(env: W.Env, signer: B.Signer, s: State, a: Action)
    requires Inv(s) && W.Inv(env, s.own) && Enabled(env, s, a)
    ensures Inv(Next(env, signer, s, a))
  {
    hide Inv, W.Inv, W.Next, W.Enabled, C.Next, C.Enabled, O.Classify, Supersedable;
    match a
    case Connect(_, _, _, _) => ConnectKeepsInv(env, signer, s, a);
    case Hear(_) => HistoryGrows(s, Next(env, signer, s, a));
    case Tables(w) => TablesKeepInv(env, signer, s, w);
    case Race(c) =>
      RaceLogs(signer, s.race, c);
      HistoryGrows(s, Next(env, signer, s, a));
  }

  lemma {:induction false} RunKeepsInv(env: W.Env, signer: B.Signer, s: State, acts: seq<Action>, s': State)
    requires Run(env, signer, s, acts, s') && Inv(s) && W.Reachable(env, s.own) && C.Reachable(signer, s.race)
    ensures Inv(s')
    decreases |acts|
  {
    hide Inv, W.Reachable, C.Reachable, W.Inv, Next, Enabled;
    if acts != [] {
      W.ReachableInv(env, s.own);
      InvKept(env, signer, s, acts[0]);
      StepProjects(env, signer, s, acts[0]);
      RunKeepsInv(env, signer, Next(env, signer, s, acts[0]), acts[1..], s');
    }
  }

  lemma ReachableInv(env: W.Env, signer: B.Signer, s: State)
    requires Reachable(env, signer, s)
    ensures Inv(s)
  {
    hide W.Reachable, C.Reachable;
    var acts :| Run(env, signer, Init, acts, s);
    W.InitReachable(env);
    C.InitReachable(signer);
    RunKeepsInv(env, signer, Init, acts, s);
  }

  // ----- what the whole daemon promises -----

  /**
   In every run every promoted CID was let in by a callback, or an ESTABLISHED event named it; and every
   established CID, an owner in particular, was named by an ESTABLISHED event or listed by a status answer.
   */
  lemma NobodyUninvited(env: W.Env, signer: B.Signer, s: State, c: Cid)
    requires Reachable(env, signer, s) && c in s.own.tables.cids
    ensures s.own.tables.cids[c].promoted ==> Announced(s.reports, c) || LetIn(s.race.log, c)
    ensures s.own.tables.cids[c].established ==> Announced(s.reports, c) || Listed(s.reports, c)
    ensures (exists i :: i in s.own.tables.active && s.own.tables.active[i] == c) ==>
              Announced(s.reports, c) || Listed(s.reports, c)
  {
    hide LetIn, Accepted, ServedOnce, Announced, Listed;
    ReachableInv(env, signer, s);
    assert Grounded(s, c, s.own.tables.cids[c]);
    ReachableParts(env, signer, s);
    W.ReachableInv(env, s.own);
    forall i | i in s.own.tables.active && s.own.tables.active[i] == c
      ensures s.own.tables.cids[c].established
    {
      O.OwnerSettled(s.own.tables, i);
    }
  }

  /**
   What being let in means: an allow of a session of this CID, justified by its CONNECT, its verified state and
   its checks, whose very request OpenVPN answered with SUCCESS.
   */
  lemma LetInMeans(env: W.Env, signer: B.Signer, s: State, c: Cid)
    requires Reachable(env, signer, s) && LetIn(s.race.log, c)
    ensures exists i :: 0 <= i < |s.race.log| && s.race.log[i].Allowed? && s.race.log[i].sess.cid == c
                        && C.Justified(s.race.log, i)
                        && C.K.Succeeded(s.race.link, C.AllowRequest(s.race.log[i].sess, s.race.log[i].id))
  {
    hide C.Reachable, C.Justified, C.K.Succeeded, W.Reachable, C.AllowRequest;
    var k :| 0 <= k < |s.race.log| && s.race.log[k].Authenticated? && s.race.log[k].sess.cid == c;
    ReachableParts(env, signer, s);
    C.AuthenticatedAfterSuccess(signer, s.race, k);
    var i :| 0 <= i < k && s.race.log[i].Allowed? && s.race.log[i].sess == s.race.log[k].sess
        && s.race.log[i].id == s.race.log[k].id;
    C.AllowIsJustified(signer, s.race, i);
  }

  /** Sessions of one CID are one session. */
  lemma SameClientSameSession(s: State, x: PendingSession, y: PendingSession)
    requires ServedOnce(s) && C.AcceptedBefore(s.race.log, |s.race.log|, x)
        && C.AcceptedBefore(s.race.log, |s.race.log|, y)
    ensures x.cid == y.cid ==> x.sessionId == y.sessionId
  {
    var i :| 0 <= i < |s.race.log| && s.race.log[i] == C.Accepted(x.(status := SessionStatus.Pending));
    var j :| 0 <= j < |s.race.log| && s.race.log[j] == C.Accepted(y.(status := SessionStatus.Pending));
    assert s.race.log[i].sess.cid == x.cid && s.race.log[j].sess.cid == y.cid;
  }

  /**
   In every run each client, not just each session, gets at most one decision from callback, timeout and
   supersession together: never two allows, and never an allow and a deny.
   */
  lemma OneDecisionPerClient(env: W.Env, signer: B.Signer, s: State, i: nat, j: nat)
    requires Reachable(env, signer, s) && i < j < |s.race.log|
    requires C.Decides(s.race.log[i]).Some? && C.Decides(s.race.log[j]).Some?
    ensures s.race.log[i].sess.cid != s.race.log[j].sess.cid
  {
    hide W.Reachable, C.Reachable, C.AcceptedBefore, AllGrounded, ServedOnce, C.Exclusive, C.IssuedOnce;
    ReachableInv(env, signer, s);
    ReachableParts(env, signer, s);
    C.ReachableRaceInv(signer, s.race);
    C.ReachableAllAccepted(signer, s.race);
    SameClientSameSession(s, s.race.log[i].sess, s.race.log[j].sess);
  }

  /** The pending session that a CONNECT supersedes is the one of the record it met: same CID, same key. */
  lemma SupersededIsTheRival(env: W.Env, signer: B.Signer, s: State, e: O.ConnectEvent)
    requires Reachable(env, signer, s) && Meets(s, e).PendingAttempt?
    ensures var m := Meets(s, e);
            && m.oldSid in s.race.store && s.race.store[m.oldSid].status == SessionStatus.Pending
            && s.race.store[m.oldSid].cid == m.oldCid && s.race.store[m.oldSid].kid == m.oldKid
  {
    hide W.Reachable, C.Reachable, C.VerifiedBefore, C.WonBefore, C.Justified, C.StateChecked, C.Exclusive,
         C.OneDecision, LetIn;
    var m := Meets(s, e);
    ReachableInv(env, signer, s);
    ReachableParts(env, signer, s);
    C.ReachableRaceInv(signer, s.race);
    C.ReachableProvenance(signer, s.race);
    assert Grounded(s, m.oldCid, s.own.tables.cids[m.oldCid]);
    var x := s.race.store[m.oldSid];
    assert C.AcceptedBefore(s.race.log, |s.race.log|, x);
    SameSession(s, m.oldCid, m.oldKid, x);
  }

  lemma SameSession(s: State, cid: Cid, kid: string, x: PendingSession)
    requires ServedOnce(s) && C.AcceptedBefore(s.race.log, |s.race.log|, x)
        && Accepted(s.race.log, cid, x.sessionId, kid)
    ensures x.cid == cid && x.kid == kid
  {
    var i :| 0 <= i < |s.race.log| && s.race.log[i] == C.Accepted(x.(status := SessionStatus.Pending));
    var j :| 0 <= j < |s.race.log| && s.race.log[j].Accepted? && s.race.log[j].sess.cid == cid
             && s.race.log[j].sess.sessionId == x.sessionId && s.race.log[j].sess.kid == kid;
    assert s.race.log[i].sess.sessionId == x.sessionId;
  }
}
