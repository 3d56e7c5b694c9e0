/**
 The ownership tables of the authentication handler: one record per client ID (CID), an
 index from identity to the established CID that owns it, and an index from identity to the
 attempt in progress. Each function below is one critical section under the handler's mutex.
 */
module Ownership {
  import opened Basics
  import opened Text

  type Cid = string
  type Identity = string
  type Sid = string
  type Time = int

  /** Per-connection record. A context cancel function is modelled by whether it is non-nil. */
  datatype CidState = CidState(
    inFlight: bool,             // cancel != nil: authentication pending
    sid: Sid,                   // session ID while in flight
    cn: string,
    identity: Identity,
    kid: string,
    connectAt: Option<Time>,
    expiry: Option<Time>,       // anchor of the maximum-duration timer
    promoted: bool,             // callback passed, ESTABLISHED not seen yet
    deadlineArmed: bool,        // promotedCancel != nil
    established: bool,
    evictionRequested: bool,
    username: string)

  /** The zero `cidState`. */
  const Fresh := CidState(false, "", "", "", "", None, None, false, false, false, false, "")

  datatype Tables = Tables(
    cids: map<Cid, CidState>,
    active: map<Identity, Cid>,
    attempt: map<Identity, Cid>)

  const Empty := Tables(map[], map[], map[])

  /** Deletes the entry of `k` if it points at `v`. */
  function Unlink(m: map<string, string>, k: string, v: string): map<string, string> {
    if k in m && m[k] == v then m - {k} else m
  }

  // ----- CONNECT -----

  datatype ConnectEvent = ConnectEvent(cid: Cid, kid: string, cn: string, identity: Identity, sid: Sid, now: Time)

  /** How a CONNECT meets the attempt already recorded for its identity. */
  datatype Conflict =
    | NoAttempt
    | DuplicateConnect
    | MissingRecord                               // index entry without a record
    | PromotedAttempt(promotedCid: Cid)
    | ProcessingAttempt                           // the callback already holds the session
    | PendingAttempt(oldCid: Cid, oldSid: Sid, oldKid: string)
    | IdleRecord                                  // record neither in flight nor promoted

  /** `supersedable` says whether the session store accepts SupersedePending for the old attempt. */
  function Classify(t: Tables, e: ConnectEvent, supersedable: bool): Conflict {
    if e.identity !in t.attempt then NoAttempt
    else
      var prior := t.attempt[e.identity];
      if prior == e.cid then DuplicateConnect
      else if prior !in t.cids then MissingRecord
      else if t.cids[prior].promoted then PromotedAttempt(prior)
      else if t.cids[prior].inFlight then
        if supersedable then PendingAttempt(prior, t.cids[prior].sid, t.cids[prior].kid) else ProcessingAttempt
      else IdleRecord
  }

  predicate Admitted(c: Conflict) {
    !c.DuplicateConnect? && !c.PromotedAttempt? && !c.ProcessingAttempt?
  }

  function NewRecord(e: ConnectEvent): CidState {
    Fresh.(inFlight := true, sid := e.sid, cn := e.cn, identity := e.identity, kid := e.kid, connectAt := Some(e.now))
  }

  function Connect(t: Tables, e: ConnectEvent, supersedable: bool): Tables {
    var c := Classify(t, e, supersedable);
    if !Admitted(c) then t
    else
      var cids := if c.PendingAttempt? then t.cids[c.oldCid := t.cids[c.oldCid].(inFlight := false, sid := "")]
                  else t.cids;
      t.(cids := cids[e.cid := NewRecord(e)], attempt := t.attempt[e.identity := e.cid])
  }

  // ----- promotion and establishment -----

  function Promote(t: Tables, cid: Cid, now: Time): Tables {
    if cid !in t.cids || !t.cids[cid].inFlight then t
    else
      var st := t.cids[cid];
      var at := if st.connectAt.None? then Some(now) else st.connectAt;
      var st' := st.(connectAt := at, inFlight := false, sid := "", promoted := true, deadlineArmed := true);
      t.(cids := t.cids[cid := st'])
  }

  function SetUsername(t: Tables, cid: Cid, username: string): Tables {
    if cid !in t.cids then t
    else t.(cids := t.cids[cid := t.cids[cid].(username := username)])
  }

  /** The CID that `Establish(t, cid)` displaces from its identity, if any. */
  function Displaced(t: Tables, cid: Cid): Option<Cid> {
    if cid !in t.cids then None
    else
      var i := t.cids[cid].identity;
      if i in t.active && t.active[i] != cid then Some(t.active[i]) else None
  }

  function Establish(t: Tables, cid: Cid): Tables {
    if cid !in t.cids then t
    else
      var st := t.cids[cid];
      var cids := t.cids[cid := st.(promoted := false, established := true, deadlineArmed := false)];
      var prior := Displaced(t, cid);
      var cids' := if prior.Some? && prior.value in cids
                   then cids[prior.value := cids[prior.value].(evictionRequested := true, expiry := None)] else cids;
      Tables(cids', t.active[st.identity := cid], Unlink(t.attempt, st.identity, cid))
  }

  /** Whether that establishment goes on to start the maximum-duration timer. */
  predicate StartsExpiry(t: Tables, cid: Cid, authoritative: bool, maxDuration: int) {
    cid in t.cids && maxDuration > 0 && (t.cids[cid].promoted || authoritative) && !t.cids[cid].established
  }

  /** `replaceExpiryState`, a critical section of its own. */
  function SetExpiry(t: Tables, cid: Cid, at: Time): Tables {
    if cid !in t.cids then t
    else t.(cids := t.cids[cid := t.cids[cid].(expiry := Some(at))])
  }

  /** Marks a session that a status snapshot shows to be past its duration. */
  function RequestEviction(t: Tables, cid: Cid): Tables {
    if cid !in t.cids then t
    else t.(cids := t.cids[cid := t.cids[cid].(evictionRequested := true)])
  }

  // ----- removal -----

  function Disconnect(t: Tables, cid: Cid): Tables {
    if cid !in t.cids then t
    else
      var i := t.cids[cid].identity;
      Tables(t.cids - {cid}, Unlink(t.active, i, cid), Unlink(t.attempt, i, cid))
  }

  function CleanupPromoted(t: Tables, cid: Cid): Tables {
    if cid !in t.cids || !t.cids[cid].promoted then t
    else t.(cids := t.cids - {cid}, attempt := Unlink(t.attempt, t.cids[cid].identity, cid))
  }

  function ClearInFlight(t: Tables, cid: Cid): Tables {
    if cid !in t.cids then t
    else
      var st := t.cids[cid];
      t.(cids := t.cids[cid := st.(inFlight := false, sid := "")],
         attempt := if st.promoted then t.attempt else Unlink(t.attempt, st.identity, cid))
  }

  // ----- the invariant -----

  predicate Live(st: CidState) {
    st.inFlight || st.promoted
  }

  /**
   A record is in at most one of the states in flight, promoted and established; it names a session only while in
   flight; and a promoted one has its deadline running.
   */
  ghost predicate PhasesDisjoint(t: Tables) {
    forall c :: c in t.cids ==>
      && !(t.cids[c].inFlight && t.cids[c].promoted)
      && (t.cids[c].established ==> !Live(t.cids[c]))
      && (t.cids[c].promoted ==> t.cids[c].deadlineArmed)
      && (t.cids[c].sid != "" ==> t.cids[c].inFlight)
  }

  /** The attempt index and the live records point at each other. */
  ghost predicate AttemptsAgree(t: Tables) {
    && (forall i :: i in t.attempt ==>
          t.attempt[i] in t.cids && t.cids[t.attempt[i]].identity == i && Live(t.cids[t.attempt[i]]))
    && (forall c :: c in t.cids && Live(t.cids[c]) ==>
          t.cids[c].identity in t.attempt && t.attempt[t.cids[c].identity] == c)
  }

  /** The active index points at established records of the right identity. */
  ghost predicate ActiveAgree(t: Tables) {
    forall i :: i in t.active ==>
      t.active[i] in t.cids && t.cids[t.active[i]].identity == i && t.cids[t.active[i]].established
  }

  predicate Owns(t: Tables, c: Cid)
    requires c in t.cids
  {
    t.cids[c].identity in t.active && t.active[t.cids[c].identity] == c
  }

  /** Every established record that does not own its identity is marked for eviction. */
  ghost predicate LosersMarked(t: Tables) {
    forall c :: c in t.cids && t.cids[c].established ==> Owns(t, c) || t.cids[c].evictionRequested
  }

  ghost predicate Inv(t: Tables) {
    PhasesDisjoint(t) && AttemptsAgree(t) && ActiveAgree(t) && LosersMarked(t)
  }

  // ----- every critical section keeps the invariant -----

  lemma ConnectKeepsInv(t: Tables, e: ConnectEvent, supersedable: bool)
    requires Inv(t)
    requires e.cid !in t.cids || (e.identity in t.attempt && t.attempt[e.identity] == e.cid)
    ensures Inv(Connect(t, e, supersedable))
  {
    hide PhasesDisjoint, AttemptsAgree, ActiveAgree, LosersMarked, Connect;
    ConnectKeepsAttempts(t, e, supersedable);
    ConnectKeepsActive(t, e, supersedable);
  }

  lemma ConnectKeepsAttempts(t: Tables, e: ConnectEvent, supersedable: bool)
    requires PhasesDisjoint(t) && AttemptsAgree(t)
    requires e.cid !in t.cids || (e.identity in t.attempt && t.attempt[e.identity] == e.cid)
    ensures PhasesDisjoint(Connect(t, e, supersedable)) && AttemptsAgree(Connect(t, e, supersedable))
  {
  }

  lemma ConnectKeepsActive(t: Tables, e: ConnectEvent, supersedable: bool)
    requires ActiveAgree(t) && LosersMarked(t)
    requires e.cid !in t.cids || (e.identity in t.attempt && t.attempt[e.identity] == e.cid)
    ensures ActiveAgree(Connect(t, e, supersedable)) && LosersMarked(Connect(t, e, supersedable))
  {
    hide Connect;
    ConnectShape(t, e, supersedable);
  }

  /** A CONNECT adds or replaces its own record and leaves what others have established alone. */
  lemma ConnectShape(t: Tables, e: ConnectEvent, supersedable: bool)
    ensures var u := Connect(t, e, supersedable);
            && (if !Admitted(Classify(t, e, supersedable)) then u == t
                else
                  && u.cids.Keys == t.cids.Keys + {e.cid} && u.cids[e.cid] == NewRecord(e)
                  && u.attempt == t.attempt[e.identity := e.cid]
                  && !(e.identity in t.attempt && t.attempt[e.identity] == e.cid))
            && u.active == t.active
            && forall c :: c in t.cids && c != e.cid ==>
                 && u.cids[c] == t.cids[c].(inFlight := u.cids[c].inFlight, sid := u.cids[c].sid)
                 && (u.cids[c].inFlight ==> u.cids[c] == t.cids[c])
  {
  }

  /** What an admitted CONNECT records: an attempt of its own client, session, key and time, and nothing else yet. */
  lemma ConnectRecords(t: Tables, e: ConnectEvent, supersedable: bool)
    requires Admitted(Classify(t, e, supersedable))
    ensures var u := Connect(t, e, supersedable);
            && e.cid in u.cids && e.identity in u.attempt && u.attempt[e.identity] == e.cid
            && var st := u.cids[e.cid];
               && st.inFlight && st.sid == e.sid && st.cn == e.cn && st.identity == e.identity && st.kid == e.kid
               && st.connectAt == Some(e.now) && st.expiry == None && st.username == ""
               && !st.promoted && !st.deadlineArmed && !st.established && !st.evictionRequested
  {
    ConnectShape(t, e, supersedable);
  }

  /** A CONNECT is turned away exactly by its own attempt, a promoted one, or one that cannot be superseded. */
  lemma AdmittedExactly(t: Tables, e: ConnectEvent, supersedable: bool)
    requires Inv(t)
    ensures Admitted(Classify(t, e, supersedable)) <==>
              || e.identity !in t.attempt
              || (t.attempt[e.identity] != e.cid && !t.cids[t.attempt[e.identity]].promoted && supersedable)
  {
  }

  /** Promotion is of in-flight records only, keeps the time of the CONNECT and starts the deadline. */
  lemma PromoteRecords(t: Tables, cid: Cid, now: Time)
    ensures var u := Promote(t, cid, now);
            && u.active == t.active && u.attempt == t.attempt
            && (if cid in t.cids && t.cids[cid].inFlight then
                  && u.cids.Keys == t.cids.Keys && (forall c :: c in t.cids && c != cid ==> u.cids[c] == t.cids[c])
                  && var st, was := u.cids[cid], t.cids[cid];
                     && !st.inFlight && st.sid == "" && st.promoted && st.deadlineArmed
                     && st.connectAt == (if was.connectAt.Some? then was.connectAt else Some(now))
                     && st.identity == was.identity && st.kid == was.kid && st.username == was.username
                else u == t)
  {
  }

  lemma PromoteKeepsInv(t: Tables, cid: Cid, now: Time)
    requires Inv(t)
    ensures Inv(Promote(t, cid, now))
  {
  }

  /** What establishment does to each record, and to nothing else. */
  lemma EstablishShape(t: Tables, cid: Cid)
    requires ActiveAgree(t) && cid in t.cids
    ensures var u := Establish(t, cid);
            && u.cids.Keys == t.cids.Keys
            && u.active == t.active[t.cids[cid].identity := cid]
            && u.attempt == Unlink(t.attempt, t.cids[cid].identity, cid)
            && u.cids[cid] == t.cids[cid].(promoted := false, established := true, deadlineArmed := false)
            && forall c :: c in t.cids && c != cid ==>
                 u.cids[c] == if Displaced(t, cid) == Some(c) then t.cids[c].(evictionRequested := true,
                     expiry := None) else t.cids[c]
  {
  }

  lemma EstablishKeepsInv(t: Tables, cid: Cid)
    requires Inv(t)
    requires cid in t.cids ==> !t.cids[cid].inFlight
    ensures Inv(Establish(t, cid))
  {
    if cid in t.cids {
      var u := Establish(t, cid);
      EstablishShape(t, cid);
      EstablishKeepsAttempts(t, u, cid);
      EstablishKeepsActive(t, u, cid);
    }
  }

  lemma EstablishKeepsAttempts(t: Tables, u: Tables, cid: Cid)
    requires Inv(t) && cid in t.cids && !t.cids[cid].inFlight
    requires u.cids.Keys == t.cids.Keys && u.attempt == Unlink(t.attempt, t.cids[cid].identity, cid)
    requires u.cids[cid] == t.cids[cid].(promoted := false, established := true, deadlineArmed := false)
    requires forall c :: c in t.cids && c != cid ==>
               u.cids[c] == t.cids[c].(evictionRequested := u.cids[c].evictionRequested, expiry := u.cids[c].expiry)
    ensures PhasesDisjoint(u) && AttemptsAgree(u)
  {
  }

  lemma EstablishKeepsActive(t: Tables, u: Tables, cid: Cid)
    requires Inv(t) && cid in t.cids
    requires u.cids.Keys == t.cids.Keys && u.active == t.active[t.cids[cid].identity := cid]
    requires u.cids[cid] == t.cids[cid].(promoted := false, established := true, deadlineArmed := false)
    requires forall c :: c in t.cids && c != cid ==>
                 u.cids[c] == if Displaced(t, cid) == Some(c) then t.cids[c].(evictionRequested := true,
                     expiry := None) else t.cids[c]
    ensures ActiveAgree(u) && LosersMarked(u)
  {
    hide PhasesDisjoint, AttemptsAgree;
    forall c | c in u.cids && u.cids[c].established
      ensures Owns(u, c) || u.cids[c].evictionRequested
    {
      assert c == cid || Owns(t, c) || t.cids[c].evictionRequested;
    }
  }

  lemma DisconnectKeepsInv(t: Tables, cid: Cid)
    requires Inv(t)
    ensures Inv(Disconnect(t, cid))
  {
  }

  lemma CleanupPromotedKeepsInv(t: Tables, cid: Cid)
    requires Inv(t)
    ensures Inv(CleanupPromoted(t, cid))
  {
  }

  lemma ClearInFlightKeepsInv(t: Tables, cid: Cid)
    requires Inv(t)
    ensures Inv(ClearInFlight(t, cid))
  {
  }

  lemma RemovalsKeepInv(t: Tables, cid: Cid)
    requires Inv(t)
    ensures Inv(Disconnect(t, cid)) && Inv(CleanupPromoted(t, cid)) && Inv(ClearInFlight(t, cid))
  {
    hide Inv, Disconnect, CleanupPromoted, ClearInFlight;
    DisconnectKeepsInv(t, cid);
    CleanupPromotedKeepsInv(t, cid);
    ClearInFlightKeepsInv(t, cid);
  }

  /** An update that leaves identity and phase alone and takes no eviction mark away. */
  lemma FieldUpdateKeepsInv(t: Tables, cid: Cid, st: CidState)
    requires Inv(t) && cid in t.cids && (t.cids[cid].evictionRequested ==> st.evictionRequested)
    requires st == t.cids[cid].(expiry := st.expiry, evictionRequested := st.evictionRequested, username := st.username)
    ensures Inv(t.(cids := t.cids[cid := st]))
  {
  }

  lemma FieldUpdatesKeepInv(t: Tables, cid: Cid, at: Time, username: string)
    requires Inv(t)
    ensures Inv(SetExpiry(t, cid, at)) && Inv(RequestEviction(t, cid)) && Inv(SetUsername(t, cid, username))
  {
    hide Inv;
    if cid in t.cids {
      var st := t.cids[cid];
      FieldUpdateKeepsInv(t, cid, st.(expiry := Some(at)));
      FieldUpdateKeepsInv(t, cid, st.(evictionRequested := true));
      FieldUpdateKeepsInv(t, cid, st.(username := username));
    }
  }

  // ----- consequences -----

  /** The nil-record and idle-record branches of a CONNECT conflict are dead code. */
  lemma ConflictBranchesUnreachable(t: Tables, e: ConnectEvent, supersedable: bool)
    requires Inv(t)
    ensures !Classify(t, e, supersedable).MissingRecord? && !Classify(t, e, supersedable).IdleRecord?
  {
  }

  lemma OwnerSettled(t: Tables, i: Identity)
    requires Inv(t) && i in t.active
    ensures t.active[i] in t.cids && t.cids[t.active[i]].identity == i
    ensures t.cids[t.active[i]].established && !Live(t.cids[t.active[i]])
  {
  }

  lemma AttemptIsLive(t: Tables, i: Identity)
    requires Inv(t) && i in t.attempt
    ensures t.attempt[i] in t.cids && Live(t.cids[t.attempt[i]])
  {
  }

  lemma AttemptRecord(t: Tables, i: Identity)
    requires Inv(t) && i in t.attempt
    ensures t.attempt[i] in t.cids && t.cids[t.attempt[i]].identity == i && Live(t.cids[t.attempt[i]])
    ensures t.cids[t.attempt[i]].promoted ==> !t.cids[t.attempt[i]].inFlight && !t.cids[t.attempt[i]].established
  {
  }

  /** At most one live attempt per identity. */
  lemma OneLiveAttempt(t: Tables, c: Cid, d: Cid)
    requires Inv(t) && c in t.cids && d in t.cids && Live(t.cids[c]) && Live(t.cids[d])
    requires t.cids[c].identity == t.cids[d].identity
    ensures c == d
  {
  }

  ghost function InFlightCids(t: Tables): set<Cid> {
    set c | c in t.cids && t.cids[c].inFlight
  }

  ghost function UnpromotedAttempts(t: Tables): set<Identity>
    requires AttemptsAgree(t)
  {
    set i | i in t.attempt && !t.cids[t.attempt[i]].promoted
  }

  /** The number of in-flight records is the number of identities with an unpromoted attempt. */
  lemma InFlightCountsAttempts(t: Tables)
    requires Inv(t)
    ensures |InFlightCids(t)| == |UnpromotedAttempts(t)|
  {
    MatchedSets(InFlightCids(t), UnpromotedAttempts(t), t);
  }

  lemma {:induction false} MatchedSets(cs: set<Cid>, ids: set<Identity>, t: Tables)
    requires AttemptsAgree(t)
    requires forall c :: c in cs ==> c in t.cids && Live(t.cids[c]) && t.cids[c].identity in ids
    requires forall i :: i in ids ==> i in t.attempt && t.attempt[i] in cs
    ensures |cs| == |ids|
    decreases cs
  {
    if cs == {} {
      assert ids == {};
    } else {
      var c :| c in cs;
      var i := t.cids[c].identity;
      MatchedSets(cs - {c}, ids - {i}, t);
    }
  }
}
