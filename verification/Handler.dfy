/** The authentication handler as a class: each method updates the tables as the code does. */
module HandlerClass {
  import opened Basics
  import opened Text
  import opened Ownership
  import opened Snapshots
  import opened Commands
  import S = Sessions
  import E = Election
  import R = Rebuild
  import State = StateBlob
  import Timing
  import D = DaemonRuns

  /** What a status query tells about one client. */
  datatype StatusAnswer = Unavailable | Absent | NotEstablished | Established(connectedAt: Time)

  /** What the handler reads of a CONNECT event. */
  datatype ConnectRequest = ConnectRequest(cid: Cid, kid: string, cn: string, sso: string, username: string)

  /** Why a CONNECT is turned away before a session is made, if it is. */
  function Refusal(r: ConnectRequest): Option<string> {
    if !Contains(ToLower(r.sso), "webauth") && !Contains(ToLower(r.sso), "openurl")
    then Some("client does not support WebAuth")
    else if r.cn == "" then Some("missing common name")
    else if NormalizeIdentity(r.cn).None? then Some("invalid identity")
    else None
  }

  /** Each refusal and its only cause, by what the client sent. */
  lemma RefusalExactly(r: ConnectRequest)
    ensures var web := (exists a, b :: ToLower(r.sso) == a + "webauth" + b)
                       || (exists a, b :: ToLower(r.sso) == a + "openurl" + b);
            && (Refusal(r) == Some("client does not support WebAuth") <==> !web)
            && (Refusal(r) == Some("missing common name") <==> web && r.cn == "")
            && (Refusal(r) == Some("invalid identity") <==> web && r.cn != "" && !Trimmed(r.cn))
            && (Refusal(r) == None <==> web && r.cn != "" && Trimmed(r.cn))
  {
    hide ToLower, Contains, Trimmed;
    ContainsMeans(ToLower(r.sso), "webauth");
    ContainsMeans(ToLower(r.sso), "openurl");
    assert |"client does not support WebAuth"| == 31 && |"missing common name"| == 19 && |"invalid identity"| == 16;
  }

  function EventOf(r: ConnectRequest, d: Draw): ConnectEvent
    requires NormalizeIdentity(r.cn).Some?
  {
    ConnectEvent(r.cid, r.kid, r.cn, NormalizeIdentity(r.cn).value, d.sid, d.now)
  }

  /** The event is the request's own, and its retry differs in what it draws only. */
  lemma EventKeepsRequest(r: ConnectRequest, d: Draw, again: Draw)
    requires NormalizeIdentity(r.cn).Some?
    ensures var e := EventOf(r, d);
            && e.cid == r.cid && e.kid == r.kid && e.cn == r.cn && Some(e.identity) == NormalizeIdentity(r.cn)
            && e.sid == d.sid && e.now == d.now
            && Redrawn(e, again) == EventOf(r, again)
  {
    hide NormalizeIdentity;
  }

  /** Session IDs are of the base64url alphabet, and the clock fits its integers. */
  predicate Drawable(r: ConnectRequest, d: Option<Draw>, authTimeout: int) {
    d.Some? && NormalizeIdentity(r.cn).Some? ==> State.ValidPayload(PayloadFor(EventOf(r, d.value), authTimeout))
  }

  /** The kill that establishing `p` entails. */
  function Displacement(t: Tables, p: Cid, status: StatusAnswer): seq<Decision> {
    if status.Established? && Displaced(t, p).Some? then [Kill(Displaced(t, p).value, "HALT")] else []
  }

  /** What a CONNECT draws: a session ID and the clock. */
  datatype Draw = Draw(sid: Sid, now: Time)

  /** The same event as its retry sees it. */
  function Redrawn(e: ConnectEvent, d: Draw): ConnectEvent {
    e.(sid := d.sid, now := d.now)
  }

  function PayloadFor(e: ConnectEvent, authTimeout: int): State.StatePayload {
    State.StatePayload(e.sid, Timing.Unix(e.now), Timing.StateExpiry(e.now, authTimeout))
  }

  /** The login URL of a CONNECT: the callback URL with the signed state of its own session. */
  function UrlFor(e: ConnectEvent, callbackUrl: string, authTimeout: int, signer: State.Signer): string
    requires State.ValidPayload(PayloadFor(e, authTimeout))
  {
    State.AuthUrl(callbackUrl, State.EncodeState(PayloadFor(e, authTimeout), signer))
  }

  /** Whole seconds of a duration, rounded towards zero. */
  function Seconds(d: int): int {
    if d >= 0 then d / Timing.SECOND else -(-d / Timing.SECOND)
  }

  function Kills(cids: seq<Cid>): (ds: seq<Decision>)
    ensures |ds| == |cids| && forall k :: 0 <= k < |cids| ==> ds[k] == Kill(cids[k], "HALT")
  {
    seq(|cids|, k requires 0 <= k < |cids| => Kill(cids[k], "HALT"))
  }

  lemma {:induction false} KillsCount(cids: seq<Cid>, c: Cid)
    ensures multiset(Kills(cids))[Kill(c, "HALT")] == multiset(cids)[c]
    decreases |cids|
  {
    if cids != [] {
      var init, last := cids[..|cids| - 1], cids[|cids| - 1];
      KillsCount(init, c);
      assert cids == init + [last];
      assert Kills(cids) == Kills(init) + [Kill(last, "HALT")];
    }
  }

  /** A row is killed once for losing the election, and once for having lasted the maximum duration. */
  lemma RowKilled(rows: seq<EstablishedSession>, now: Time, maxDuration: int, r: EstablishedSession)
    requires DistinctSessions(rows) && r in rows
    ensures multiset(Kills(E.Elect(rows).evictions + R.ExpiredCids(rows, now, maxDuration)))[Kill(r.cid, "HALT")] ==
              (if E.Valid(r) && !E.Wins(E.Elect(rows), r) then 1 else 0) +
              (if maxDuration > 0 && now - r.connectedAt >= maxDuration then 1 else 0)
  {
    hide E.Elect, E.Newer, E.Valid, E.Identity, R.ExpiredCids, Kills;
    var losers, late := E.Elect(rows).evictions, R.ExpiredCids(rows, now, maxDuration);
    KillsCount(losers + late, r.cid);
    R.ExpiredOnce(rows, now, maxDuration, r);
    E.ElectPartitions(rows);
    if !E.Valid(r) && r.cid in losers {
      var q :| q in rows && E.Valid(q) && q.cid == r.cid;
      E.SameCidSameRow(rows, q, r);
    }
  }

  function DroppedSids(t: Tables, present: set<Cid>): set<S.Sid> {
    set c | c in t.cids && c !in present && t.cids[c].sid != "" :: t.cids[c].sid
  }

  /** Dropping one more record is disconnecting it. */
  lemma SweepStep(t: Tables, kept: set<Cid>, cid: Cid)
    requires cid in t.cids && cid in kept
    ensures R.Sweep(t, kept - {cid}) == Disconnect(R.Sweep(t, kept), cid)
    ensures DroppedSids(t, kept - {cid}) == DroppedSids(t, kept) + if t.cids[cid].sid == "" then {}
        else {t.cids[cid].sid}
  {
    var s, u := R.Sweep(t, kept), R.Sweep(t, kept - {cid});
    var d := Disconnect(s, cid);
    assert u.cids == d.cids;
    SweepStepIndex(t, kept, cid, t.active);
    SweepStepIndex(t, kept, cid, t.attempt);
    forall sid | sid in DroppedSids(t, kept - {cid})
      ensures sid in DroppedSids(t, kept) || sid == t.cids[cid].sid
    {
      var c :| c in t.cids && c !in kept - {cid} && t.cids[c].sid != "" && t.cids[c].sid == sid;
      assert c == cid || c !in kept;
    }
  }

  lemma SweepStepIndex(t: Tables, kept: set<Cid>, cid: Cid, m: map<Identity, Cid>)
    requires cid in t.cids && cid in kept
    ensures (map i | i in m && !R.Dropped(t, kept - {cid}, i, m[i]) :: m[i])
         == Ownership.Unlink(map i | i in m && !R.Dropped(t, kept, i, m[i]) :: m[i], t.cids[cid].identity, cid)
  {
  }

  /** The tables once a promoted attempt was found established: ownership moves, and a first anchor is set. */
  function Reconciled(t: Tables, p: Cid, connectedAt: Time, maxDuration: int): Tables {
    var u := Establish(t, p);
    if StartsExpiry(t, p, true, maxDuration) then SetExpiry(u, p, connectedAt) else u
  }

  /** How OpenVPN takes a kill, and what the status query after a refusal says. */
  datatype KillAnswer = Accepted | RefusedPresent | RefusedAbsent | RefusedUnknown

  /** The answer to the first eviction that names `c`. */
  function FirstAnswer(evictions: seq<Decision>, answers: seq<KillAnswer>, c: Cid): KillAnswer
    requires |answers| == |evictions|
  {
    if evictions == [] then Accepted
    else if evictions[0].cid == c then answers[0]
    else FirstAnswer(evictions[1..], answers[1..], c)
  }

  lemma {:induction false} FirstAnswerAt(evictions: seq<Decision>, answers: seq<KillAnswer>, n: nat)
    requires |answers| == |evictions| && n < |evictions|
    requires forall k :: 0 <= k < n ==> evictions[k].cid != evictions[n].cid
    ensures FirstAnswer(evictions, answers, evictions[n].cid) == answers[n]
    decreases n
  {
    if n > 0 {
      FirstAnswerAt(evictions[1..], answers[1..], n - 1);
    }
  }

  /** An eviction of `c` was asked for and the record of `c` still carries the mark. */
  ghost predicate Due(t: Tables, evictions: seq<Decision>, c: Cid)
    requires forall k :: 0 <= k < |evictions| ==> evictions[k].Kill?
  {
    && c in t.cids && t.cids[c].evictionRequested
    && exists k :: 0 <= k < |evictions| && evictions[k].cid == c
  }

  lemma NothingDue(t: Tables)
    ensures forall c :: !Due(t, [], c)
  {
  }

  /** One more eviction makes its own CID due, if the record is marked; the first time, nobody named it before. */
  lemma DueOneMore(t: Tables, evictions: seq<Decision>, n: nat)
    requires n < |evictions| && forall k :: 0 <= k < |evictions| ==> evictions[k].Kill?
    ensures var d := evictions[n].cid;
            && (forall c :: Due(t, evictions[..n + 1], c) <==>
                  Due(t, evictions[..n], c) || (c == d && d in t.cids && t.cids[d].evictionRequested))
            && (d in t.cids && t.cids[d].evictionRequested && !Due(t, evictions[..n], d) ==>
                  forall k :: 0 <= k < n ==> evictions[k].cid != d)
  {
    var before, after, d := evictions[..n], evictions[..n + 1], evictions[n].cid;
    assert forall k :: 0 <= k < n ==> before[k] == evictions[k] && after[k] == evictions[k];
    assert after[n] == evictions[n];
    forall c
      ensures Due(t, after, c) <==> Due(t, before, c) || (c == d && d in t.cids && t.cids[d].evictionRequested)
    {
      if Due(t, after, c) {
        var k :| 0 <= k < |after| && after[k].cid == c;
        assert k < n ==> before[k].cid == c;
      }
      if Due(t, before, c) {
        var k :| 0 <= k < |before| && before[k].cid == c;
        assert after[k].cid == c;
      }
    }
    forall k | 0 <= k < n && d in t.cids && t.cids[d].evictionRequested && !Due(t, before, d)
      ensures evictions[k].cid != d
    {
      assert before[k] == evictions[k];
    }
  }

  lemma DueOfAll(t: Tables, evictions: seq<Decision>, n: nat)
    requires n <= |evictions| && forall k :: 0 <= k < |evictions| ==> evictions[k].Kill?
    ensures forall c :: Due(t, evictions[..n], c) ==> Due(t, evictions, c)
  {
    assert forall k :: 0 <= k < n ==> evictions[..n][k] == evictions[k];
  }

  class Handler {
    const sessions: S.SessionStore
    const maxDuration: int
    const handWindow: int
    const cnCrossCheck: bool
    const requiredGroup: string
    const callbackUrl: string
    const authTimeout: int
    const signer: State.Signer
    var cids: map<Cid, CidState>
    var identityToActiveCid: map<Identity, Cid>
    var identityToAttemptCid: map<Identity, Cid>

    function View(): Tables
      reads this
    {
      Tables(cids, identityToActiveCid, identityToAttemptCid)
    }

    constructor (sessions: S.SessionStore, maxDuration: int, handWindow: int, cnCrossCheck: bool, requiredGroup: string,
                 callbackUrl: string, authTimeout: int, signer: State.Signer)
      ensures View() == Empty && this.sessions == sessions && this.maxDuration == maxDuration
      ensures this.handWindow == handWindow && this.cnCrossCheck == cnCrossCheck && this.requiredGroup == requiredGroup
      ensures this.callbackUrl == callbackUrl && this.authTimeout == authTimeout && this.signer == signer
    {
      this.callbackUrl, this.authTimeout, this.signer := callbackUrl, authTimeout, signer;
      this.sessions := sessions;
      this.maxDuration, this.handWindow := maxDuration, handWindow;
      this.cnCrossCheck, this.requiredGroup := cnCrossCheck, requiredGroup;
      cids, identityToActiveCid, identityToAttemptCid := map[], map[], map[];
    }

    /** Counts the in-flight records one by one. */
    method InFlight() returns (count: nat)
      ensures count == |InFlightCids(View())|
      ensures Inv(View()) ==> count == |UnpromotedAttempts(View())|
    {
      count := 0;
      var todo := cids.Keys;
      ghost var counted: set<Cid> := {};
      while todo != {}
        invariant todo <= cids.Keys
        invariant counted == (set c | c in cids && c !in todo && cids[c].inFlight)
        invariant count == |counted|
      {
        var c :| c in todo;
        todo := todo - {c};
        if cids[c].inFlight {
          count := count + 1;
          counted := counted + {c};
        }
      }
      assert counted == InFlightCids(View());
      if Inv(View()) {
        InFlightCountsAttempts(View());
      }
    }

    method Unlink(cid: Cid, identity: Identity)
      modifies this
      ensures View() == old(View()).(active := Ownership.Unlink(old(identityToActiveCid), identity, cid),
                                     attempt := Ownership.Unlink(old(identityToAttemptCid), identity, cid))
    {
      if identity in identityToActiveCid && identityToActiveCid[identity] == cid {
        identityToActiveCid := identityToActiveCid - {identity};
      }
      if identity in identityToAttemptCid && identityToAttemptCid[identity] == cid {
        identityToAttemptCid := identityToAttemptCid - {identity};
      }
    }

    method HandleDisconnect(cid: Cid)
      modifies this, sessions
      ensures View() == Disconnect(old(View()), cid)
      ensures sessions.sessions ==
                if cid in old(cids) && old(cids)[cid].sid != "" then old(sessions.sessions) - {old(cids)[cid].sid}
                else old(sessions.sessions)
    {
      if cid in cids {
        var st := cids[cid];
        cids := cids - {cid};
        Unlink(cid, st.identity);
        if st.sid != "" {
          sessions.Delete(st.sid);
        }
      }
    }

    method PromoteSession(cid: Cid, now: Time)
      modifies this, sessions
      ensures View() == Promote(old(View()), cid, now)
      ensures sessions.sessions ==
                if cid in old(cids) && old(cids)[cid].inFlight && old(cids)[cid].sid != ""
                then old(sessions.sessions) - {old(cids)[cid].sid} else old(sessions.sessions)
    {
      if cid !in cids || !cids[cid].inFlight {
        return;
      }
      var st := cids[cid];
      var sid := st.sid;
      if st.connectAt.None? {
        st := st.(connectAt := Some(now));
      }
      st := st.(inFlight := false);
      st := st.(sid := "");
      st := st.(promoted := true);
      st := st.(deadlineArmed := true);
      cids := cids[cid := st];
      if sid != "" {
        sessions.Delete(sid);
      }
    }

    /** Called once OpenVPN has accepted `client-auth`. */
    method MarkAuthenticated(cid: Cid, username: string, now: Time)
      modifies this, sessions
      ensures View() == Promote(if username == "" then old(View())
          else SetUsername(old(View()), cid, username), cid, now)
      ensures sessions.sessions ==
                if cid in old(cids) && old(cids)[cid].inFlight && old(cids)[cid].sid != ""
                then old(sessions.sessions) - {old(cids)[cid].sid} else old(sessions.sessions)
    {
      if username != "" {
        if cid in cids {
          cids := cids[cid := cids[cid].(username := username)];
        }
      }
      PromoteSession(cid, now);
    }

    method ReplaceExpiryState(cid: Cid, connectedAt: Time)
      modifies this
      ensures View() == SetExpiry(old(View()), cid, connectedAt)
    {
      if cid in cids {
        cids := cids[cid := cids[cid].(expiry := Some(connectedAt))];
      }
    }

    /** Marks a displaced session for eviction and stops its duration timer. */
    method Displace(cid: Cid)
      modifies this`cids
      ensures cids == if cid in old(cids) then old(cids)[cid := old(cids)[cid].(evictionRequested := true,
          expiry := None)]
                      else old(cids)
    {
      if cid in cids {
        cids := cids[cid := cids[cid].(evictionRequested := true)];
        cids := cids[cid := cids[cid].(expiry := None)];
      }
    }

    /** Establishes a CID, displaces the previous owner, and says which CID must be killed. */
    method EstablishCid(cid: Cid, connectedAt: Time, authoritative: bool) returns (kill: Option<Cid>)
      modifies this
      ensures kill == Displaced(old(View()), cid)
      ensures View() == if StartsExpiry(old(View()), cid, authoritative, maxDuration)
                        then SetExpiry(Establish(old(View()), cid), cid, connectedAt)
                        else Establish(old(View()), cid)
    {
      if cid !in cids {
        return None;
      }
      var st := cids[cid];
      var wasPromoted, wasEstablished := st.promoted, st.established;
      cids := cids[cid := st.(promoted := false, established := true, deadlineArmed := false)];
      var i := st.identity;
      if i in identityToAttemptCid && identityToAttemptCid[i] == cid {
        identityToAttemptCid := identityToAttemptCid - {i};
      }
      kill := if i in identityToActiveCid then Some(identityToActiveCid[i]) else None;
      identityToActiveCid := identityToActiveCid[i := cid];
      if kill.Some? && kill.value != cid {
        Displace(kill.value);
      } else {
        kill := None;
      }
      assert View() == Establish(old(View()), cid);
      if maxDuration > 0 && (wasPromoted || authoritative) && !wasEstablished {
        ReplaceExpiryState(cid, connectedAt);
      }
    }

    method CleanupPromoted(cid: Cid)
      modifies this
      ensures View() == Ownership.CleanupPromoted(old(View()), cid)
    {
      if cid !in cids || !cids[cid].promoted {
        return;
      }
      var i := cids[cid].identity;
      cids := cids - {cid};
      if i in identityToAttemptCid && identityToAttemptCid[i] == cid {
        identityToAttemptCid := identityToAttemptCid - {i};
      }
    }

    method ClearInFlight(cid: Cid)
      modifies this
      ensures View() == Ownership.ClearInFlight(old(View()), cid)
    {
      if cid in cids {
        var st := cids[cid].(inFlight := false, sid := "");
        cids := cids[cid := st];
        if !st.promoted && st.identity in identityToAttemptCid && identityToAttemptCid[st.identity] == cid {
          identityToAttemptCid := identityToAttemptCid - {st.identity};
        }
      }
    }

    // ----- CONNECT -----

    /** Whether the store would let a CONNECT supersede the recorded attempt of its identity. */
    ghost predicate Supersedable(identity: Identity)
      reads this, sessions
    {
      && identity in identityToAttemptCid && identityToAttemptCid[identity] in cids
      && S.IsPending(sessions.sessions, cids[identityToAttemptCid[identity]].sid)
    }

    /** The pending session of a CONNECT: its own client, checked by the rules in force, twice the hand window long. */
    function SessionFor(e: ConnectEvent, username: string): S.PendingSession {
      S.PendingSession(e.sid, e.cn, e.cid, e.kid, username, cnCrossCheck, requiredGroup,
                       S.SessionStatus.Pending, e.now, e.now + 2 * handWindow)
    }

    /** The session is the CONNECT's own, under the rules of this handler, and lives for twice the hand window. */
    lemma SessionBelongs(e: ConnectEvent, username: string)
      ensures var x := SessionFor(e, username);
              && D.SessionOf(e, x)
              && x.sessionId == e.sid && x.cid == e.cid && x.kid == e.kid && x.cn == e.cn && x.username == username
              && x.cnCrossCheck == this.cnCrossCheck && x.requiredGroup == this.requiredGroup
              && x.createdAt == e.now && x.expiresAt == x.createdAt + 2 * handWindow
    {
    }

    /** Records a new attempt. */
    method Admit(e: ConnectEvent, session: S.PendingSession)
      requires session.sessionId == e.sid
      modifies this, sessions
      ensures View() == old(View()).(cids := old(cids)[e.cid := NewRecord(e)],
                                     attempt := old(identityToAttemptCid)[e.identity := e.cid])
      ensures sessions.sessions == old(sessions.sessions)[e.sid := session]
    {
      sessions.Put(session);
      cids := cids[e.cid := CidState(true, e.sid, e.cn, e.identity, e.kid, Some(e.now), None, false, false, false,
          false, "")];
      identityToAttemptCid := identityToAttemptCid[e.identity := e.cid];
    }

    /** Establishes a promoted attempt that a status query found established. */
    method EstablishPromoted(identity: Identity, connectedAt: Time) returns (ds: seq<Decision>)
      requires Inv(View()) && identity in identityToAttemptCid && identityToAttemptCid[identity] in cids
      requires cids[identityToAttemptCid[identity]].promoted
          && cids[identityToAttemptCid[identity]].identity == identity
      modifies this
      ensures var t, p := old(View()), old(identityToAttemptCid[identity]);
              && View() == Reconciled(t, p, connectedAt, maxDuration)
              && ds == (if Displaced(t, p).Some? then [Kill(Displaced(t, p).value, "HALT")] else [])
              && identity in View().active && View().active[identity] == p && identity !in View().attempt
      ensures Inv(View())
    {
      ghost var before := View();
      var cid := identityToAttemptCid[identity];
      AttemptRecord(before, identity);
      hide Inv;
      EstablishKeepsInv(before, cid);
      FieldUpdatesKeepInv(Establish(before, cid), cid, connectedAt, "");
      var kill := EstablishCid(cid, connectedAt, true);
      ds := if kill.Some? then [Kill(kill.value, "HALT")] else [];
    }

    /** The decision that sends the client to its own login URL. */
    function PendingFor(e: ConnectEvent): Decision
      requires State.ValidPayload(PayloadFor(e, authTimeout))
    {
      Pending(e.cid, e.kid, UrlFor(e, callbackUrl, authTimeout, signer), Seconds(handWindow))
    }

    /** A CONNECT that meets no attempt is recorded, or turned away when its URL does not fit. */
    ghost predicate Recorded(t: Tables, store: S.Store, e: ConnectEvent, username: string, u: Tables,
        store': S.Store, ds: seq<Decision>)
      requires State.ValidPayload(PayloadFor(e, authTimeout))
    {
      if |PendingFor(e).url| > State.MAX_WEB_AUTH_URL then
        u == t && store' == store && ds == [Deny(e.cid, e.kid, "auth URL too long")]
      else
        u == Connect(t, e, false) && store' == store[e.sid := SessionFor(e, username)] && ds == [PendingFor(e)]
    }

    /** What becomes of a CONNECT that meets the promoted attempt of `p`, by what OpenVPN knows of `p`. */
    ghost predicate Met(t: Tables, store: S.Store, p: Cid, e: ConnectEvent, username: string, status: StatusAnswer,
                        again: Option<Draw>, u: Tables, store': S.Store, ds: seq<Decision>)
      requires again.Some? ==> State.ValidPayload(PayloadFor(Redrawn(e, again.value), authTimeout))
    {
      if status.Absent? then
        var swept := Ownership.CleanupPromoted(t, p);
        if again.None? then u == swept && store' == store && ds == [Deny(e.cid, e.kid, "internal error")]
        else Recorded(swept, store, Redrawn(e, again.value), username, u, store', ds)
      else
        && store' == store
        && ds == Displacement(t, p, status) +
                 [Deny(e.cid, e.kid, "authentication already in progress; retry connection")]
        && u == (if status.Established? then Reconciled(t, p, status.connectedAt, maxDuration) else t)
        && (status.Established? ==> e.identity in u.active && u.active[e.identity] == p && e.identity !in u.attempt)
    }

    /** What becomes of a CONNECT: its URL is too long, or by the attempt that it meets. */
    ghost predicate Handled(t: Tables, store: S.Store, supersedable: bool, e: ConnectEvent, username: string,
                            status: StatusAnswer, again: Option<Draw>, u: Tables, store': S.Store, ds: seq<Decision>)
      requires State.ValidPayload(PayloadFor(e, authTimeout))
      requires again.Some? ==> State.ValidPayload(PayloadFor(Redrawn(e, again.value), authTimeout))
    {
      if |PendingFor(e).url| > State.MAX_WEB_AUTH_URL then
        u == t && store' == store && ds == [Deny(e.cid, e.kid, "auth URL too long")]
      else
        var c := Classify(t, e, supersedable);
        match c
        case DuplicateConnect => u == t && store' == store && ds == []
        case ProcessingAttempt =>
          && u == t && store' == store
          && ds == [Deny(e.cid, e.kid, "authentication already in progress; retry connection")]
        case PromotedAttempt(p) => Met(t, store, p, e, username, status, again, u, store', ds)
        case PendingAttempt(oldCid, oldSid, oldKid) =>
          && u == Connect(t, e, true)
          && store' == S.SetStatus(store, oldSid, S.Failed)[e.sid := SessionFor(e, username)]
          && ds == [Deny(oldCid, oldKid, "replaced by new connection"), PendingFor(e)]
        case _ => c == NoAttempt && Recorded(t, store, e, username, u, store', ds)
    }

    /**
     Handling a CONNECT with a valid name, with the answer that a status query would give; `again` is what the
     retry would draw. `ds` are the decisions sent, in order. The retry after an absent promoted attempt is the
     recursive call; it terminates because the retry finds no attempt.
     */
    method HandleNamedConnect(e: ConnectEvent, username: string, status: StatusAnswer, again: Option<Draw>)
      returns (ds: seq<Decision>)
      requires Inv(View())
      requires e.cid !in cids || (e.identity in identityToAttemptCid && identityToAttemptCid[e.identity] == e.cid)
      requires State.ValidPayload(PayloadFor(e, authTimeout))
      requires again.Some? ==> State.ValidPayload(PayloadFor(Redrawn(e, again.value), authTimeout))
      modifies this, sessions
      ensures Inv(View())
      ensures Handled(old(View()), old(sessions.sessions), old(Supersedable(e.identity)), e, username, status, again,
                      View(), sessions.sessions, ds)
      decreases e.identity in identityToAttemptCid, 1
    {
      hide Inv, UrlFor, State.ValidPayload, PayloadFor, Met;
      if |UrlFor(e, callbackUrl, authTimeout, signer)| > State.MAX_WEB_AUTH_URL {
        return [Deny(e.cid, e.kid, "auth URL too long")];
      }
      ghost var before := View();
      ghost var supersedable := Supersedable(e.identity);
      ConflictBranchesUnreachable(before, e, supersedable);
      ConnectKeepsInv(before, e, supersedable);
      ds := [];
      if e.identity in identityToAttemptCid {
        AttemptRecord(before, e.identity);
        var existingCid := identityToAttemptCid[e.identity];
        if existingCid == e.cid {
          return;
        }
        var existing := cids[existingCid];
        if existing.promoted {
          ds := MeetPromoted(e, username, status, again);
          return;
        }
        var won := sessions.SupersedePending(existing.sid);
        if won.Err? {
          ds := [Deny(e.cid, e.kid, "authentication already in progress; retry connection")];
          return;
        }
        cids := cids[existingCid := existing.(inFlight := false, sid := "")];
        ds := [Deny(existingCid, existing.kid, "replaced by new connection")];
      }
      Admit(e, SessionFor(e, username));
      ds := ds + [PendingFor(e)];
    }

    /**
     A CONNECT that meets a promoted attempt: retried when OpenVPN no longer knows the attempt, denied otherwise.
     */
    method MeetPromoted(e: ConnectEvent, username: string, status: StatusAnswer, again: Option<Draw>)
      returns (ds: seq<Decision>)
      requires Inv(View()) && e.cid !in cids && e.identity in identityToAttemptCid
      requires identityToAttemptCid[e.identity] in cids && cids[identityToAttemptCid[e.identity]].promoted
      requires cids[identityToAttemptCid[e.identity]].identity == e.identity
      requires again.Some? ==> State.ValidPayload(PayloadFor(Redrawn(e, again.value), authTimeout))
      modifies this, sessions
      ensures Inv(View())
      ensures Met(old(View()), old(sessions.sessions), old(identityToAttemptCid[e.identity]), e, username, status,
          again,
                  View(), sessions.sessions, ds)
      decreases e.identity in identityToAttemptCid, 0
    {
      hide Inv, UrlFor, State.ValidPayload, PayloadFor;
      var existingCid := identityToAttemptCid[e.identity];
      ds := [];
      if status.Absent? {
        RemovalsKeepInv(View(), existingCid);
        CleanupPromoted(existingCid);
        if again.None? {
          return [Deny(e.cid, e.kid, "internal error")];
        }
        ds := HandleNamedConnect(Redrawn(e, again.value), username, status, again);
        return;
      }
      if status.Established? {
        ds := EstablishPromoted(e.identity, status.connectedAt);
      }
      ds := ds + [Deny(e.cid, e.kid, "authentication already in progress; retry connection")];
    }

    /**
     The whole of handling a CONNECT: a client without web login, without a name or with an invalid one is turned
     away, and so is one for which no session ID can be drawn; nothing else changes then.
     */
    method HandleConnect(request: ConnectRequest, draw: Option<Draw>, status: StatusAnswer, again: Option<Draw>)
      returns (ds: seq<Decision>)
      requires Inv(View()) && Drawable(request, draw, authTimeout) && Drawable(request, again, authTimeout)
      requires request.cid in cids && Refusal(request).None? ==>
                 var i := NormalizeIdentity(request.cn).value;
                 i in identityToAttemptCid && identityToAttemptCid[i] == request.cid
      modifies this, sessions
      ensures Inv(View())
      ensures var reason := if Refusal(request).Some? then Refusal(request)
                            else if draw.None? then Some("internal error") else None;
              if reason.Some? then
                && View() == old(View()) && sessions.sessions == old(sessions.sessions)
                && ds == [Deny(request.cid, request.kid, reason.value)]
              else
                var e := EventOf(request, draw.value);
                Handled(old(View()), old(sessions.sessions), old(Supersedable(e.identity)), e, request.username, status,
                        again, View(), sessions.sessions, ds)
    {
      hide Inv, Handled, State.ValidPayload, PayloadFor;
      var sso := ToLower(request.sso);
      if !Contains(sso, "webauth") && !Contains(sso, "openurl") {
        return [Deny(request.cid, request.kid, "client does not support WebAuth")];
      }
      if request.cn == "" {
        return [Deny(request.cid, request.kid, "missing common name")];
      }
      var identity := NormalizeIdentity(request.cn);
      if identity.None? {
        return [Deny(request.cid, request.kid, "invalid identity")];
      }
      if draw.None? {
        return [Deny(request.cid, request.kid, "internal error")];
      }
      ds := HandleNamedConnect(EventOf(request, draw.value), request.username, status, again);
    }

    // ----- reconnect bootstrap -----

    /** Drops the records that the snapshot does not list, with their sessions, as a disconnect would. */
    method SweepAbsent(present: set<Cid>)
      modifies this, sessions
      ensures View() == R.Sweep(old(View()), present)
      ensures sessions.sessions == old(sessions.sessions) - DroppedSids(old(View()), present)
    {
      ghost var t := View();
      var todo := cids.Keys;
      assert present + todo >= t.cids.Keys;
      R.SweepAgain(t, present + todo);
      while todo != {}
        invariant todo <= t.cids.Keys
        invariant View() == R.Sweep(t, present + todo)
        invariant sessions.sessions == old(sessions.sessions) - DroppedSids(t, present + todo)
      {
        var cid :| cid in todo;
        ghost var kept := present + todo;
        todo := todo - {cid};
        if cid !in present {
          assert present + todo == kept - {cid};
          SweepStep(t, kept, cid);
          HandleDisconnect(cid);
        } else {
          assert present + todo == kept;
        }
      }
      assert present + todo == present;
    }

    /** Adopts the established rows one by one, electing one owner per identity. */
    method AdoptRows(rows: seq<EstablishedSession>) returns (evictions: seq<Cid>)
      requires DistinctSessions(rows)
      modifies this
      ensures View() == R.Merge(old(View()), R.Adoptions(rows), R.Owners(rows))
      ensures evictions == E.Elect(rows).evictions
    {
      ghost var s := View();
      var winners: map<Identity, EstablishedSession> := map[];
      evictions := [];
      assert R.Merge(s, map[], map[]).cids == s.cids && R.Merge(s, map[], map[]).attempt == s.attempt;
      for k := 0 to |rows|
        invariant E.Outcome(winners, evictions) == E.Elect(rows[..k])
        invariant cids == R.Merge(s, R.Adoptions(rows[..k]), map[]).cids
        invariant identityToAttemptCid == R.Merge(s, R.Adoptions(rows[..k]), map[]).attempt
        invariant identityToActiveCid == s.active
      {
        winners, evictions := AdoptRow(s, rows, k, winners, evictions);
      }
      assert rows[..|rows|] == rows;
      identityToActiveCid := identityToActiveCid + map i | i in winners :: winners[i].cid;
    }

    /** Adopts one established row as if it had won. */
    method AdoptRecord(session: EstablishedSession, identity: Identity)
      modifies this`cids, this`identityToAttemptCid
      ensures cids == old(cids)[session.cid := R.Adopt(old(cids), session.cid, R.Adoption(session.cn, identity, false))]
      ensures identityToAttemptCid == Ownership.Unlink(old(identityToAttemptCid), identity, session.cid)
    {
      var st := if session.cid in cids then cids[session.cid] else Fresh;
      cids := cids[session.cid := st.(cn := session.cn, identity := identity, promoted := false, established := true)];
      if identity in identityToAttemptCid && identityToAttemptCid[identity] == session.cid {
        identityToAttemptCid := identityToAttemptCid - {identity};
      }
    }

    method AdoptRow(ghost s: Tables, rows: seq<EstablishedSession>, k: nat,
                    winners: map<Identity, EstablishedSession>, evictions: seq<Cid>)
      returns (winners': map<Identity, EstablishedSession>, evictions': seq<Cid>)
      requires k < |rows| && DistinctSessions(rows)
      requires E.Outcome(winners, evictions) == E.Elect(rows[..k])
      requires cids == R.Merge(s, R.Adoptions(rows[..k]), map[]).cids
      requires identityToAttemptCid == R.Merge(s, R.Adoptions(rows[..k]), map[]).attempt
      modifies this`cids, this`identityToAttemptCid
      ensures E.Outcome(winners', evictions') == E.Elect(rows[..k + 1])
      ensures cids == R.Merge(s, R.Adoptions(rows[..k + 1]), map[]).cids
      ensures identityToAttemptCid == R.Merge(s, R.Adoptions(rows[..k + 1]), map[]).attempt
    {
      hide E.Valid, E.Identity, E.Newer, E.Elect, R.Merge, R.Adoptions, R.ByCid, R.Adopt, Ownership.Unlink;
      winners', evictions' := winners, evictions;
      var session := rows[k];
      assert rows[..k + 1] == rows[..k] + [session];
      R.MergeRow(s, rows[..k], session);
      R.NextBallot(rows[..k], session);
      if !E.Valid(session) {
        return;
      }
      hide DistinctSessions;
      var identity := E.Identity(session);
      ghost var was := cids;
      R.AdoptLoser(was, session.cid, R.Adoption(session.cn, identity, false));
      AdoptRecord(session, identity);
      if identity !in winners || E.Newer(session, winners[identity]) {
        if identity in winners {
          var w := winners[identity];
          if w.cid in cids {
            cids := cids[w.cid := cids[w.cid].(evictionRequested := true)];
          }
          evictions' := evictions' + [w.cid];
        }
        winners' := winners'[identity := session];
      } else {
        ghost var st := cids[session.cid].(evictionRequested := true);
        assert was[session.cid := cids[session.cid]][session.cid := st] == was[session.cid := st];
        cids := cids[session.cid := cids[session.cid].(evictionRequested := true)];
        evictions' := evictions' + [session.cid];
      }
    }

    /** Anchors the duration timers to the snapshot and marks the sessions already past their time. */
    method AnchorRows(rows: seq<EstablishedSession>, now: Time) returns (expired: seq<Cid>)
      modifies this
      ensures View() == R.AnchorAll(old(View()), rows, now, maxDuration)
      ensures expired == R.ExpiredCids(rows, now, maxDuration)
    {
      expired := [];
      for k := 0 to |rows|
        invariant View() == R.AnchorAll(old(View()), rows[..k], now, maxDuration)
        invariant expired == R.ExpiredCids(rows[..k], now, maxDuration)
      {
        assert rows[..k + 1][..k] == rows[..k];
        var session := rows[k];
        if maxDuration > 0 {
          ReplaceExpiryState(session.cid, session.connectedAt);
          if now - session.connectedAt >= maxDuration {
            if session.cid in cids {
              cids := cids[session.cid := cids[session.cid].(evictionRequested := true)];
            }
            expired := expired + [session.cid];
          }
        }
      }
      assert rows[..|rows|] == rows;
    }

    method RebuildSessionTrackingFromSnapshot(snap: StatusSnapshot, now: Time) returns (evictions: seq<Decision>)
      requires DistinctSessions(snap.established)
      modifies this, sessions
      ensures View() == R.Rebuild(old(View()), snap, now, maxDuration)
      ensures forall r :: r in snap.established ==>
                multiset(evictions)[Kill(r.cid, "HALT")] ==
                  (if E.Valid(r) && !E.Wins(E.Elect(snap.established), r) then 1 else 0) +
                  (if maxDuration > 0 && now - r.connectedAt >= maxDuration then 1 else 0)
      ensures evictions ==
                Kills(E.Elect(snap.established).evictions + R.ExpiredCids(snap.established, now, maxDuration))
      ensures sessions.sessions == old(sessions.sessions) - DroppedSids(old(View()), R.Present(snap.clients))
    {
      SweepAbsent(R.Present(snap.clients));
      var losers := AdoptRows(snap.established);
      var expired := AnchorRows(snap.established, now);
      evictions := Kills(losers + expired);
      hide E.Elect, R.ExpiredCids, Kills, E.Wins, E.Valid;
      forall r | r in snap.established
        ensures multiset(evictions)[Kill(r.cid, "HALT")] ==
                  (if E.Valid(r) && !E.Wins(E.Elect(snap.established), r) then 1 else 0) +
                  (if maxDuration > 0 && now - r.connectedAt >= maxDuration then 1 else 0)
      {
        RowKilled(snap.established, now, maxDuration, r);
      }
    }

    /** What the answer to a kill leads to: only a client that is gone is dropped; a failed query ends it all. */
    method Evict(cid: Cid, answer: KillAnswer) returns (ok: bool)
      modifies this, sessions
      ensures ok <==> !answer.RefusedUnknown?
      ensures cids == if answer.RefusedAbsent? then old(cids) - {cid} else old(cids)
      ensures !answer.RefusedAbsent? ==> View() == old(View()) && sessions.sessions == old(sessions.sessions)
      ensures old(Inv(View())) ==> Inv(View())
    {
      hide Inv;
      if answer.RefusedUnknown? {
        return false;
      }
      if answer.RefusedAbsent? {
        if Inv(View()) {
          RemovalsKeepInv(View(), cid);
        }
        HandleDisconnect(cid);
      }
      ok := true;
    }

    /**
     The bootstrap loop after replay: each eviction still due is killed once. `answers[k]` is what the
     k-th kill would meet; a status query that fails ends the connection, and the loop.
     */
    method SendEvictions(evictions: seq<Decision>, answers: seq<KillAnswer>) returns (sent: seq<Cid>, ok: bool)
      requires |answers| == |evictions| && forall k :: 0 <= k < |evictions| ==> evictions[k].Kill?
      modifies this, sessions
      ensures forall j, k :: 0 <= j < k < |sent| ==> sent[j] != sent[k]
      ensures forall c :: c in sent ==> Due(old(View()), evictions, c)
      ensures ok ==> forall c :: Due(old(View()), evictions, c) ==> c in sent
      ensures forall c :: c in old(cids) && c !in sent ==> c in cids && cids[c] == old(cids)[c]
      ensures forall c :: c in sent ==> (c !in cids <==> FirstAnswer(evictions, answers, c).RefusedAbsent?)
      ensures forall c :: c in cids ==> c in old(cids) && cids[c] == old(cids)[c]
      ensures ok <==> forall c :: c in sent ==> !FirstAnswer(evictions, answers, c).RefusedUnknown?
      ensures old(Inv(View())) ==> Inv(View())
    {
      hide Inv, Due, FirstAnswer;
      NothingDue(View());
      sent, ok := [], true;
      for n := 0 to |evictions|
        invariant forall j, k :: 0 <= j < k < |sent| ==> sent[j] != sent[k]
        invariant forall c :: c in sent <==> Due(old(View()), evictions[..n], c)
        invariant forall c :: c in cids ==> c in old(cids) && cids[c] == old(cids)[c]
        invariant forall c :: c in old(cids) && c !in sent ==> c in cids
        invariant forall c :: c in sent ==>
                    && (c !in cids <==> FirstAnswer(evictions, answers, c).RefusedAbsent?)
                    && !FirstAnswer(evictions, answers, c).RefusedUnknown?
        invariant old(Inv(View())) ==> Inv(View())
      {
        var cid := evictions[n].cid;
        DueOneMore(old(View()), evictions, n);
        var needed := ReconciledEvictionNeeded(cid);
        if cid !in sent && needed {
          FirstAnswerAt(evictions, answers, n);
          sent := sent + [cid];
          ok := Evict(cid, answers[n]);
          if !ok {
            DueOfAll(old(View()), evictions, n + 1);
            return;
          }
        }
      }
      assert evictions[..|evictions|] == evictions;
    }

    /** Whether a snapshot-derived eviction is still due. */
    method ReconciledEvictionNeeded(cid: Cid) returns (needed: bool)
      ensures needed <==> cid in cids && cids[cid].evictionRequested
    {
      needed := cid in cids && cids[cid].evictionRequested;
    }
  }
}
