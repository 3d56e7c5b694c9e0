/** The store of pending authentication sessions. Each method is one section under its mutex. */
module Sessions {
  import opened Basics

  type Sid = string
  type Time = int

  datatype SessionStatus = Pending | Processing | Done | Failed

  datatype PendingSession = PendingSession(
    sessionId: Sid,
    cn: string,
    cid: string,
    kid: string,
    username: string,
    cnCrossCheck: bool,
    requiredGroup: string,
    status: SessionStatus,
    createdAt: Time,
    expiresAt: Time)

  datatype StoreError = SessionNotFound | SessionNotPending

  type Store = map<Sid, PendingSession>

  predicate IsPending(store: Store, sid: Sid) {
    sid in store && store[sid].status == Pending
  }

  function SetStatus(store: Store, sid: Sid, status: SessionStatus): Store {
    if sid in store then store[sid := store[sid].(status := status)] else store
  }

  function Refusal(store: Store, sid: Sid): StoreError {
    if sid in store then SessionNotPending else SessionNotFound
  }

  /** What the reaper keeps: sessions whose expiry has not passed. */
  function Unexpired(store: Store, now: Time): Store {
    map sid | sid in store && now <= store[sid].expiresAt :: store[sid]
  }

  class SessionStore {
    var sessions: Store

    constructor ()
      ensures sessions == map[]
    {
      sessions := map[];
    }

    method Put(session: PendingSession)
      modifies this
      ensures sessions == old(sessions)[session.sessionId := session]
    {
      sessions := sessions[session.sessionId := session];
    }

    /** PENDING to PROCESSING, for one caller only. */
    method TryProcess(sid: Sid) returns (r: Result<PendingSession, StoreError>)
      modifies this
      ensures old(IsPending(sessions, sid)) ==>
                sessions == SetStatus(old(sessions), sid, Processing) && r == Ok(sessions[sid])
      ensures !old(IsPending(sessions, sid)) ==>
                sessions == old(sessions) && r == Err(Refusal(sessions, sid))
    {
      if sid !in sessions {
        return Err(SessionNotFound);
      }
      if sessions[sid].status != Pending {
        return Err(SessionNotPending);
      }
      sessions := sessions[sid := sessions[sid].(status := Processing)];
      r := Ok(sessions[sid]);
    }

    /** PENDING to FAILED; it races with TryProcess. */
    method SupersedePending(sid: Sid) returns (r: Result<PendingSession, StoreError>)
      modifies this
      ensures old(IsPending(sessions, sid)) ==>
                sessions == SetStatus(old(sessions), sid, Failed) && r == Ok(sessions[sid])
      ensures !old(IsPending(sessions, sid)) ==>
                sessions == old(sessions) && r == Err(Refusal(sessions, sid))
    {
      if sid !in sessions {
        return Err(SessionNotFound);
      }
      if sessions[sid].status != Pending {
        return Err(SessionNotPending);
      }
      sessions := sessions[sid := sessions[sid].(status := Failed)];
      r := Ok(sessions[sid]);
    }

    /** MarkDone, MarkFailed and MarkPending. */
    method Mark(sid: Sid, status: SessionStatus)
      modifies this
      ensures sessions == SetStatus(old(sessions), sid, status)
      ensures sessions.Keys == old(sessions).Keys
      ensures forall k :: k in sessions ==>
                sessions[k] == if k == sid then old(sessions)[k].(status := status) else old(sessions)[k]
    {
      if sid in sessions {
        sessions := sessions[sid := sessions[sid].(status := status)];
      }
    }

    method Delete(sid: Sid)
      modifies this
      ensures sessions == old(sessions) - {sid}
    {
      sessions := sessions - {sid};
    }

    /** Removes exactly the sessions whose expiry has passed. */
    method Reap(now: Time)
      modifies this
      ensures sessions == Unexpired(old(sessions), now)
      ensures forall sid :: sid in sessions <==> sid in old(sessions) && now <= old(sessions)[sid].expiresAt
      ensures forall sid :: sid in sessions ==> sessions[sid] == old(sessions)[sid]
    {
      var todo := sessions.Keys;
      while todo != {}
        invariant todo <= old(sessions).Keys
        invariant forall sid :: sid in sessions <==>
                    sid in old(sessions) && (sid in todo || now <= old(sessions)[sid].expiresAt)
        invariant forall sid :: sid in sessions ==> sessions[sid] == old(sessions)[sid]
      {
        var sid :| sid in todo;
        todo := todo - {sid};
        if now > sessions[sid].expiresAt {
          sessions := sessions - {sid};
        }
      }
    }
  }
}
