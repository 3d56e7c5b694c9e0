/** The callback handler and the authentication timeout, each run from start to end on the session store. */
module CallbackServer {
  import opened Basics
  import opened Commands
  import S = Sessions
  import State = StateBlob
  import C = Callback

  /** What a request leads to, before anything is sent. */
  datatype Course = BadState | NotPending | Judged(sess: S.PendingSession, outcome: C.Outcome)

  function CourseOf(store: S.Store, req: C.Request, signer: State.Signer, now: S.Time): Course {
    var p := State.DecodeState(State.TrimState(req.rawState), signer, now);
    if p.Err? then BadState
    else if !S.IsPending(store, p.value.sid) then NotPending
    else Judged(store[p.value.sid], C.Evaluate(store[p.value.sid], req))
  }

  /**
   `handleCallback`. `ack` says whether sending the allow decision returned nil. A retryable failure
   leaves the store exactly as it was; every other judgement ends the session.
   */
  method HandleCallback(sessions: S.SessionStore, req: C.Request, signer: State.Signer, now: S.Time, ack: bool)
    returns (ds: seq<Decision>, authenticated: bool)
    requires forall sid :: sid in sessions.sessions ==> sessions.sessions[sid].sessionId == sid
    modifies sessions
    ensures var store := old(sessions.sessions);
            match CourseOf(store, req, signer, now)
            case BadState => sessions.sessions == store && ds == [] && !authenticated
            case NotPending => sessions.sessions == store && ds == [] && !authenticated
            case Judged(sess, Retry) => sessions.sessions == store && ds == [] && !authenticated
            case Judged(sess, Reject(reason)) =>
              && sessions.sessions == S.SetStatus(store, sess.sessionId, S.Failed)
              && ds == [Deny(sess.cid, sess.kid, reason)] && !authenticated
            case Judged(sess, Pass) =>
              && sessions.sessions == S.SetStatus(store, sess.sessionId, if ack then S.Done else S.Failed)
              && ds == [Allow(sess.cid, sess.kid)] && authenticated == ack
    ensures req.token.KeyUnavailable? ==> sessions.sessions == old(sessions.sessions) && ds == [] && !authenticated
    ensures CourseOf(old(sessions.sessions), req, signer, now).Judged? && !req.token.KeyUnavailable? ==>
              |ds| == 1 && sessions.sessions != old(sessions.sessions)
    ensures CourseOf(old(sessions.sessions), req, signer, now).Judged? && !req.token.Claims? ==> ds == [] || ds[0].Deny?
  {
    hide C.Evaluate, State.DecodeState, State.TrimState;
    ds, authenticated := [], false;
    var payload := State.DecodeState(State.TrimState(req.rawState), signer, now);
    if payload.Err? {
      return;
    }
    var won := sessions.TryProcess(payload.value.sid);
    if won.Err? {
      return;
    }
    var sess := won.value;
    JudgedBySession(sess, req);
    C.RetryExactly(sess, req);
    match C.Evaluate(sess, req)
    case Retry =>
      sessions.Mark(sess.sessionId, S.SessionStatus.Pending);
    case Reject(reason) =>
      sessions.Mark(sess.sessionId, S.Failed);
      ds := [Deny(sess.cid, sess.kid, reason)];
    case Pass =>
      ds := [Allow(sess.cid, sess.kid)];
      if !ack {
        sessions.Mark(sess.sessionId, S.Failed);
        return;
      }
      authenticated := true;
      sessions.Mark(sess.sessionId, S.Done);
  }

  /** The checks do not look at the status. */
  lemma JudgedBySession(sess: S.PendingSession, req: C.Request)
    ensures forall status :: C.Evaluate(sess.(status := status), req) == C.Evaluate(sess, req)
  {
  }

  /** The timer branch of `authTimeout`: only a session still pending is failed and denied. */
  method TimeOut(sessions: S.SessionStore, sess: S.PendingSession) returns (ds: seq<Decision>)
    modifies sessions
    ensures old(S.IsPending(sessions.sessions, sess.sessionId)) ==>
              && sessions.sessions == S.SetStatus(old(sessions.sessions), sess.sessionId, S.Failed)
              && ds == [Deny(sess.cid, sess.kid, "auth timeout")]
    ensures !old(S.IsPending(sessions.sessions, sess.sessionId)) ==>
        sessions.sessions == old(sessions.sessions) && ds == []
  {
    var won := sessions.TryProcess(sess.sessionId);
    if won.Err? {
      return [];
    }
    sessions.Mark(sess.sessionId, S.Failed);
    ds := [Deny(sess.cid, sess.kid, "auth timeout")];
  }
}
