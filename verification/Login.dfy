/** A login from end to end: the CONNECT, the URL that the client opens, and the callback that it leads to. */
module Login {
  import opened Basics
  import opened Text
  import opened Commands
  import O = Ownership
  import S = Sessions
  import State = StateBlob
  import Timing
  import C = Callback
  import V = CallbackServer
  import H = HandlerClass

  /** The state that the browser brings back, as it was or with what terminals append. */
  predicate Brings(raw: string, state: string) {
    raw == state || raw == state + "'" || raw == state + "%27" || raw == state + "'%27"
  }

  lemma BlobHasNoAmpersand(p: State.StatePayload, signer: State.Signer)
    requires State.ValidPayload(p) && State.MacShape(signer)
    ensures '&' !in State.EncodeState(p, signer)
  {
    State.MarshalAscii(p);
    hide State.Marshal;
  }

  /** The `state` parameter of the login URL decodes, until its second is over, to the session of the CONNECT. */
  lemma UrlNamesSession(h: H.Handler, e: O.ConnectEvent, raw: string, now: S.Time)
    requires State.ValidPayload(H.PayloadFor(e, h.authTimeout))
    requires State.MacShape(h.signer) && State.NoOwnState(h.callbackUrl)
    requires State.QueryValue(h.PendingFor(e).url, "state").Some? ==>
               Brings(raw, State.QueryValue(h.PendingFor(e).url, "state").value)
    ensures State.QueryValue(h.PendingFor(e).url, "state").Some?
    ensures var p := State.DecodeState(State.TrimState(raw), h.signer, Timing.Unix(now));
            if now / 1_000_000_000 <= (e.now + h.authTimeout) / 1_000_000_000
            then p.Ok? && p.value.sid == e.sid && p.value.iat == e.now / 1_000_000_000
            else p.Err?
  {
    hide State.EncodeState, State.DecodeState, State.TrimState, State.AuthUrl, State.QueryValue, State.MacShape;
    var p := H.PayloadFor(e, h.authTimeout);
    BlobHasNoAmpersand(p, h.signer);
    State.UrlCarriesState(h.callbackUrl, State.EncodeState(p, h.signer));
    State.TrimStateRestores(p, h.signer);
    State.DecodeEncodeState(p, h.signer, Timing.Unix(now));
  }

  /** What it takes to pass, by the rules of the handler that took the CONNECT. */
  ghost predicate MayPass(h: H.Handler, e: O.ConnectEvent, req: C.Request) {
    && req.token.Claims?
    && (h.cnCrossCheck && e.cn != "" ==>
          NormalizeIdentity(req.token.email).Some? && NormalizeIdentity(req.token.email) == NormalizeIdentity(e.cn))
    && (h.requiredGroup != "" ==>
          match req.membership
          case FromToken => h.requiredGroup in req.token.groups
          case Looked(enabled, inGroup) => enabled && inGroup
          case _ => false)
  }

  /**
   A browser that follows the URL of a CONNECT in time, while its session is pending, is judged as that session:
   let in exactly when the names and the group fit the handler's rules, and then it is the client and the key of
   the CONNECT that are named. A refusal names them too.
   */
  lemma LoginDecidesConnect(
    h: H.Handler, e: O.ConnectEvent, username: string, store: S.Store, req: C.Request, now: S.Time)
    requires State.ValidPayload(H.PayloadFor(e, h.authTimeout))
    requires State.MacShape(h.signer) && State.NoOwnState(h.callbackUrl)
    requires State.QueryValue(h.PendingFor(e).url, "state").Some? ==>
               Brings(req.rawState, State.QueryValue(h.PendingFor(e).url, "state").value)
    requires e.sid in store && store[e.sid] == h.SessionFor(e, username)
    requires now / 1_000_000_000 <= (e.now + h.authTimeout) / 1_000_000_000
    ensures var c := V.CourseOf(store, req, h.signer, Timing.Unix(now));
            && c.Judged? && c.sess.cid == e.cid && c.sess.kid == e.kid && c.sess.sessionId == e.sid
            && (c.outcome.Pass? <==> MayPass(h, e, req))
            && (c.outcome.Retry? <==> req.token.KeyUnavailable?)
  {
    hide State.EncodeState, State.DecodeState, State.TrimState, State.AuthUrl, State.QueryValue, State.MacShape,
         C.Evaluate, NormalizeIdentity;
    UrlNamesSession(h, e, req.rawState, now);
    h.SessionBelongs(e, username);
    C.PassExactly(store[e.sid], req);
    C.OutcomeExactly(store[e.sid], req);
  }

  /** The client is asked to wait for the hand window, in whole seconds. */
  lemma PendingNamesClient(h: H.Handler, e: O.ConnectEvent)
    requires State.ValidPayload(H.PayloadFor(e, h.authTimeout)) && h.handWindow >= 0
    ensures var d := h.PendingFor(e);
            && d.Pending? && d.cid == e.cid && d.kid == e.kid
            && d.timeout * 1_000_000_000 <= h.handWindow < (d.timeout + 1) * 1_000_000_000
  {
    hide H.UrlFor;
  }

  /** Nor does the reaper come first: until its state expires, the session of a CONNECT is kept. */
  lemma SessionOutlivesState(h: H.Handler, e: O.ConnectEvent, username: string, store: S.Store, now: S.Time)
    requires e.sid in store && store[e.sid] == h.SessionFor(e, username) && e.now >= 0
    requires Timing.ValidTiming(h.authTimeout, h.handWindow) && h.handWindow >= 1_000_000_000
    requires now / 1_000_000_000 <= (e.now + h.authTimeout) / 1_000_000_000
    ensures e.sid in S.Unexpired(store, now) && S.Unexpired(store, now)[e.sid] == h.SessionFor(e, username)
  {
    h.SessionBelongs(e, username);
    Timing.ReapKeepsDecodable(store, e.sid, now, h.authTimeout, h.handWindow);
  }
}
