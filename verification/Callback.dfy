/**
 The race for a pending session: browser callbacks, the authentication timeout, supersession by a
 newer CONNECT and retryable failures, in every interleaving, together with the command brokers that
 carry the allow decision over one connection after another.
 */
module Callback {
  import opened Basics
  import opened Text
  import opened Commands
  import opened Sessions
  import B = Broker
  import K = Connections
  import State = StateBlob

  // ----- the checks of one callback request -----

  /** What the token of a request turns out to be. */
  datatype Token =
    | NoToken
    | BadTokenHeader
    | KeyUnavailable                    // the signing key could not be fetched
    | BadToken                          // signature or claims refused
    | BadClaims                         // claims unreadable, when signatures are not checked
    | Claims(email: string, groups: seq<string>, groupsPresent: bool)

  /** Where group membership is looked up, and what the lookup says. */
  datatype Membership = FromToken | NoChecker | LookupFails | Looked(enabled: bool, inGroup: bool)

  datatype Request = Request(rawState: string, token: Token, membership: Membership)

  datatype Outcome = Retry | Reject(reason: string) | Pass

  function CheckGroup(sess: PendingSession, token: Token, m: Membership): Outcome
    requires token.Claims?
  {
    match m
    case FromToken =>
      if sess.requiredGroup in token.groups then Pass
      else Reject(if token.groupsPresent then "not in required group" else "group claim not present")
    case NoChecker => Reject("group check error")
    case LookupFails => Reject("group check error")
    case Looked(enabled, inGroup) =>
      if !enabled then Reject("group check error") else if inGroup then Pass else Reject("not in required group")
  }

  function Evaluate(sess: PendingSession, r: Request): Outcome {
    match r.token
    case NoToken => Reject("missing oidc header")
    case BadTokenHeader => Reject("invalid jwt header")
    case KeyUnavailable => Retry
    case BadToken => Reject("jwt validation failed")
    case BadClaims => Reject("invalid jwt claims")
    case Claims(email, _, _) =>
      var e, c := NormalizeIdentity(email), NormalizeIdentity(sess.cn);
      var crossCheck := sess.cnCrossCheck && sess.cn != "";
      if crossCheck && (e.None? || c.None?) then Reject("invalid identity")
      else if crossCheck && e != c then Reject("cn mismatch")
      else if sess.requiredGroup != "" then CheckGroup(sess, r.token, r.membership)
      else Pass
  }

  predicate Member(sess: PendingSession, r: Request) {
    match r.membership
    case FromToken => r.token.Claims? && sess.requiredGroup in r.token.groups
    case Looked(enabled, inGroup) => enabled && inGroup
    case _ => false
  }

  /** A request passes exactly when its token is good, the names match where they must, and the group does. */
  lemma PassExactly(sess: PendingSession, r: Request)
    ensures Evaluate(sess, r).Pass? <==>
              && r.token.Claims?
              && (sess.cnCrossCheck && sess.cn != "" ==>
                    NormalizeIdentity(r.token.email).Some?
                        && NormalizeIdentity(r.token.email) == NormalizeIdentity(sess.cn))
              && (sess.requiredGroup != "" ==> Member(sess, r))
  {
  }

  /** The names fit, or need not. */
  predicate NamesFit(sess: PendingSession, r: Request) {
    r.token.Claims? &&
    (sess.cnCrossCheck && sess.cn != "" ==>
       NormalizeIdentity(r.token.email).Some? && NormalizeIdentity(r.token.email) == NormalizeIdentity(sess.cn))
  }

  /**
   The outcome of every request, by its token, its names and its membership alone: only a signing key that could
   not be fetched is retried, and every other failure has its own reason.
   */
  lemma OutcomeExactly(sess: PendingSession, r: Request)
    ensures Evaluate(sess, r) == Retry <==> r.token.KeyUnavailable?
    ensures Evaluate(sess, r) == Reject("missing oidc header") <==> r.token.NoToken?
    ensures Evaluate(sess, r) == Reject("invalid jwt header") <==> r.token.BadTokenHeader?
    ensures Evaluate(sess, r) == Reject("jwt validation failed") <==> r.token.BadToken?
    ensures Evaluate(sess, r) == Reject("invalid jwt claims") <==> r.token.BadClaims?
    ensures Evaluate(sess, r) == Reject("invalid identity") <==>
              && r.token.Claims? && sess.cnCrossCheck && sess.cn != ""
              && (NormalizeIdentity(r.token.email).None? || NormalizeIdentity(sess.cn).None?)
    ensures Evaluate(sess, r) == Reject("cn mismatch") <==>
              && r.token.Claims? && sess.cnCrossCheck && sess.cn != ""
              && NormalizeIdentity(r.token.email).Some? && NormalizeIdentity(sess.cn).Some?
              && NormalizeIdentity(r.token.email) != NormalizeIdentity(sess.cn)
    ensures Evaluate(sess, r) == Reject("group check error") <==>
              && NamesFit(sess, r) && sess.requiredGroup != ""
              && (r.membership.NoChecker? || r.membership.LookupFails?
                  || (r.membership.Looked? && !r.membership.enabled))
    ensures Evaluate(sess, r) == Reject("group claim not present") <==>
              && NamesFit(sess, r) && sess.requiredGroup != "" && r.membership.FromToken?
              && !r.token.groupsPresent && sess.requiredGroup !in r.token.groups
    ensures Evaluate(sess, r) == Reject("not in required group") <==>
              && NamesFit(sess, r) && sess.requiredGroup != ""
              && ((r.membership.FromToken? && r.token.groupsPresent && sess.requiredGroup !in r.token.groups)
                  || r.membership == Looked(true, false))
  {
    hide NormalizeIdentity;
    Reasons();
  }

  /** Only a key that could not be fetched is retried, and nothing passes without claims. */
  lemma RetryExactly(sess: PendingSession, r: Request)
    ensures Evaluate(sess, r).Retry? <==> r.token.KeyUnavailable?
    ensures Evaluate(sess, r).Pass? ==> r.token.Claims?
  {
    hide NormalizeIdentity;
  }

  /** The reasons are different texts. */
  lemma Reasons()
    ensures |"missing oidc header"| == 19 && |"invalid jwt header"| == 18 && |"jwt validation failed"| == 21
    ensures "invalid jwt claims"[12] != "invalid jwt header"[12] && |"invalid jwt claims"| == 18
    ensures |"invalid identity"| == 16 && |"cn mismatch"| == 11 && |"group check error"| == 17
    ensures |"group claim not present"| == 23 && "not in required group"[0] == 'n' && |"not in required group"| == 21
  {
  }

  // ----- threads -----

  datatype Thread =
    | Received(req: Request)
    | Verified(req: Request, sid: Sid)                     // the state decoded
    | Checking(req: Request, sess: PendingSession)         // won PENDING to PROCESSING
    | Denying(sess: PendingSession)                        // marked FAILED, deny not sent yet
    | Sending(sess: PendingSession, id: nat)               // allow handed to the sink
    | Acked(sess: PendingSession, id: nat)                 // OpenVPN accepted it
    | Promoted(sess: PendingSession, id: nat)              // MarkAuthenticated done, DONE not marked yet
    | SendFailed(sess: PendingSession)
    | TimerWaiting(sess: PendingSession)                   // the authentication timeout of a session
    | TimerWon(sess: PendingSession)
    | TimerDenying(sess: PendingSession)
    | Superseding(sess: PendingSession)                    // a newer CONNECT took the session, deny not sent yet
    | Ended

  datatype Entry =
    | Accepted(sess: PendingSession)
    | StateOk(t: nat, rawState: string, now: Time, sid: Sid)
    | Won(t: nat, sess: PendingSession)
    | Allowed(t: nat, req: Request, sess: PendingSession, id: nat) // `id` is the request handed to the broker
    | Denied(sess: PendingSession)
    | Authenticated(sess: PendingSession, id: nat)

  datatype Sys = Sys(store: Store, threads: map<nat, Thread>, log: seq<Entry>, issued: set<Sid>, link: K.State)

  const Init := Sys(map[], map[], [], {}, K.Init)

  datatype Action =
    | Accept(t: nat, sess: PendingSession)
    | Arrive(t: nat, req: Request)
    | Verify(t: nat, now: Time)
    | Try(t: nat)
    | Judge(t: nat, id: nat)
    | SendDeny(t: nat)
    | AckOk(t: nat)
    | AckErr(t: nat)
    | MarkAuthenticated(t: nat)
    | MarkDone(t: nat)
    | MarkSendFailed(t: nat)
    | TimerCancelled(t: nat)
    | TimerFires(t: nat)
    | TimerMarks(t: nat)
    | Supersede(t: nat, sid: Sid)
    | Drop(sid: Sid)                  // disconnect, promotion, rebuild or reaper
    | LinkStep(b: K.Action)           // anything the connections do, other commands included

  function ClientAuth(sess: PendingSession): string {
    ToCommand(Allow(sess.cid, sess.kid))
  }

  /** The commands that others send. */
  ghost predicate OtherCommand(command: string) {
    || command == "status 3" || command == "hold release"
    || exists d: Decision :: !d.Allow? && command == ToCommand(d)
  }

  lemma OtherIsNoAuth(command: string)
    requires OtherCommand(command)
    ensures FirstWord(command) != "client-auth"
  {
    hide FirstWord, ToCommand;
    PlainCommands();
    if d: Decision :| !d.Allow? && command == ToCommand(d) {
      ClientAuthMeansAllow(d);
    } else {
      assert |"client-auth"| == 11 && |"status"| == 6 && |"hold"| == 4;
    }
  }

  function SubmitAllow(sess: PendingSession, id: nat): K.Action {
    K.Step(B.Submit(B.Request(id, ClientAuth(sess))))
  }

  ghost predicate Enabled(s: Sys, a: Action) {
    match a
    case Accept(t, sess) => t !in s.threads && sess.sessionId !in s.issued && sess.status == SessionStatus.Pending
    case Arrive(t, _) => t !in s.threads
    case Verify(t, _) => t in s.threads && s.threads[t].Received?
    case Try(t) => t in s.threads && s.threads[t].Verified?
    case Judge(t, id) =>
      t in s.threads && s.threads[t].Checking? && K.Enabled(s.link, SubmitAllow(s.threads[t].sess, id))
    case SendDeny(t) =>
      t in s.threads && (s.threads[t].Denying? || s.threads[t].TimerDenying? || s.threads[t].Superseding?)
    case AckOk(t) =>
      t in s.threads && s.threads[t].Sending? && K.Acked(s.link, s.threads[t].id)
    case AckErr(t) => t in s.threads && s.threads[t].Sending?
    case MarkAuthenticated(t) => t in s.threads && s.threads[t].Acked?
    case MarkDone(t) => t in s.threads && s.threads[t].Promoted?
    case MarkSendFailed(t) => t in s.threads && s.threads[t].SendFailed?
    case TimerCancelled(t) => t in s.threads && s.threads[t].TimerWaiting?
    case TimerFires(t) => t in s.threads && s.threads[t].TimerWaiting?
    case TimerMarks(t) => t in s.threads && s.threads[t].TimerWon?
    case Supersede(t, sid) => t !in s.threads && IsPending(s.store, sid)
    case Drop(_) => true
    // only the callback server makes allow decisions
    case LinkStep(b) => K.Enabled(s.link, b) && (b.Step? && b.b.Submit? ==> OtherCommand(b.b.request.command))
  }

  /** A thread moves on, a session changes status, an entry is logged. */
  function Go(s: Sys, t: nat, th: Thread): Sys {
    s.(threads := s.threads[t := th])
  }

  function Mark(s: Sys, sid: Sid, status: SessionStatus): Sys {
    s.(store := SetStatus(s.store, sid, status))
  }

  function Log(s: Sys, e: Entry): Sys {
    s.(log := s.log + [e])
  }

  /** The checks are over: `submitted` is the link once the allow has been handed to it. */
  function Settle(s: Sys, t: nat, req: Request, sess: PendingSession, submitted: K.State, id: nat): Sys {
    match Evaluate(sess, req)
    case Retry => Go(Mark(s, sess.sessionId, SessionStatus.Pending), t, Ended)
    case Reject(_) => Go(Mark(s, sess.sessionId, Failed), t, Denying(sess))
    case Pass => Log(Go(s, t, Sending(sess, id)), Allowed(t, req, sess, id)).(link := submitted)
  }

  function Next(signer: State.Signer, s: Sys, a: Action): Sys
    requires Enabled(s, a)
  {
    match a
    case Accept(t, sess) =>
      var u := s.(store := s.store[sess.sessionId := sess], issued := s.issued + {sess.sessionId});
      Log(Go(u, t, TimerWaiting(sess)), Accepted(sess))
    case Arrive(t, req) => Go(s, t, Received(req))
    case Verify(t, now) =>
      var req := s.threads[t].req;
      var p := State.DecodeState(State.TrimState(req.rawState), signer, now);
      if p.Err? then Go(s, t, Ended)
      else Log(Go(s, t, Verified(req, p.value.sid)), StateOk(t, req.rawState, now, p.value.sid))
    case Try(t) =>
      var Verified(req, sid) := s.threads[t];
      if IsPending(s.store, sid)
      then Log(Go(Mark(s, sid, Processing), t, Checking(req, s.store[sid])), Won(t, s.store[sid]))
      else Go(s, t, Ended)
    case Judge(t, id) =>
      Settle(s, t, s.threads[t].req, s.threads[t].sess, K.Next(s.link, SubmitAllow(s.threads[t].sess, id)), id)
    case SendDeny(t) => Log(Go(s, t, Ended), Denied(s.threads[t].sess))
    case AckOk(t) => Go(s, t, Acked(s.threads[t].sess, s.threads[t].id))
    case AckErr(t) => Go(s, t, SendFailed(s.threads[t].sess))
    case MarkAuthenticated(t) =>
      var Acked(sess, id) := s.threads[t];
      Log(Go(s, t, Promoted(sess, id)), Authenticated(sess, id))
    case MarkDone(t) => Go(Mark(s, s.threads[t].sess.sessionId, Done), t, Ended)
    case MarkSendFailed(t) => Go(Mark(s, s.threads[t].sess.sessionId, Failed), t, Ended)
    case TimerCancelled(t) => Go(s, t, Ended)
    case TimerFires(t) =>
      var sess := s.threads[t].sess;
      if IsPending(s.store, sess.sessionId)
      then Go(Mark(s, sess.sessionId, Processing), t, TimerWon(sess)) else Go(s, t, Ended)
    case TimerMarks(t) => Go(Mark(s, s.threads[t].sess.sessionId, Failed), t, TimerDenying(s.threads[t].sess))
    case Supersede(t, sid) => Go(Mark(s, sid, Failed), t, Superseding(s.store[sid]))
    case Drop(sid) => s.(store := s.store - {sid})
    case LinkStep(b) => s.(link := K.Next(s.link, b))
  }

  ghost predicate Run(signer: State.Signer, s: Sys, acts: seq<Action>, s': Sys)
    decreases |acts|
  {
    if acts == [] then s' == s
    else Enabled(s, acts[0]) && Run(signer, Next(signer, s, acts[0]), acts[1..], s')
  }

  ghost predicate Reachable(signer: State.Signer, s: Sys) {
    exists acts :: Run(signer, Init, acts, s)
  }

  lemma {:induction false} RunThen(signer: State.Signer, s: Sys, acts: seq<Action>, m: Sys, a: Action)
    requires Run(signer, s, acts, m) && Enabled(m, a)
    ensures Run(signer, s, acts + [a], Next(signer, m, a))
    decreases |acts|
  {
    hide Enabled, Next;
    if acts == [] {
      assert [a][1..] == [] && acts + [a] == [a];
      assert Run(signer, Next(signer, m, a), [], Next(signer, m, a));
    } else {
      assert (acts + [a])[1..] == acts[1..] + [a];
      RunThen(signer, Next(signer, s, acts[0]), acts[1..], m, a);
    }
  }

  /** One more step of a reachable state is reachable. */
  lemma ReachableStep(signer: State.Signer, s: Sys, a: Action)
    requires Reachable(signer, s) && Enabled(s, a)
    ensures Reachable(signer, Next(signer, s, a))
  {
    hide Enabled, Next;
    var acts :| Run(signer, Init, acts, s);
    RunThen(signer, Init, acts, s, a);
  }

  lemma InitReachable(signer: State.Signer)
    ensures Reachable(signer, Init)
  {
    assert Run(signer, Init, [], Init);
  }

  // ----- holding a session -----

  /** The session a thread has taken and not yet let go. */
  function Held(th: Thread): Option<Sid> {
    match th
    case Checking(_, sess) => Some(sess.sessionId)
    case Denying(sess) => Some(sess.sessionId)
    case Sending(sess, _) => Some(sess.sessionId)
    case Acked(sess, _) => Some(sess.sessionId)
    case Promoted(sess, _) => Some(sess.sessionId)
    case SendFailed(sess) => Some(sess.sessionId)
    case TimerWon(sess) => Some(sess.sessionId)
    case TimerDenying(sess) => Some(sess.sessionId)
    case Superseding(sess) => Some(sess.sessionId)
    case _ => None
  }

  /** The status of a held session, as long as the store keeps it. */
  function HeldStatus(th: Thread): SessionStatus {
    if th.Denying? || th.TimerDenying? || th.Superseding? then Failed else Processing
  }

  /** The holder has not decided yet. */
  predicate Undecided(th: Thread) {
    th.Checking? || th.Denying? || th.TimerWon? || th.TimerDenying? || th.Superseding?
  }

  /** The session that an entry decides. */
  function Decides(e: Entry): Option<Sid> {
    match e
    case Allowed(_, _, sess, _) => Some(sess.sessionId)
    case Denied(sess) => Some(sess.sessionId)
    case _ => None
  }

  ghost predicate Decided(log: seq<Entry>, sid: Sid) {
    exists i :: 0 <= i < |log| && Decides(log[i]) == Some(sid)
  }

  /** At most one thread holds a session, a held session is not pending, and a processing one is held. */
  ghost predicate Exclusive(s: Sys) {
    && (forall t, u :: t in s.threads && u in s.threads && t != u && Held(s.threads[t]).Some? ==>
          Held(s.threads[t]) != Held(s.threads[u]))
    && (forall t :: t in s.threads && Held(s.threads[t]).Some? && Held(s.threads[t]).value in s.store ==>
          s.store[Held(s.threads[t]).value].status == HeldStatus(s.threads[t]))
    && (forall sid :: sid in s.store && s.store[sid].status == Processing ==> HasHolder(s, sid))
  }

  ghost predicate HasHolder(s: Sys, sid: Sid) {
    exists t :: t in s.threads && Held(s.threads[t]) == Some(sid) && HeldStatus(s.threads[t]) == Processing
  }

  /** Decisions are about different sessions; a pending or undecided session has none. */
  ghost predicate OneDecision(s: Sys) {
    && (forall i, j :: 0 <= i < j < |s.log| && Decides(s.log[i]).Some? ==> Decides(s.log[i]) != Decides(s.log[j]))
    && (forall sid :: IsPending(s.store, sid) ==> !Decided(s.log, sid))
    && (forall t :: t in s.threads && Undecided(s.threads[t]) ==> !Decided(s.log, Held(s.threads[t]).value))
  }

  predicate Names(th: Thread, sid: Sid) {
    Held(th) == Some(sid) || (th.TimerWaiting? && th.sess.sessionId == sid)
  }

  /** Session IDs in use were issued, and the store is keyed by them. */
  ghost predicate IssuedOnce(s: Sys) {
    && (forall sid :: sid in s.store ==> sid in s.issued && s.store[sid].sessionId == sid)
    && (forall t, sid :: t in s.threads && Names(s.threads[t], sid) ==> sid in s.issued)
    && (forall i :: 0 <= i < |s.log| && Decides(s.log[i]).Some? ==> Decides(s.log[i]).value in s.issued)
  }

  ghost predicate RaceInv(s: Sys) {
    Exclusive(s) && OneDecision(s) && IssuedOnce(s)
  }

  // ----- one thread moves and at most one session changes -----

  function HeldBefore(s: Sys, t: nat): Option<Sid> {
    if t in s.threads then Held(s.threads[t]) else None
  }

  /**
   Thread `t` becomes `th`; only session `x` may change. Taking a session needs it pending, keeping
   it leaves it with the holder's status, and letting go leaves it in another status than PROCESSING.
   */
  ghost predicate Moves(s: Sys, u: Sys, t: nat, th: Thread, x: Sid) {
    && u.threads == s.threads[t := th]
    && (Held(th).Some? ==> Held(th).value == x)
    && (HeldBefore(s, t).Some? ==> HeldBefore(s, t).value == x)
    && (Held(th).Some? && HeldBefore(s, t).None? ==> IsPending(s.store, x))
    && (forall sid :: sid in u.store ==> sid in s.store && (sid != x ==> u.store[sid] == s.store[sid]))
    && (x in u.store ==>
          if Held(th).Some? then u.store[x].status == HeldStatus(th)
          else if HeldBefore(s, t).Some? then u.store[x].status != Processing
          else u.store[x] == s.store[x])
  }

  lemma MoveKeepsExclusive(s: Sys, u: Sys, t: nat, th: Thread, x: Sid)
    requires Exclusive(s) && Moves(s, u, t, th, x)
    ensures Exclusive(u)
  {
    forall sid | sid in u.store && u.store[sid].status == Processing
      ensures HasHolder(u, sid)
    {
      if Held(th) == Some(sid) {
        assert t in u.threads && Held(u.threads[t]) == Some(sid);
      } else {
        assert HasHolder(s, sid);
        var k :| k in s.threads && Held(s.threads[k]) == Some(sid) && HeldStatus(s.threads[k]) == Processing;
        assert k != t;
        assert k in u.threads && Held(u.threads[k]) == Some(sid);
      }
    }
  }

  lemma AcceptKeepsExclusive(s: Sys, t: nat, sess: PendingSession, signer: State.Signer)
    requires RaceInv(s) && Enabled(s, Accept(t, sess))
    ensures Exclusive(Next(signer, s, Accept(t, sess)))
  {
    var u := Next(signer, s, Accept(t, sess));
    forall k | k in s.threads && Held(s.threads[k]).Some?
      ensures Held(s.threads[k]).value != sess.sessionId
    {
      assert Names(s.threads[k], Held(s.threads[k]).value);
    }
    forall sid | sid in u.store && u.store[sid].status == Processing
      ensures HasHolder(u, sid)
    {
      assert HasHolder(s, sid);
      var k :| k in s.threads && Held(s.threads[k]) == Some(sid) && HeldStatus(s.threads[k]) == Processing;
      assert k in u.threads && Held(u.threads[k]) == Some(sid);
    }
  }

  /** The session a step is about. */
  function Subject(s: Sys, a: Action): Sid
    requires Enabled(s, a)
  {
    match a
    case Accept(_, sess) => sess.sessionId
    case Supersede(_, sid) => sid
    case Drop(sid) => sid
    case Arrive(_, _) => ""
    case Verify(_, _) => ""
    case LinkStep(_) => ""
    case Try(t) => s.threads[t].sid
    case _ => s.threads[a.t].sess.sessionId
  }

  lemma TryMoves(signer: State.Signer, s: Sys, t: nat)
    requires IssuedOnce(s) && Enabled(s, Try(t))
    ensures var u := Next(signer, s, Try(t)); Moves(s, u, t, u.threads[t], Subject(s, Try(t)))
  {
  }

  lemma TimerFiresMoves(signer: State.Signer, s: Sys, t: nat)
    requires Enabled(s, TimerFires(t))
    ensures var u := Next(signer, s, TimerFires(t)); Moves(s, u, t, u.threads[t], Subject(s, TimerFires(t)))
  {
  }

  lemma SupersedeMoves(signer: State.Signer, s: Sys, t: nat, sid: Sid)
    requires IssuedOnce(s) && Enabled(s, Supersede(t, sid))
    ensures var u := Next(signer, s, Supersede(t, sid)); Moves(s, u, t, u.threads[t], Subject(s, Supersede(t, sid)))
  {
  }

  lemma JudgeMoves(signer: State.Signer, s: Sys, a: Action)
    requires RaceInv(s) && Enabled(s, a) && a.Judge?
    ensures Moves(s, Next(signer, s, a), a.t, Next(signer, s, a).threads[a.t], Subject(s, a))
  {
    hide OneDecision, IssuedOnce, Evaluate, K.Enabled, K.Next, HasHolder;
  }

  lemma OwnMoves(signer: State.Signer, s: Sys, a: Action)
    requires RaceInv(s) && Enabled(s, a)
    requires a.SendDeny? || a.AckOk? || a.AckErr? || a.MarkAuthenticated?
    ensures Moves(s, Next(signer, s, a), a.t, Next(signer, s, a).threads[a.t], Subject(s, a))
  {
    hide OneDecision, IssuedOnce, HasHolder;
  }

  lemma MarkMoves(signer: State.Signer, s: Sys, a: Action)
    requires RaceInv(s) && Enabled(s, a) && (a.MarkDone? || a.MarkSendFailed? || a.TimerMarks?)
    ensures Moves(s, Next(signer, s, a), a.t, Next(signer, s, a).threads[a.t], Subject(s, a))
  {
    hide OneDecision, IssuedOnce, Exclusive;
  }

  lemma IdleMoves(signer: State.Signer, s: Sys, a: Action)
    requires Enabled(s, a) && (a.Arrive? || a.Verify? || a.TimerCancelled?)
    ensures Moves(s, Next(signer, s, a), a.t, Next(signer, s, a).threads[a.t], Subject(s, a))
  {
    hide State.DecodeState, State.TrimState;
  }

  lemma StepMoves(signer: State.Signer, s: Sys, a: Action)
    requires RaceInv(s) && Enabled(s, a) && !a.Accept? && !a.Drop? && !a.LinkStep?
    ensures Moves(s, Next(signer, s, a), a.t, Next(signer, s, a).threads[a.t], Subject(s, a))
  {
    hide Exclusive, OneDecision, IssuedOnce, Moves, Enabled, Next, Subject;
    match a
    case Try(t) => TryMoves(signer, s, t);
    case TimerFires(t) => TimerFiresMoves(signer, s, t);
    case Supersede(t, sid) => SupersedeMoves(signer, s, t, sid);
    case MarkDone(_) => MarkMoves(signer, s, a);
    case MarkSendFailed(_) => MarkMoves(signer, s, a);
    case TimerMarks(_) => MarkMoves(signer, s, a);
    case Judge(_, _) => JudgeMoves(signer, s, a);
    case Arrive(_, _) => IdleMoves(signer, s, a);
    case Verify(_, _) => IdleMoves(signer, s, a);
    case TimerCancelled(_) => IdleMoves(signer, s, a);
    case _ => OwnMoves(signer, s, a);
  }

  lemma ExclusiveKept(signer: State.Signer, s: Sys, a: Action)
    requires RaceInv(s) && Enabled(s, a)
    ensures Exclusive(Next(signer, s, a))
  {
    hide OneDecision, IssuedOnce, Moves;
    if a.Accept? {
      AcceptKeepsExclusive(s, a.t, a.sess, signer);
    } else if a.Drop? || a.LinkStep? {
      var u := Next(signer, s, a);
      forall sid | sid in u.store && u.store[sid].status == Processing
        ensures HasHolder(u, sid)
      {
        assert HasHolder(s, sid);
      }
    } else {
      hide Next;
      StepMoves(signer, s, a);
      MoveKeepsExclusive(s, Next(signer, s, a), a.t, Next(signer, s, a).threads[a.t], Subject(s, a));
    }
  }

  // ----- decisions -----

  /** What a step adds to the log about decisions: nothing, or a decision by an undecided holder. */
  ghost predicate LogsFor(s: Sys, u: Sys, t: nat, th: Thread, x: Sid) {
    && Moves(s, u, t, th, x)
    && (u.log == s.log || exists e :: u.log == s.log + [e] && (Decides(e).Some? ==> Decides(e) == Some(x)))
    && (u.log != s.log && Decides(u.log[|u.log| - 1]).Some? ==>
          t in s.threads && Undecided(s.threads[t]) && !Undecided(th) && !IsPending(u.store, x))
    && (Undecided(th) ==> HeldBefore(s, t).None? || Undecided(s.threads[t]))
    && (IsPending(u.store, x) && !IsPending(s.store, x) ==> t in s.threads && Undecided(s.threads[t]))
  }

  lemma DecidedSnoc(log: seq<Entry>, e: Entry, sid: Sid)
    ensures Decided(log + [e], sid) <==> Decided(log, sid) || Decides(e) == Some(sid)
  {
    var more := log + [e];
    if i :| 0 <= i < |log| && Decides(log[i]) == Some(sid) {
      assert more[i] == log[i];
    }
    if Decides(e) == Some(sid) {
      assert more[|log|] == e;
    }
  }

  lemma LogKeepsDecisions(s: Sys, u: Sys, t: nat, th: Thread, x: Sid)
    requires RaceInv(s) && LogsFor(s, u, t, th, x)
    ensures OneDecision(u)
  {
    hide IssuedOnce, HasHolder;
    forall sid
      ensures Decided(u.log, sid) <==>
                Decided(s.log, sid) || (u.log != s.log && Decides(u.log[|u.log| - 1]) == Some(sid))
    {
      if u.log != s.log {
        var e :| u.log == s.log + [e] && (Decides(e).Some? ==> Decides(e) == Some(x));
        DecidedSnoc(s.log, e, sid);
      }
    }
    DecisionsDistinct(s, u, t, th, x);
    hide Decides, Decided;
    forall k | k in u.threads && Undecided(u.threads[k])
      ensures !Decided(u.log, Held(u.threads[k]).value)
    {
      if k != t {
        assert k in s.threads && Held(s.threads[k]) == Held(u.threads[k]);
      }
    }
  }

  lemma DecisionsDistinct(s: Sys, u: Sys, t: nat, th: Thread, x: Sid)
    requires RaceInv(s) && LogsFor(s, u, t, th, x)
    ensures forall i, j :: 0 <= i < j < |u.log| && Decides(u.log[i]).Some? ==> Decides(u.log[i]) != Decides(u.log[j])
  {
    hide IssuedOnce, HasHolder, Exclusive;
    if u.log != s.log {
      var e :| u.log == s.log + [e] && (Decides(e).Some? ==> Decides(e) == Some(x));
      if Decides(e).Some? {
        assert !Decided(s.log, x);
      }
    }
  }

  lemma StepLogs(signer: State.Signer, s: Sys, a: Action)
    requires RaceInv(s) && Enabled(s, a) && !a.Accept? && !a.Drop? && !a.LinkStep?
    requires Moves(s, Next(signer, s, a), a.t, Next(signer, s, a).threads[a.t], Subject(s, a))
    ensures LogsFor(s, Next(signer, s, a), a.t, Next(signer, s, a).threads[a.t], Subject(s, a))
  {
    hide Moves, RaceInv, Evaluate, State.DecodeState, State.TrimState, K.Enabled, K.Next;
    var u := Next(signer, s, a);
    if a.SendDeny? || a.Judge? {
      HeldNotPending(s, a.t);
      assert u.log != s.log ==> u.log == s.log + [u.log[|s.log|]];
    } else {
      QuietStep(signer, s, a);
    }
  }

  lemma HeldNotPending(s: Sys, t: nat)
    requires RaceInv(s) && t in s.threads && Held(s.threads[t]).Some?
    ensures !IsPending(s.store, Held(s.threads[t]).value)
  {
  }

  /** The other steps decide nothing and make no session pending. */
  lemma QuietStep(signer: State.Signer, s: Sys, a: Action)
    requires Enabled(s, a) && !a.Accept? && !a.Drop? && !a.LinkStep? && !a.SendDeny? && !a.Judge?
    ensures var u, x := Next(signer, s, a), Subject(s, a);
            && (u.log == s.log || exists e :: u.log == s.log + [e] && Decides(e).None?)
            && (IsPending(u.store, x) ==> IsPending(s.store, x))
            && (Undecided(u.threads[a.t]) ==> HeldBefore(s, a.t).None? || Undecided(s.threads[a.t]))
  {
    hide State.DecodeState, State.TrimState;
    var u := Next(signer, s, a);
    assert u.log != s.log ==> u.log == s.log + [u.log[|s.log|]];
  }

  lemma AcceptKeepsDecisions(s: Sys, t: nat, sess: PendingSession, signer: State.Signer)
    requires RaceInv(s) && Enabled(s, Accept(t, sess))
    ensures OneDecision(Next(signer, s, Accept(t, sess)))
  {
    hide Exclusive;
    forall sid
      ensures Decided(s.log + [Accepted(sess)], sid) <==> Decided(s.log, sid)
    {
      DecidedSnoc(s.log, Accepted(sess), sid);
    }
    assert !Decided(s.log, sess.sessionId);
  }

  lemma DecisionsKept(signer: State.Signer, s: Sys, a: Action)
    requires RaceInv(s) && Enabled(s, a)
    ensures OneDecision(Next(signer, s, a))
  {
    hide Exclusive, IssuedOnce, Moves, LogsFor;
    if a.Accept? {
      AcceptKeepsDecisions(s, a.t, a.sess, signer);
    } else if !a.Drop? && !a.LinkStep? {
      hide Next, OneDecision;
      StepMoves(signer, s, a);
      StepLogs(signer, s, a);
      LogKeepsDecisions(s, Next(signer, s, a), a.t, Next(signer, s, a).threads[a.t], Subject(s, a));
    }
  }

  lemma NamedWasIssued(signer: State.Signer, s: Sys, a: Action, t: nat, sid: Sid)
    requires IssuedOnce(s) && Enabled(s, a) && t in Next(signer, s, a).threads
        && Names(Next(signer, s, a).threads[t], sid)
    ensures sid in Next(signer, s, a).issued
  {
    hide Evaluate, State.DecodeState, State.TrimState, K.Enabled, K.Next, Decides;
    if t in s.threads {
      assert Names(s.threads[t], sid) ==> sid in s.issued;
    }
  }

  lemma IssuedKept(signer: State.Signer, s: Sys, a: Action)
    requires RaceInv(s) && Enabled(s, a)
    ensures IssuedOnce(Next(signer, s, a))
  {
    hide Exclusive, OneDecision, Evaluate, State.DecodeState, State.TrimState, K.Enabled, K.Next;
    var u := Next(signer, s, a);
    forall t, sid | t in u.threads && Names(u.threads[t], sid)
      ensures sid in u.issued
    {
      NamedWasIssued(signer, s, a, t, sid);
    }
    forall i | 0 <= i < |u.log| && Decides(u.log[i]).Some?
      ensures Decides(u.log[i]).value in u.issued
    {
      DecidedWasIssued(signer, s, a, i);
    }
  }

  lemma DecidedWasIssued(signer: State.Signer, s: Sys, a: Action, i: nat)
    requires IssuedOnce(s) && Enabled(s, a) && i < |Next(signer, s, a).log| && Decides(Next(signer, s, a).log[i]).Some?
    ensures Decides(Next(signer, s, a).log[i]).value in Next(signer, s, a).issued
  {
    hide Evaluate, State.DecodeState, State.TrimState, K.Enabled, K.Next;
    if i >= |s.log| {
      assert Names(s.threads[a.t], Decides(Next(signer, s, a).log[i]).value);
    }
  }

  lemma RaceInvKept(signer: State.Signer, s: Sys, a: Action)
    requires RaceInv(s) && Enabled(s, a)
    ensures RaceInv(Next(signer, s, a))
  {
    hide Exclusive, OneDecision, IssuedOnce, Next, Enabled;
    ExclusiveKept(signer, s, a);
    DecisionsKept(signer, s, a);
    IssuedKept(signer, s, a);
  }

  lemma {:induction false} RunKeepsRaceInv(signer: State.Signer, s: Sys, acts: seq<Action>, s': Sys)
    requires RaceInv(s) && Run(signer, s, acts, s')
    ensures RaceInv(s')
    decreases |acts|
  {
    hide RaceInv, Next, Enabled;
    if acts != [] {
      RaceInvKept(signer, s, acts[0]);
      RunKeepsRaceInv(signer, Next(signer, s, acts[0]), acts[1..], s');
    }
  }

  /**
   In every interleaving each session gets at most one decision, whoever takes it; at most one thread
   holds a session; and a session in PROCESSING has exactly one holder.
   */
  lemma ReachableRaceInv(signer: State.Signer, s: Sys)
    requires Reachable(signer, s)
    ensures RaceInv(s)
  {
    var acts :| Run(signer, Init, acts, s);
    RunKeepsRaceInv(signer, Init, acts, s);
  }

  predicate Terminal(status: SessionStatus) {
    status == Done || status == Failed
  }

  lemma StepKeepsTerminal(signer: State.Signer, s: Sys, a: Action, sid: Sid)
    requires RaceInv(s) && Enabled(s, a) && sid in s.store && Terminal(s.store[sid].status)
    ensures var u := Next(signer, s, a); sid in u.store ==> u.store[sid] == s.store[sid]
    ensures sid in Next(signer, s, a).issued
  {
    hide OneDecision, Exclusive, Evaluate, State.DecodeState, State.TrimState, K.Enabled, K.Next;
    if a.Judge? || a.MarkDone? || a.MarkSendFailed? || a.TimerMarks? {
      MarkedWasProcessing(s, a);
    }
  }

  lemma MarkedWasProcessing(s: Sys, a: Action)
    requires RaceInv(s) && Enabled(s, a) && (a.Judge? || a.MarkDone? || a.MarkSendFailed? || a.TimerMarks?)
    ensures Subject(s, a) in s.store ==> s.store[Subject(s, a)].status == Processing
  {
    hide OneDecision, IssuedOnce, HasHolder, K.Enabled;
  }

  /** DONE and FAILED are never left, until the session is dropped, and a dropped session never comes back. */
  lemma {:induction false} TerminalForGood(signer: State.Signer, s: Sys, acts: seq<Action>, s': Sys, sid: Sid)
    requires RaceInv(s) && Run(signer, s, acts, s') && sid in s.issued
    requires sid in s.store ==> Terminal(s.store[sid].status)
    ensures sid in s'.store ==> sid in s.store && s'.store[sid] == s.store[sid]
    decreases |acts|
  {
    hide Enabled, Next, RaceInv;
    if acts != [] {
      RaceInvKept(signer, s, acts[0]);
      DroppedStaysDropped(signer, s, acts[0], sid);
      if sid in s.store {
        StepKeepsTerminal(signer, s, acts[0], sid);
      }
      TerminalForGood(signer, Next(signer, s, acts[0]), acts[1..], s', sid);
    }
  }

  lemma DroppedStaysDropped(signer: State.Signer, s: Sys, a: Action, sid: Sid)
    requires Enabled(s, a) && sid in s.issued
    ensures sid in Next(signer, s, a).issued && (sid !in s.store ==> sid !in Next(signer, s, a).store)
  {
    hide Evaluate, State.DecodeState, State.TrimState, K.Enabled, K.Next;
  }

  // ----- a terminal session has its decision -----

  predicate Sends(th: Thread) {
    th.Sending? || th.Acked? || th.Promoted? || th.SendFailed?
  }

  predicate AboutToDeny(th: Thread, sid: Sid) {
    (th.Denying? || th.TimerDenying? || th.Superseding?) && th.sess.sessionId == sid
  }

  ghost predicate DenyComing(s: Sys, sid: Sid) {
    exists t :: t in s.threads && AboutToDeny(s.threads[t], sid)
  }

  /** The log holds an allow of this session. */
  ghost predicate AllowedFor(log: seq<Entry>, sid: Sid) {
    exists i :: 0 <= i < |log| && log[i].Allowed? && log[i].sess.sessionId == sid
  }

  /** A failed session was decided or is about to be denied; a done session was allowed. */
  ghost predicate TerminalDecided(s: Sys, sid: Sid)
    requires sid in s.store
  {
    && (s.store[sid].status == Failed ==> Decided(s.log, sid) || DenyComing(s, sid))
    && (s.store[sid].status == Done ==> AllowedFor(s.log, sid))
  }

  ghost predicate TerminalsDecided(s: Sys) {
    && (forall sid :: sid in s.store ==> TerminalDecided(s, sid))
    && (forall t :: t in s.threads && Sends(s.threads[t]) ==> AllowedFor(s.log, s.threads[t].sess.sessionId))
  }

  lemma DecidedLaterToo(log: seq<Entry>, more: seq<Entry>, sid: Sid)
    requires log <= more
    ensures Decided(log, sid) ==> Decided(more, sid)
    ensures AllowedFor(log, sid) ==> AllowedFor(more, sid)
    ensures AllowedFor(log, sid) ==> Decided(log, sid)
  {
    assert forall i :: 0 <= i < |log| ==> more[i] == log[i];
  }

  /** A deny that is coming stays so until it is sent. */
  lemma DenyStays(signer: State.Signer, s: Sys, a: Action, sid: Sid)
    requires Enabled(s, a) && DenyComing(s, sid)
    ensures DenyComing(Next(signer, s, a), sid) || Decided(Next(signer, s, a).log, sid)
  {
    hide Evaluate, State.DecodeState, State.TrimState, K.Enabled, K.Next;
    var u := Next(signer, s, a);
    var t :| t in s.threads && AboutToDeny(s.threads[t], sid);
    if t in u.threads && u.threads[t] == s.threads[t] {
      assert AboutToDeny(u.threads[t], sid);
    } else {
      assert a == SendDeny(t);
      assert Decides(u.log[|s.log|]) == Some(sid);
    }
  }

  /** How a session comes to be failed or done. */
  lemma BecomesTerminal(signer: State.Signer, s: Sys, a: Action, sid: Sid)
    requires IssuedOnce(s) && TerminalsDecided(s) && Enabled(s, a) && sid in Next(signer, s, a).store
    requires sid in s.store ==> s.store[sid].status != Next(signer, s, a).store[sid].status
    ensures var u := Next(signer, s, a);
            && (u.store[sid].status == Failed ==> DenyComing(u, sid) || AllowedFor(s.log, sid))
            && (u.store[sid].status == Done ==> AllowedFor(s.log, sid))
  {
    hide Evaluate, State.DecodeState, State.TrimState, K.Enabled, K.Next, TerminalDecided, Names, AllowedFor;
    var u := Next(signer, s, a);
    if u.store[sid].status == Failed {
      assert !a.MarkSendFailed? ==> a.t in u.threads && AboutToDeny(u.threads[a.t], sid);
    }
  }

  lemma TerminalKept(signer: State.Signer, s: Sys, a: Action, sid: Sid)
    requires IssuedOnce(s) && TerminalsDecided(s) && Enabled(s, a) && sid in Next(signer, s, a).store
    ensures TerminalDecided(Next(signer, s, a), sid)
  {
    hide Next, Enabled, IssuedOnce, Decided, AllowedFor, DenyComing;
    var u := Next(signer, s, a);
    LogGrows(signer, s, a);
    DecidedLaterToo(s.log, u.log, sid);
    DecidedLaterToo(u.log, u.log, sid);
    if sid in s.store && s.store[sid].status == u.store[sid].status {
      if DenyComing(s, sid) {
        DenyStays(signer, s, a, sid);
      }
    } else {
      BecomesTerminal(signer, s, a, sid);
    }
  }

  lemma SendersAllowed(signer: State.Signer, s: Sys, a: Action, t: nat)
    requires TerminalsDecided(s) && Enabled(s, a)
    requires t in Next(signer, s, a).threads && Sends(Next(signer, s, a).threads[t])
    ensures AllowedFor(Next(signer, s, a).log, Next(signer, s, a).threads[t].sess.sessionId)
  {
    hide Next, Enabled, TerminalDecided;
    var u := Next(signer, s, a);
    LogGrows(signer, s, a);
    var sid := u.threads[t].sess.sessionId;
    SenderCameFrom(signer, s, a, t);
    if t in s.threads && Sends(s.threads[t]) {
      DecidedLaterToo(s.log, u.log, sid);
    }
  }

  lemma SenderCameFrom(signer: State.Signer, s: Sys, a: Action, t: nat)
    requires Enabled(s, a) && t in Next(signer, s, a).threads && Sends(Next(signer, s, a).threads[t])
    ensures var u := Next(signer, s, a);
            if t in s.threads && Sends(s.threads[t]) then s.threads[t].sess == u.threads[t].sess
            else |u.log| > |s.log| && u.log[|s.log|].Allowed? && u.log[|s.log|].sess == u.threads[t].sess
  {
    hide Evaluate, State.DecodeState, State.TrimState, K.Enabled, K.Next;
  }

  lemma {:induction false} RunKeepsTerminals(signer: State.Signer, s: Sys, acts: seq<Action>, s': Sys)
    requires RaceInv(s) && TerminalsDecided(s) && Run(signer, s, acts, s')
    ensures TerminalsDecided(s')
    decreases |acts|
  {
    hide Exclusive, OneDecision, IssuedOnce, TerminalDecided, AllowedFor, Next, Enabled;
    if acts != [] {
      var u := Next(signer, s, acts[0]);
      forall sid | sid in u.store
        ensures TerminalDecided(u, sid)
      {
        TerminalKept(signer, s, acts[0], sid);
      }
      forall t | t in u.threads && Sends(u.threads[t])
        ensures AllowedFor(u.log, u.threads[t].sess.sessionId)
      {
        SendersAllowed(signer, s, acts[0], t);
      }
      RaceInvKept(signer, s, acts[0]);
      RunKeepsTerminals(signer, u, acts[1..], s');
    }
  }

  /**
   In every interleaving a session that is FAILED was decided, or the thread that failed it is about to deny it;
   and a session that is DONE was allowed. With at most one decision each, that is exactly one.
   */
  lemma TerminalMeansDecided(signer: State.Signer, s: Sys, sid: Sid)
    requires Reachable(signer, s) && sid in s.store
    ensures s.store[sid].status == Failed ==> Decided(s.log, sid) || DenyComing(s, sid)
    ensures s.store[sid].status == Done ==> AllowedFor(s.log, sid)
  {
    hide Decided, DenyComing, AllowedFor;
    var acts :| Run(signer, Init, acts, s);
    RunKeepsTerminals(signer, Init, acts, s);
    assert TerminalDecided(s, sid);
  }

  // ----- an authenticated session ends well -----

  ghost predicate Finishing(s: Sys, sid: Sid) {
    exists t :: t in s.threads && s.threads[t].Promoted? && s.threads[t].sess.sessionId == sid
  }

  /** An authenticated session that is still stored is DONE, or its thread is about to mark it so. */
  ghost predicate AuthenticatedSettled(s: Sys) {
    forall i :: 0 <= i < |s.log| && s.log[i].Authenticated? ==>
      var sid := s.log[i].sess.sessionId;
      sid in s.issued && (sid in s.store ==> s.store[sid].status == Done || Finishing(s, sid))
  }

  lemma FinishingStays(signer: State.Signer, s: Sys, a: Action, sid: Sid)
    requires Enabled(s, a) && Finishing(s, sid)
    ensures var u := Next(signer, s, a); Finishing(u, sid) || (sid in u.store ==> u.store[sid].status == Done)
  {
    hide Evaluate, State.DecodeState, State.TrimState, K.Enabled, K.Next;
    var u := Next(signer, s, a);
    var t :| t in s.threads && s.threads[t].Promoted? && s.threads[t].sess.sessionId == sid;
    if !(t in u.threads && u.threads[t] == s.threads[t]) {
      assert a == MarkDone(t);
    }
  }

  lemma NewlyFinishing(signer: State.Signer, s: Sys, a: Action, i: nat)
    requires IssuedOnce(s) && Enabled(s, a)
    requires |s.log| <= i < |Next(signer, s, a).log| && Next(signer, s, a).log[i].Authenticated?
    ensures var u := Next(signer, s, a); u.log[i].sess.sessionId in u.issued && Finishing(u, u.log[i].sess.sessionId)
  {
    hide Evaluate, State.DecodeState, State.TrimState, K.Enabled, K.Next;
    var u := Next(signer, s, a);
    assert a.MarkAuthenticated? && Names(s.threads[a.t], s.threads[a.t].sess.sessionId);
    assert u.threads[a.t].Promoted?;
  }

  lemma SettledKept(signer: State.Signer, s: Sys, a: Action)
    requires RaceInv(s) && AuthenticatedSettled(s) && Enabled(s, a)
    ensures AuthenticatedSettled(Next(signer, s, a))
  {
    hide Exclusive, OneDecision, IssuedOnce, Next, Enabled, Finishing;
    var u := Next(signer, s, a);
    LogGrows(signer, s, a);
    forall i | 0 <= i < |u.log| && u.log[i].Authenticated?
      ensures var sid := u.log[i].sess.sessionId;
              sid in u.issued && (sid in u.store ==> u.store[sid].status == Done || Finishing(u, sid))
    {
      var sid := u.log[i].sess.sessionId;
      if i >= |s.log| {
        NewlyFinishing(signer, s, a, i);
      } else {
        DroppedStaysDropped(signer, s, a, sid);
        if Finishing(s, sid) {
          FinishingStays(signer, s, a, sid);
        } else if sid in s.store {
          StepKeepsTerminal(signer, s, a, sid);
        }
      }
    }
  }

  lemma {:induction false} RunKeepsSettled(signer: State.Signer, s: Sys, acts: seq<Action>, s': Sys)
    requires RaceInv(s) && AuthenticatedSettled(s) && Run(signer, s, acts, s')
    ensures AuthenticatedSettled(s')
    decreases |acts|
  {
    hide RaceInv, AuthenticatedSettled, Next, Enabled;
    if acts != [] {
      SettledKept(signer, s, acts[0]);
      RaceInvKept(signer, s, acts[0]);
      RunKeepsSettled(signer, Next(signer, s, acts[0]), acts[1..], s');
    }
  }

  /** In every interleaving a session that was authenticated is never FAILED or PENDING again: it ends DONE. */
  lemma AuthenticatedEndsDone(signer: State.Signer, s: Sys, i: nat)
    requires Reachable(signer, s) && i < |s.log| && s.log[i].Authenticated? && s.log[i].sess.sessionId in s.store
    ensures s.store[s.log[i].sess.sessionId].status == Done || Finishing(s, s.log[i].sess.sessionId)
  {
    hide Finishing;
    var acts :| Run(signer, Init, acts, s);
    RunKeepsSettled(signer, Init, acts, s);
  }

  // ----- what stands behind an allow -----

  /** Before position `n`, a CONNECT was accepted with exactly this session. */
  ghost predicate AcceptedBefore(log: seq<Entry>, n: nat, sess: PendingSession)
    requires n <= |log|
  {
    exists a :: 0 <= a < n && log[a] == Accepted(sess.(status := SessionStatus.Pending))
  }

  /** Before position `n`, thread `t` verified the state of its request, which names session `sid`. */
  ghost predicate VerifiedBefore(log: seq<Entry>, n: nat, t: nat, req: Request, sid: Sid)
    requires n <= |log|
  {
    exists v :: 0 <= v < n && log[v].StateOk? && log[v].t == t && log[v].rawState == req.rawState && log[v].sid == sid
  }

  /** Before position `n`, thread `t` won the session, after its CONNECT and after its own verification. */
  ghost predicate WonBefore(log: seq<Entry>, n: nat, t: nat, req: Request, sess: PendingSession)
    requires n <= |log|
  {
    exists w :: 0 <= w < n && log[w] == Won(t, sess)
                && AcceptedBefore(log, w, sess) && VerifiedBefore(log, w, t, req, sess.sessionId)
  }

  /** A logged verification really verified, and the state was not expired. */
  predicate StateChecked(signer: State.Signer, e: Entry)
    requires e.StateOk?
  {
    var p := State.DecodeState(State.TrimState(e.rawState), signer, e.now);
    p.Ok? && p.value.sid == e.sid && e.now <= p.value.exp
  }

  ghost predicate Justified(log: seq<Entry>, i: nat)
    requires i < |log| && log[i].Allowed?
  {
    WonBefore(log, i, log[i].t, log[i].req, log[i].sess) && Evaluate(log[i].sess, log[i].req).Pass?
  }

  ghost predicate Provenance(signer: State.Signer, s: Sys) {
    && (forall i :: 0 <= i < |s.log| && s.log[i].StateOk? ==> StateChecked(signer, s.log[i]))
    && (forall sid :: sid in s.store ==> AcceptedBefore(s.log, |s.log|, s.store[sid]))
    && (forall t :: t in s.threads && s.threads[t].Verified? ==>
          VerifiedBefore(s.log, |s.log|, t, s.threads[t].req, s.threads[t].sid))
    && (forall t :: t in s.threads && s.threads[t].Checking? ==>
          WonBefore(s.log, |s.log|, t, s.threads[t].req, s.threads[t].sess))
    && (forall i :: 0 <= i < |s.log| && s.log[i].Allowed? ==> Justified(s.log, i))
  }

  lemma LaterToo(log: seq<Entry>, more: seq<Entry>, n: nat, m: nat)
    requires log <= more && n <= |log| && n <= m <= |more|
    ensures forall sess :: AcceptedBefore(log, n, sess) ==> AcceptedBefore(more, m, sess)
    ensures forall t, req, sid :: VerifiedBefore(log, n, t, req, sid) ==> VerifiedBefore(more, m, t, req, sid)
  {
    forall sess | AcceptedBefore(log, n, sess)
      ensures AcceptedBefore(more, m, sess)
    {
      var a :| 0 <= a < n && log[a] == Accepted(sess.(status := SessionStatus.Pending));
      assert more[a] == log[a];
    }
    forall t, req, sid | VerifiedBefore(log, n, t, req, sid)
      ensures VerifiedBefore(more, m, t, req, sid)
    {
      var v :| 0 <= v < n && log[v].StateOk? && log[v].t == t && log[v].rawState == req.rawState && log[v].sid == sid;
      assert more[v] == log[v];
    }
  }

  lemma WonLaterToo(log: seq<Entry>, more: seq<Entry>, n: nat, m: nat, t: nat, req: Request, sess: PendingSession)
    requires log <= more && n <= |log| && n <= m <= |more| && WonBefore(log, n, t, req, sess)
    ensures WonBefore(more, m, t, req, sess)
  {
    hide AcceptedBefore, VerifiedBefore;
    var w :| 0 <= w < n && log[w] == Won(t, sess)
             && AcceptedBefore(log, w, sess) && VerifiedBefore(log, w, t, req, sess.sessionId);
    LaterToo(log, more, w, w);
    assert more[w] == log[w];
  }

  lemma LogGrows(signer: State.Signer, s: Sys, a: Action)
    requires Enabled(s, a)
    ensures s.log <= Next(signer, s, a).log
  {
    hide Evaluate, State.DecodeState, State.TrimState, K.Enabled, K.Next;
  }

  lemma VerificationsKept(signer: State.Signer, s: Sys, a: Action)
    requires Provenance(signer, s) && Enabled(s, a)
    ensures forall i :: 0 <= i < |Next(signer, s, a).log| && Next(signer, s, a).log[i].StateOk? ==>
              StateChecked(signer, Next(signer, s, a).log[i])
  {
    hide AcceptedBefore, VerifiedBefore, WonBefore, Justified, Evaluate, K.Enabled, K.Next, State.TrimState;
    if a.Verify? {
      var raw := State.TrimState(s.threads[a.t].req.rawState);
      if State.DecodeState(raw, signer, a.now).Ok? {
        State.DecodedIsSigned(raw, signer, a.now);
      }
    }
    hide State.DecodeState;
  }

  lemma StoreProvenance(signer: State.Signer, s: Sys, a: Action, sid: Sid)
    requires Provenance(signer, s) && Enabled(s, a) && sid in Next(signer, s, a).store
    ensures AcceptedBefore(Next(signer, s, a).log, |Next(signer, s, a).log|, Next(signer, s, a).store[sid])
  {
    hide VerifiedBefore, WonBefore, Justified, StateChecked, AcceptedBefore, Next, Enabled;
    var u := Next(signer, s, a);
    LogGrows(signer, s, a);
    LaterToo(s.log, u.log, |s.log|, |u.log|);
    StoredSession(signer, s, a, sid);
    if a.Accept? && sid == a.sess.sessionId {
      JustAccepted(u.log, a.sess);
    } else {
      StatusIrrelevant(u.log, |u.log|, s.store[sid], u.store[sid]);
    }
  }

  /** A stored session is the one just accepted, or was stored before and changed its status at most. */
  lemma StoredSession(signer: State.Signer, s: Sys, a: Action, sid: Sid)
    requires Enabled(s, a) && sid in Next(signer, s, a).store
    ensures var u := Next(signer, s, a);
            if a.Accept? && sid == a.sess.sessionId then
              && u.store[sid] == a.sess && a.sess.status == SessionStatus.Pending
              && u.log != [] && u.log[|u.log| - 1] == Accepted(a.sess)
            else
              && sid in s.store
              && u.store[sid].(status := SessionStatus.Pending) == s.store[sid].(status := SessionStatus.Pending)
  {
    hide Evaluate, K.Enabled, K.Next, State.TrimState, State.DecodeState;
  }

  lemma JustAccepted(log: seq<Entry>, sess: PendingSession)
    requires log != [] && log[|log| - 1] == Accepted(sess) && sess.status == SessionStatus.Pending
    ensures AcceptedBefore(log, |log|, sess)
  {
  }

  lemma StatusIrrelevant(log: seq<Entry>, n: nat, a: PendingSession, b: PendingSession)
    requires n <= |log| && AcceptedBefore(log, n, a)
    requires a.(status := SessionStatus.Pending) == b.(status := SessionStatus.Pending)
    ensures AcceptedBefore(log, n, b)
  {
  }

  lemma ThreadProvenance(signer: State.Signer, s: Sys, a: Action, t: nat)
    requires Provenance(signer, s) && RaceInv(s) && Enabled(s, a) && t in Next(signer, s, a).threads
    ensures var u := Next(signer, s, a);
            && (u.threads[t].Verified? ==> VerifiedBefore(u.log, |u.log|, t, u.threads[t].req, u.threads[t].sid))
            && (u.threads[t].Checking? ==> WonBefore(u.log, |u.log|, t, u.threads[t].req, u.threads[t].sess))
  {
    hide AcceptedBefore, WonBefore, Exclusive, OneDecision, Justified, Evaluate, K.Enabled, K.Next, State.TrimState,
         State.DecodeState;
    var u := Next(signer, s, a);
    LogGrows(signer, s, a);
    var th := u.threads[t];
    if t in s.threads && s.threads[t] == th {
      if th.Verified? {
        LaterToo(s.log, u.log, |s.log|, |u.log|);
      } else if th.Checking? {
        WonLaterToo(s.log, u.log, |s.log|, |u.log|, t, th.req, th.sess);
      }
    } else if th.Verified? {
      assert u.log[|s.log|].StateOk?;
    } else if th.Checking? {
      WinnerProvenance(signer, s, t);
    }
  }

  lemma WinnerProvenance(signer: State.Signer, s: Sys, t: nat)
    requires Provenance(signer, s) && IssuedOnce(s) && Enabled(s, Try(t)) && IsPending(s.store, s.threads[t].sid)
    ensures var u, th := Next(signer, s, Try(t)), s.threads[t]; WonBefore(u.log, |u.log|, t, th.req, s.store[th.sid])
  {
    hide AcceptedBefore, VerifiedBefore, Justified, StateChecked;
    var u, sess := Next(signer, s, Try(t)), s.store[s.threads[t].sid];
    LaterToo(s.log, u.log, |s.log|, |s.log|);
    assert u.log[|s.log|] == Won(t, sess);
  }

  lemma AllowProvenance(signer: State.Signer, s: Sys, a: Action, i: nat)
    requires Provenance(signer, s) && Enabled(s, a) && i < |Next(signer, s, a).log|
        && Next(signer, s, a).log[i].Allowed?
    ensures Justified(Next(signer, s, a).log, i)
  {
    hide AcceptedBefore, VerifiedBefore, WonBefore, Evaluate, K.Enabled, K.Next, State.TrimState, State.DecodeState;
    var u := Next(signer, s, a);
    LogGrows(signer, s, a);
    if i < |s.log| {
      assert u.log[i] == s.log[i];
      assert Justified(s.log, i);
      WonLaterToo(s.log, u.log, i, i, s.log[i].t, s.log[i].req, s.log[i].sess);
    } else {
      var e := u.log[i];
      assert a.Judge? && i == |s.log| && s.threads[a.t] == Checking(e.req, e.sess) && e.t == a.t;
      WonLaterToo(s.log, u.log, |s.log|, |s.log|, a.t, e.req, e.sess);
    }
  }

  lemma ProvenanceKept(signer: State.Signer, s: Sys, a: Action)
    requires RaceInv(s) && Provenance(signer, s) && Enabled(s, a)
    ensures Provenance(signer, Next(signer, s, a))
  {
    hide AcceptedBefore, VerifiedBefore, WonBefore, Justified, Enabled, Next, RaceInv, StateChecked;
    var u := Next(signer, s, a);
    VerificationsKept(signer, s, a);
    forall sid | sid in u.store
      ensures AcceptedBefore(u.log, |u.log|, u.store[sid])
    {
      StoreProvenance(signer, s, a, sid);
    }
    forall t | t in u.threads
      ensures u.threads[t].Verified? ==> VerifiedBefore(u.log, |u.log|, t, u.threads[t].req, u.threads[t].sid)
      ensures u.threads[t].Checking? ==> WonBefore(u.log, |u.log|, t, u.threads[t].req, u.threads[t].sess)
    {
      ThreadProvenance(signer, s, a, t);
    }
    forall i | 0 <= i < |u.log| && u.log[i].Allowed?
      ensures Justified(u.log, i)
    {
      AllowProvenance(signer, s, a, i);
    }
  }

  lemma {:induction false} RunKeepsProvenance(signer: State.Signer, s: Sys, acts: seq<Action>, s': Sys)
    requires RaceInv(s) && Provenance(signer, s) && Run(signer, s, acts, s')
    ensures RaceInv(s') && Provenance(signer, s')
    decreases |acts|
  {
    hide RaceInv, Provenance, Next, Enabled;
    if acts != [] {
      RaceInvKept(signer, s, acts[0]);
      ProvenanceKept(signer, s, acts[0]);
      RunKeepsProvenance(signer, Next(signer, s, acts[0]), acts[1..], s');
    }
  }

  lemma ReachableProvenance(signer: State.Signer, s: Sys)
    requires Reachable(signer, s)
    ensures Provenance(signer, s)
  {
    hide AcceptedBefore, VerifiedBefore, WonBefore, Justified;
    var acts :| Run(signer, Init, acts, s);
    RunKeepsProvenance(signer, Init, acts, s);
  }

  /**
   Every allow carries the CID and KID of the session that an earlier CONNECT was accepted with; its own
   request verified an unexpired state naming that session and then won it from PENDING; and the request
   passed the checks: names match under cross-check, and the required group is held.
   */
  lemma AllowIsJustified(signer: State.Signer, s: Sys, i: nat)
    requires Reachable(signer, s) && i < |s.log| && s.log[i].Allowed?
    ensures Justified(s.log, i)
    ensures forall v :: 0 <= v < |s.log| && s.log[v].StateOk? ==> StateChecked(signer, s.log[v])
  {
    ReachableProvenance(signer, s);
  }

  // ----- every decision is about an accepted session -----

  function SessionOf(th: Thread): Option<PendingSession> {
    if th.Received? || th.Verified? || th.Ended? then None else Some(th.sess)
  }

  ghost predicate AllAccepted(s: Sys) {
    && (forall t :: t in s.threads && SessionOf(s.threads[t]).Some? ==>
          AcceptedBefore(s.log, |s.log|, SessionOf(s.threads[t]).value))
    && (forall i :: 0 <= i < |s.log| && Decides(s.log[i]).Some? ==> AcceptedBefore(s.log, |s.log|, s.log[i].sess))
  }

  /** Where a thread's session comes from. */
  lemma ThreadSession(signer: State.Signer, s: Sys, a: Action, t: nat)
    requires Enabled(s, a) && t in Next(signer, s, a).threads && SessionOf(Next(signer, s, a).threads[t]).Some?
    ensures var x := SessionOf(Next(signer, s, a).threads[t]);
            || (t in s.threads && SessionOf(s.threads[t]) == x)
            || (exists sid :: sid in s.store && s.store[sid] == x.value)
            || (a.Accept? && x == Some(a.sess))
  {
    hide Evaluate, K.Enabled, K.Next, State.TrimState, State.DecodeState;
  }

  lemma DecisionSession(signer: State.Signer, s: Sys, a: Action, i: nat)
    requires Enabled(s, a) && |s.log| <= i < |Next(signer, s, a).log| && Decides(Next(signer, s, a).log[i]).Some?
    ensures !a.Accept? && !a.Arrive? && !a.Supersede? && !a.Drop? && !a.LinkStep?
    ensures a.t in s.threads && SessionOf(s.threads[a.t]) == Some(Next(signer, s, a).log[i].sess)
  {
    hide Evaluate, K.Enabled, K.Next, State.TrimState, State.DecodeState;
  }

  lemma AllAcceptedKept(signer: State.Signer, s: Sys, a: Action)
    requires AllAccepted(s) && Provenance(signer, s) && Enabled(s, a)
    ensures AllAccepted(Next(signer, s, a))
  {
    hide AcceptedBefore, VerifiedBefore, WonBefore, Justified, StateChecked, Next, Enabled;
    var u := Next(signer, s, a);
    LogGrows(signer, s, a);
    LaterToo(s.log, u.log, |s.log|, |u.log|);
    forall t | t in u.threads && SessionOf(u.threads[t]).Some?
      ensures AcceptedBefore(u.log, |u.log|, SessionOf(u.threads[t]).value)
    {
      ThreadSession(signer, s, a, t);
      if a.Accept? {
        AcceptLogs(signer, s, a);
      }
    }
    forall i | 0 <= i < |u.log| && Decides(u.log[i]).Some?
      ensures AcceptedBefore(u.log, |u.log|, u.log[i].sess)
    {
      if i >= |s.log| {
        DecisionSession(signer, s, a, i);
      }
    }
  }

  lemma AcceptLogs(signer: State.Signer, s: Sys, a: Action)
    requires a.Accept? && Enabled(s, a)
    ensures var log := Next(signer, s, a).log; log == s.log + [Accepted(a.sess)] && AcceptedBefore(log, |log|, a.sess)
  {
    JustAccepted(s.log + [Accepted(a.sess)], a.sess);
  }

  lemma {:induction false} RunKeepsAllAccepted(signer: State.Signer, s: Sys, acts: seq<Action>, s': Sys)
    requires RaceInv(s) && Provenance(signer, s) && AllAccepted(s) && Run(signer, s, acts, s')
    ensures AllAccepted(s')
    decreases |acts|
  {
    hide RaceInv, Provenance, AllAccepted, Next, Enabled;
    if acts != [] {
      AllAcceptedKept(signer, s, acts[0]);
      RaceInvKept(signer, s, acts[0]);
      ProvenanceKept(signer, s, acts[0]);
      RunKeepsAllAccepted(signer, Next(signer, s, acts[0]), acts[1..], s');
    }
  }

  lemma ReachableAllAccepted(signer: State.Signer, s: Sys)
    requires Reachable(signer, s)
    ensures AllAccepted(s)
  {
    hide AcceptedBefore;
    var acts :| Run(signer, Init, acts, s);
    RunKeepsAllAccepted(signer, Init, acts, s);
  }

  // ----- promotion only after SUCCESS -----

  function AllowRequest(sess: PendingSession, id: nat): B.Request {
    B.Request(id, ClientAuth(sess))
  }

  ghost predicate AckInv(s: Sys) {
    && K.Inv(s.link)
    && (forall t :: t in s.threads && s.threads[t].Sending? ==>
          K.Carries(s.link, s.threads[t].id, ClientAuth(s.threads[t].sess)))
    && (forall t :: t in s.threads && s.threads[t].Acked? ==>
          K.Succeeded(s.link, AllowRequest(s.threads[t].sess, s.threads[t].id)))
    && (forall i :: 0 <= i < |s.log| && s.log[i].Authenticated? ==>
          K.Succeeded(s.link, AllowRequest(s.log[i].sess, s.log[i].id)))
  }

  /** The step of the connections hidden in a step of the whole, if any. */
  function LinkPart(s: Sys, a: Action): Option<K.Action>
    requires Enabled(s, a)
  {
    match a
    case LinkStep(b) => Some(b)
    case Judge(t, id) =>
      if Evaluate(s.threads[t].sess, s.threads[t].req).Pass? then Some(SubmitAllow(s.threads[t].sess, id)) else None
    case _ => None
  }

  lemma LinkMoves(signer: State.Signer, s: Sys, a: Action)
    requires Enabled(s, a)
    ensures var p, u := LinkPart(s, a), Next(signer, s, a);
            && (p.None? ==> u.link == s.link)
            && (p.Some? ==> K.Enabled(s.link, p.value) && u.link == K.Next(s.link, p.value))
  {
    hide K.Next, K.Enabled, Evaluate, State.DecodeState, State.TrimState, ClientAuth;
  }

  lemma LinkKeeps(signer: State.Signer, s: Sys, a: Action)
    requires Enabled(s, a) && K.Inv(s.link)
    ensures var u := Next(signer, s, a);
            && K.Inv(u.link)
            && (forall r :: K.Succeeded(s.link, r) ==> K.Succeeded(u.link, r))
            && (forall id, command :: K.Carries(s.link, id, command) ==> K.Carries(u.link, id, command))
  {
    hide K.Inv, K.Next, K.Enabled, K.Succeeded, K.Carries, Next, Enabled, LinkPart;
    LinkMoves(signer, s, a);
    var p, u := LinkPart(s, a), Next(signer, s, a);
    if p.Some? {
      K.InvKept(s.link, p.value);
      forall r | K.Succeeded(s.link, r)
        ensures K.Succeeded(u.link, r)
      {
        K.SucceededKept(s.link, p.value, r);
      }
      forall id, command | K.Carries(s.link, id, command)
        ensures K.Carries(u.link, id, command)
      {
        K.CarriesKept(s.link, p.value, id, command);
      }
    }
  }

  lemma AckInvKept(signer: State.Signer, s: Sys, a: Action)
    requires AckInv(s) && Enabled(s, a)
    ensures AckInv(Next(signer, s, a))
  {
    hide K.Inv, K.Succeeded, K.Carries, Next, Enabled, AllowRequest, ClientAuth;
    var u := Next(signer, s, a);
    LinkKeeps(signer, s, a);
    forall t | t in u.threads && !(t in s.threads && s.threads[t] == u.threads[t])
      ensures u.threads[t].Sending? ==> K.Carries(u.link, u.threads[t].id, ClientAuth(u.threads[t].sess))
      ensures u.threads[t].Acked? ==> K.Succeeded(u.link, AllowRequest(u.threads[t].sess, u.threads[t].id))
    {
      if u.threads[t].Sending? {
        NewlySending(signer, s, a, t);
      } else if u.threads[t].Acked? {
        NewlyAcked(signer, s, a, t);
      }
    }
    forall i | 0 <= i < |u.log| && u.log[i].Authenticated?
      ensures K.Succeeded(u.link, AllowRequest(u.log[i].sess, u.log[i].id))
    {
      LogGrows(signer, s, a);
      if i >= |s.log| {
        NewlyAuthenticated(signer, s, a, i);
      }
    }
  }

  lemma NewlySending(signer: State.Signer, s: Sys, a: Action, t: nat)
    requires K.Inv(s.link) && Enabled(s, a) && t in Next(signer, s, a).threads && Next(signer, s, a).threads[t].Sending?
    requires !(t in s.threads && s.threads[t] == Next(signer, s, a).threads[t])
    ensures var u := Next(signer, s, a); K.Carries(u.link, u.threads[t].id, ClientAuth(u.threads[t].sess))
  {
    hide K.Inv, K.Next, K.Enabled, Evaluate, K.Carries, State.DecodeState, State.TrimState, ToCommand;
    assert a.Judge? && t == a.t;
    K.SubmitCarries(s.link, B.Request(a.id, ClientAuth(s.threads[t].sess)));
  }

  lemma NewlyAcked(signer: State.Signer, s: Sys, a: Action, t: nat)
    requires AckInv(s) && Enabled(s, a) && t in Next(signer, s, a).threads && Next(signer, s, a).threads[t].Acked?
    requires !(t in s.threads && s.threads[t] == Next(signer, s, a).threads[t])
    ensures var u := Next(signer, s, a); K.Succeeded(u.link, AllowRequest(u.threads[t].sess, u.threads[t].id))
  {
    hide K.Inv, K.Next, K.Enabled, Evaluate, K.Succeeded, K.Carries, K.Acked, State.DecodeState, State.TrimState,
         ToCommand;
    assert a.AckOk? && t == a.t;
    DecisionContract(Allow(s.threads[t].sess.cid, s.threads[t].sess.kid));
    K.AckSucceeded(s.link, AllowRequest(s.threads[t].sess, s.threads[t].id));
  }

  lemma NewlyAuthenticated(signer: State.Signer, s: Sys, a: Action, i: nat)
    requires Enabled(s, a) && |s.log| <= i < |Next(signer, s, a).log| && Next(signer, s, a).log[i].Authenticated?
    ensures a.MarkAuthenticated? && a.t in s.threads && Next(signer, s, a).link == s.link
    ensures var e := Next(signer, s, a).log[i]; s.threads[a.t] == Acked(e.sess, e.id)
  {
    hide K.Next, K.Enabled, Evaluate, State.DecodeState, State.TrimState;
  }

  lemma {:induction false} RunKeepsAckInv(signer: State.Signer, s: Sys, acts: seq<Action>, s': Sys)
    requires AckInv(s) && Run(signer, s, acts, s')
    ensures AckInv(s')
    decreases |acts|
  {
    hide AckInv, Next, Enabled;
    if acts != [] {
      AckInvKept(signer, s, acts[0]);
      RunKeepsAckInv(signer, Next(signer, s, acts[0]), acts[1..], s');
    }
  }

  // ----- the request of a session -----

  /** Thread states that follow an allow. */
  predicate AfterAllow(th: Thread) {
    th.Sending? || th.Acked? || th.Promoted?
  }

  /** The log holds the allow of this session, handed to the broker as request `id`. */
  ghost predicate AllowedAs(log: seq<Entry>, n: nat, sess: PendingSession, id: nat)
    requires n <= |log|
  {
    exists i :: 0 <= i < n && log[i].Allowed? && log[i].sess == sess && log[i].id == id
  }

  /** Each allow has a request of its own, and what follows an allow remembers its session and request. */
  ghost predicate RequestsOwn(s: Sys) {
    && (forall i :: 0 <= i < |s.log| && s.log[i].Allowed? ==> s.log[i].id in s.link.live.issued)
    && (forall i, j :: 0 <= i < j < |s.log| && s.log[i].Allowed? && s.log[j].Allowed? ==> s.log[i].id != s.log[j].id)
    && (forall t :: t in s.threads && AfterAllow(s.threads[t]) ==>
          AllowedAs(s.log, |s.log|, s.threads[t].sess, s.threads[t].id))
    && (forall i :: 0 <= i < |s.log| && s.log[i].Authenticated? ==> AllowedAs(s.log, i, s.log[i].sess, s.log[i].id))
  }

  lemma IssuedGrows(signer: State.Signer, s: Sys, a: Action)
    requires Enabled(s, a)
    ensures s.link.live.issued <= Next(signer, s, a).link.live.issued
  {
    hide Next, Enabled, K.Next, K.Enabled, LinkPart;
    LinkMoves(signer, s, a);
    var p := LinkPart(s, a);
    if p.Some? {
      LinkIssuedGrows(s.link, p.value);
    }
  }

  lemma LinkIssuedGrows(link: K.State, b: K.Action)
    requires K.Enabled(link, b)
    ensures link.live.issued <= K.Next(link, b).live.issued
  {
    hide B.Next, B.Enabled;
    if b.Step? {
      K.IssuedGrows(link.live, b.b);
    }
  }

  lemma AllowedLaterToo(log: seq<Entry>, more: seq<Entry>, n: nat, m: nat, sess: PendingSession, id: nat)
    requires log <= more && n <= |log| && n <= m <= |more| && AllowedAs(log, n, sess, id)
    ensures AllowedAs(more, m, sess, id)
  {
    var i :| 0 <= i < n && log[i].Allowed? && log[i].sess == sess && log[i].id == id;
    assert more[i] == log[i];
  }

  /** The thread has made an allow of this session with this request. */
  predicate Continues(th: Thread, sess: PendingSession, id: nat) {
    AfterAllow(th) && th.sess == sess && th.id == id
  }

  /** What a step adds for requests: an allow with a new one, or a step of a thread that keeps its own. */
  lemma StepRequests(signer: State.Signer, s: Sys, a: Action)
    requires Enabled(s, a)
    ensures var u := Next(signer, s, a);
            && (u.log == s.log || u.log == s.log + [u.log[|s.log|]])
            && (forall t :: t in u.threads && AfterAllow(u.threads[t]) ==>
                  || (t in s.threads && Continues(s.threads[t], u.threads[t].sess, u.threads[t].id))
                  || (|u.log| > |s.log| && u.log[|s.log|].Allowed?
                      && u.log[|s.log|].sess == u.threads[t].sess && u.log[|s.log|].id == u.threads[t].id))
            && (|u.log| > |s.log| && u.log[|s.log|].Authenticated? ==>
                  exists t :: t in s.threads && Continues(s.threads[t], u.log[|s.log|].sess, u.log[|s.log|].id))
            && (|u.log| > |s.log| && u.log[|s.log|].Allowed? ==>
                  u.log[|s.log|].id !in s.link.live.issued && u.log[|s.log|].id in u.link.live.issued)
  {
    hide Evaluate, State.DecodeState, State.TrimState, ToCommand, ContractOf, B.Enabled, B.Next;
    if a.Judge? {
      SubmitIssues(s.link, s.threads[a.t].sess, a.id);
    }
    if a.MarkAuthenticated? {
      assert Continues(s.threads[a.t], s.threads[a.t].sess, s.threads[a.t].id);
    }
  }

  lemma SubmitIssues(link: K.State, sess: PendingSession, id: nat)
    requires K.Enabled(link, SubmitAllow(sess, id))
    ensures id !in link.live.issued && id in K.Next(link, SubmitAllow(sess, id)).live.issued
  {
    hide ContractOf, ToCommand;
  }

  lemma RequestsKept(signer: State.Signer, s: Sys, a: Action)
    requires RequestsOwn(s) && Enabled(s, a)
    ensures RequestsOwn(Next(signer, s, a))
  {
    hide Next, Enabled, AllowedAs;
    var u := Next(signer, s, a);
    StepRequests(signer, s, a);
    IssuedGrows(signer, s, a);
    forall t | t in u.threads && AfterAllow(u.threads[t])
      ensures AllowedAs(u.log, |u.log|, u.threads[t].sess, u.threads[t].id)
    {
      var th := u.threads[t];
      if AllowedAs(s.log, |s.log|, th.sess, th.id) {
        AllowedLaterToo(s.log, u.log, |s.log|, |u.log|, th.sess, th.id);
      } else {
        JustAllowed(u.log, th.sess, th.id);
      }
    }
    forall i | 0 <= i < |u.log| && u.log[i].Authenticated?
      ensures AllowedAs(u.log, i, u.log[i].sess, u.log[i].id)
    {
      AllowedLaterToo(s.log, u.log, if i < |s.log| then i else |s.log|, i, u.log[i].sess, u.log[i].id);
    }
  }

  lemma JustAllowed(log: seq<Entry>, sess: PendingSession, id: nat)
    requires log != [] && log[|log| - 1].Allowed? && log[|log| - 1].sess == sess && log[|log| - 1].id == id
    ensures AllowedAs(log, |log|, sess, id)
  {
  }

  lemma {:induction false} RunKeepsRequests(signer: State.Signer, s: Sys, acts: seq<Action>, s': Sys)
    requires RequestsOwn(s) && Run(signer, s, acts, s')
    ensures RequestsOwn(s')
    decreases |acts|
  {
    hide RequestsOwn, Next, Enabled;
    if acts != [] {
      RequestsKept(signer, s, acts[0]);
      RunKeepsRequests(signer, Next(signer, s, acts[0]), acts[1..], s');
    }
  }

  /**
   MarkAuthenticated is reached only after this session's own allow, and after OpenVPN answered SUCCESS to the
   very request that carried it; no other allow shares that request.
   */
  lemma AuthenticatedAfterSuccess(signer: State.Signer, s: Sys, i: nat)
    requires Reachable(signer, s) && i < |s.log| && s.log[i].Authenticated?
    ensures K.Succeeded(s.link, AllowRequest(s.log[i].sess, s.log[i].id))
    ensures AllowedAs(s.log, i, s.log[i].sess, s.log[i].id)
    ensures forall j, k :: 0 <= j < k < |s.log| && s.log[j].Allowed? && s.log[k].Allowed? ==> s.log[j].id != s.log[k].id
  {
    hide K.Succeeded, ToCommand, AllowedAs;
    var acts :| Run(signer, Init, acts, s);
    RunKeepsAckInv(signer, Init, acts, s);
    RunKeepsRequests(signer, Init, acts, s);
  }

  // ----- every client-auth comes from an allow -----

  ghost predicate AllowLogged(log: seq<Entry>, command: string) {
    exists i :: 0 <= i < |log| && log[i].Allowed? && command == ClientAuth(log[i].sess)
  }

  ghost predicate AuthTraced(s: Sys) {
    forall command :: K.Sent(s.link, command) && FirstWord(command) == "client-auth" ==> AllowLogged(s.log, command)
  }

  lemma LoggedLaterToo(log: seq<Entry>, more: seq<Entry>, command: string)
    requires log <= more && AllowLogged(log, command)
    ensures AllowLogged(more, command)
  {
    var i :| 0 <= i < |log| && log[i].Allowed? && command == ClientAuth(log[i].sess);
    assert more[i] == log[i];
  }

  lemma JudgeLogs(signer: State.Signer, s: Sys, t: nat, id: nat)
    requires Enabled(s, Judge(t, id)) && Evaluate(s.threads[t].sess, s.threads[t].req).Pass?
    ensures AllowLogged(Next(signer, s, Judge(t, id)).log, ClientAuth(s.threads[t].sess))
  {
    hide K.Next, K.Enabled, Evaluate, ToCommand;
    assert Next(signer, s, Judge(t, id)).log[|s.log|].Allowed?;
  }

  lemma TraceKept(signer: State.Signer, s: Sys, a: Action)
    requires AuthTraced(s) && Enabled(s, a)
    ensures AuthTraced(Next(signer, s, a))
  {
    hide K.Next, K.Enabled, K.Sent, Evaluate, AllowLogged, Next, ClientAuth, FirstWord, OtherCommand;
    var u := Next(signer, s, a);
    LinkMoves(signer, s, a);
    LogGrows(signer, s, a);
    forall command | K.Sent(u.link, command) && FirstWord(command) == "client-auth"
      ensures AllowLogged(u.log, command)
    {
      if K.Sent(s.link, command) {
        LoggedLaterToo(s.log, u.log, command);
      } else {
        K.SentWasSubmitted(s.link, LinkPart(s, a).value, command);
        if a.LinkStep? {
          OtherIsNoAuth(command);
        } else {
          JudgeLogs(signer, s, a.t, a.id);
        }
      }
    }
  }

  lemma {:induction false} RunKeepsTrace(signer: State.Signer, s: Sys, acts: seq<Action>, s': Sys)
    requires AuthTraced(s) && Run(signer, s, acts, s')
    ensures AuthTraced(s')
    decreases |acts|
  {
    hide AuthTraced, Next, Enabled;
    if acts != [] {
      TraceKept(signer, s, acts[0]);
      RunKeepsTrace(signer, Next(signer, s, acts[0]), acts[1..], s');
    }
  }

  /**
   Every command given to a broker, on any connection of the run, whose first word is `client-auth` is the command
   of a justified allow: it names the CID and KID of a session that an earlier CONNECT was accepted with.
   */
  lemma ClientAuthIsJustified(signer: State.Signer, s: Sys, command: string)
    requires Reachable(signer, s) && K.Sent(s.link, command) && FirstWord(command) == "client-auth"
    ensures exists i :: 0 <= i < |s.log| && s.log[i].Allowed? && Justified(s.log, i)
                        && command == ToCommand(Allow(s.log[i].sess.cid, s.log[i].sess.kid))
  {
    hide ToCommand, Justified, K.Sent, FirstWord;
    var acts :| Run(signer, Init, acts, s);
    NothingSent(signer);
    RunKeepsTrace(signer, Init, acts, s);
    var i :| 0 <= i < |s.log| && s.log[i].Allowed? && command == ClientAuth(s.log[i].sess);
    AllowIsJustified(signer, s, i);
  }

  lemma NothingSent(signer: State.Signer)
    ensures AuthTraced(Init)
  {
    hide FirstWord;
  }
}
