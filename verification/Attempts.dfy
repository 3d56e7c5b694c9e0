/** The life of an attempt over runs: the retried CONNECT, and the way out of the in-flight phase. */
module Attempts {
  import opened Basics
  import opened Text
  import opened Snapshots
  import opened OwnershipRuns
  import O = Ownership
  import R = Rebuild
  import E = Election

  // ----- the conflict with a promoted attempt -----

  predicate ConnectFree(acts: seq<Action>) {
    forall k :: 0 <= k < |acts| ==> !acts[k].Connect?
  }

  /** The identity has no attempt, or still the one of `c`, which is past its in-flight phase. */
  predicate AtMostPromoted(t: O.Tables, i: Identity, c: Cid) {
    i in t.attempt ==> t.attempt[i] == c && c in t.cids && !t.cids[c].inFlight
  }

  lemma StepAtMostPromoted(env: Env, s: State, a: Action, i: Identity, c: Cid)
    requires Inv(env, s) && Enabled(env, s, a) && !a.Connect? && AtMostPromoted(s.tables, i, c)
    ensures AtMostPromoted(Next(env, s, a).tables, i, c)
    ensures i !in s.tables.attempt ==> i !in Next(env, s, a).tables.attempt
    ensures a == CleanupPromoted(c) ==> i !in Next(env, s, a).tables.attempt
  {
    hide HistoryInv, NormalizeIdentity, O.Inv, R.Reconcile, O.Establish, O.Promote, O.Disconnect, O.CleanupPromoted,
         O.ClearInFlight, StartsOf, R.ExpiredCids, R.RowCids, O.StartsExpiry, Truthful, AtMostPromoted,
         O.SetExpiry, O.RequestEviction, O.SetUsername;
    match a
    case Reconcile(snap, _) => ReconcileAttemptsShrink(env, s, snap, i, c);
    case EstablishFromEvent(d, _) => EstablishAttemptsShrink(s, d, i, c);
    case EstablishFromStatus(d) => EstablishAttemptsShrink(s, d, i, c);
    case Promote(d, now) => PromoteAttemptsShrink(s, d, now, i, c);
    case Disconnect(d) => RemovalAttemptsShrink(s, d, i, c);
    case CleanupPromoted(d) => RemovalAttemptsShrink(s, d, i, c);
    case ClearInFlight(d) => RemovalAttemptsShrink(s, d, i, c);
    case SetExpiry(x) => FieldAttemptsShrink(s, x.cid, x.at, "", i, c);
    case RequestEviction(d) => FieldAttemptsShrink(s, d, 0, "", i, c);
    case SetUsername(d, username) => FieldAttemptsShrink(s, d, 0, username, i, c);
  }

  lemma FieldAttemptsShrink(s: State, d: Cid, at: Time, username: string, i: Identity, c: Cid)
    requires AtMostPromoted(s.tables, i, c)
    ensures AtMostPromoted(O.SetExpiry(s.tables, d, at), i, c) && AtMostPromoted(O.RequestEviction(s.tables, d), i, c)
    ensures AtMostPromoted(O.SetUsername(s.tables, d, username), i, c)
    ensures O.SetExpiry(s.tables, d, at).attempt == s.tables.attempt
    ensures O.RequestEviction(s.tables, d).attempt == O.SetUsername(s.tables, d, username).attempt == s.tables.attempt
  {
  }

  lemma PromoteAttemptsShrink(s: State, d: Cid, now: Time, i: Identity, c: Cid)
    requires AtMostPromoted(s.tables, i, c)
    ensures AtMostPromoted(O.Promote(s.tables, d, now), i, c)
    ensures i !in s.tables.attempt ==> i !in O.Promote(s.tables, d, now).attempt
  {
  }

  lemma RemovalAttemptsShrink(s: State, d: Cid, i: Identity, c: Cid)
    requires O.Inv(s.tables) && AtMostPromoted(s.tables, i, c)
    ensures AtMostPromoted(O.Disconnect(s.tables, d), i, c) && AtMostPromoted(O.ClearInFlight(s.tables, d), i, c)
    ensures AtMostPromoted(O.CleanupPromoted(s.tables, d), i, c)
    ensures i !in s.tables.attempt ==>
              i !in O.Disconnect(s.tables, d).attempt && i !in O.ClearInFlight(s.tables, d).attempt
    ensures i !in s.tables.attempt || d == c ==> i !in O.CleanupPromoted(s.tables, d).attempt
  {
    hide O.LosersMarked, O.ActiveAgree;
  }

  lemma EstablishAttemptsShrink(s: State, d: Cid, i: Identity, c: Cid)
    requires O.Inv(s.tables) && AtMostPromoted(s.tables, i, c)
    ensures AtMostPromoted(O.Establish(s.tables, d), i, c)
    ensures i !in s.tables.attempt ==> i !in O.Establish(s.tables, d).attempt
  {
    if d in s.tables.cids {
      O.EstablishShape(s.tables, d);
    }
  }

  lemma ReconcileAttemptsShrink(env: Env, s: State, snap: StatusSnapshot, i: Identity, c: Cid)
    requires Inv(env, s) && Truthful(env, s.tables, snap) && AtMostPromoted(s.tables, i, c)
    ensures AtMostPromoted(R.Reconcile(s.tables, snap), i, c)
    ensures i !in s.tables.attempt ==> i !in R.Reconcile(s.tables, snap).attempt
  {
    hide E.Elect, E.Newer, O.LosersMarked, O.ActiveAgree, HistoryInv;
  }

  /**
   The retry of a CONNECT that met a promoted attempt finds the identity free: between the conflict
   and the retry the event loop handles no other CONNECT and the absent attempt is cleaned up.
   So `handleConnect` calls itself at most once.
   */
  lemma {:induction false} RetryFindsNoAttempt(env: Env, s: State, acts: seq<Action>, s': State, e: O.ConnectEvent,
      c: Cid)
    requires Inv(env, s) && Run(env, s, acts, s') && ConnectFree(acts)
    requires AtMostPromoted(s.tables, e.identity, c)
    requires e.identity !in s.tables.attempt || CleanupPromoted(c) in acts
    ensures forall supersedable :: O.Classify(s'.tables, e, supersedable) == O.NoAttempt
    decreases |acts|
  {
    if acts != [] {
      StepAtMostPromoted(env, s, acts[0], e.identity, c);
      InvKept(env, s, acts[0]);
      assert acts == [acts[0]] + acts[1..];
      assert forall k :: 0 <= k < |acts| - 1 ==> acts[1..][k] == acts[k + 1];
      RetryFindsNoAttempt(env, Next(env, s, acts[0]), acts[1..], s', e, c);
    }
  }

  /** The event loop is busy: no CONNECT is handled and no snapshot applied. */
  predicate LoopBusy(acts: seq<Action>) {
    forall k :: 0 <= k < |acts| ==> !acts[k].Connect? && !acts[k].Reconcile?
  }

  lemma {:induction false} SeenFixed(env: Env, s: State, acts: seq<Action>, s': State)
    requires Run(env, s, acts, s') && LoopBusy(acts)
    ensures s'.seen == s.seen
    decreases |acts|
  {
    if acts != [] {
      assert forall k :: 0 <= k < |acts| - 1 ==> acts[1..][k] == acts[k + 1];
      SeenFixed(env, Next(env, s, acts[0]), acts[1..], s');
    }
  }

  /**
   The retry, as one run: a CONNECT meets the promoted attempt of `p` and changes nothing; other goroutines
   take any steps while the status query is out, and the absent attempt is cleaned up; the same CONNECT, with a
   new session ID and clock, is then admitted.
   */
  lemma RetryIsAdmitted(env: Env, s: State, e: O.ConnectEvent, b: bool, p: Cid, acts: seq<Action>, m: State,
                        sid: O.Sid, now: Time, b': bool)
    requires Inv(env, s) && Enabled(env, s, Connect(e, b)) && O.Classify(s.tables, e, b) == O.PromotedAttempt(p)
    requires Run(env, Next(env, s, Connect(e, b)), acts, m) && LoopBusy(acts) && CleanupPromoted(p) in acts
    ensures Next(env, s, Connect(e, b)) == s
    ensures var again := e.(sid := sid, now := now);
            var s' := Next(env, m, Connect(again, b'));
            && Run(env, s, [Connect(e, b)] + acts + [Connect(again, b')], s')
            && O.Classify(m.tables, again, b') == O.NoAttempt
            && e.cid in s'.tables.cids && s'.tables.cids[e.cid] == O.NewRecord(again)
            && e.identity in s'.tables.attempt && s'.tables.attempt[e.identity] == e.cid
  {
    hide NormalizeIdentity, HistoryInv, O.Inv;
    var again := e.(sid := sid, now := now);
    assert O.Connect(s.tables, e, b) == s.tables;
    O.AttemptRecord(s.tables, e.identity);
    RetryFindsNoAttempt(env, s, acts, m, again, p);
    SeenFixed(env, s, acts, m);
    assert Enabled(env, m, Connect(again, b'));
    O.ConnectShape(m.tables, again, b');
    OneStep(env, s, Connect(e, b));
    OneStep(env, m, Connect(again, b'));
    RunThen(env, s, [Connect(e, b)], s, acts, m);
    RunThen(env, s, [Connect(e, b)] + acts, m, [Connect(again, b')], Next(env, m, Connect(again, b')));
  }

  // ----- an ESTABLISHED event promotes before it establishes -----

  /** A CID that has left its in-flight phase never enters it again. */
  lemma {:induction false} NeverInFlightAgain(env: Env, s: State, acts: seq<Action>, s': State, c: Cid)
    requires Inv(env, s) && Run(env, s, acts, s') && c in s.seen && NotInFlight(s.tables, c)
    ensures c in s'.seen && NotInFlight(s'.tables, c)
    decreases |acts|
  {
    if acts != [] {
      StepNotInFlight(env, s, acts[0], c);
      InvKept(env, s, acts[0]);
      NeverInFlightAgain(env, Next(env, s, acts[0]), acts[1..], s', c);
    }
  }

  lemma StepNotInFlight(env: Env, s: State, a: Action, c: Cid)
    requires Inv(env, s) && Enabled(env, s, a) && c in s.seen && NotInFlight(s.tables, c)
    ensures c in Next(env, s, a).seen && NotInFlight(Next(env, s, a).tables, c)
  {
    hide NormalizeIdentity, O.LosersMarked, O.Connect, O.Establish, R.Reconcile, UnestablishedUnanchored,
         StartsSound, AnchorsSound;
    if a.Connect? {
      O.ConnectShape(s.tables, a.e, a.supersedable);
    } else if a.EstablishFromEvent? || a.EstablishFromStatus? {
      EstablishNotInFlight(s, a.cid, c);
    } else if a.Reconcile? {
      ReconcileNotInFlight(s, a.snap, c);
    }
  }

  lemma EstablishNotInFlight(s: State, d: Cid, c: Cid)
    requires O.ActiveAgree(s.tables) && NotInFlight(s.tables, c)
    ensures NotInFlight(O.Establish(s.tables, d), c)
  {
    if d in s.tables.cids {
      O.EstablishShape(s.tables, d);
    }
  }

  lemma ReconcileNotInFlight(s: State, snap: StatusSnapshot, c: Cid)
    requires NotInFlight(s.tables, c)
    ensures NotInFlight(R.Reconcile(s.tables, snap), c)
  {
    hide E.Elect, E.Newer, R.Adoptions, R.Owners;
  }

  /** So the guard of the establishing section holds whenever the promoting section ran before it. */
  lemma EstablishAfterPromote(env: Env, s: State, acts: seq<Action>, s': State, c: Cid, now: Time)
    requires Inv(env, s) && c in s.seen && Run(env, Next(env, s, Promote(c, now)), acts, s') && env.since(c) <= now
    ensures Enabled(env, s', EstablishFromEvent(c, now))
  {
    InvKept(env, s, Promote(c, now));
    NeverInFlightAgain(env, Next(env, s, Promote(c, now)), acts, s', c);
  }
}
