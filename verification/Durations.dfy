/** Session duration over runs: the anchors of the maximum-duration timers and the REAUTH backstop. */
module Durations {
  import opened Basics
  import opened Text
  import opened Snapshots
  import opened OwnershipRuns
  import O = Ownership
  import R = Rebuild
  import A = Availability

  lemma StepAnchorNeverLater(env: Env, s: State, a: Action, c: Cid)
    requires Inv(env, s) && Enabled(env, s, a) && c in s.anchors
    ensures c in Next(env, s, a).anchors && env.since(c) <= Next(env, s, a).anchors[c] <= s.anchors[c]
  {
  }

  /** Over any run an expiry anchor, once set, never moves later. */
  lemma {:induction false} AnchorNeverLater(env: Env, s: State, acts: seq<Action>, s': State, c: Cid)
    requires Inv(env, s) && Run(env, s, acts, s') && c in s.anchors
    ensures c in s'.anchors && s'.anchors[c] <= s.anchors[c]
    decreases |acts|
  {
    if acts != [] {
      StepAnchorNeverLater(env, s, acts[0], c);
      InvKept(env, s, acts[0]);
      AnchorNeverLater(env, Next(env, s, acts[0]), acts[1..], s', c);
    }
  }

  datatype DurationCheck = Passed | Untracked | TooOld

  function ExpiryOf(t: O.Tables, cid: Cid): Option<Time> {
    if cid in t.cids then t.cids[cid].expiry else None
  }

  /** The comparison of the backstop, with the anchor that was read before. */
  function CheckAgainst(expiry: Option<Time>, now: Time, maxDuration: int): DurationCheck {
    if maxDuration <= 0 then Passed
    else if expiry.None? then Untracked
    else if now - expiry.value > maxDuration then TooOld
    else Passed
  }

  /** Without a maximum every session passes; with one, an anchored session passes up to anchor plus maximum. */
  lemma CheckExactly(expiry: Option<Time>, now: Time, maxDuration: int)
    ensures maxDuration <= 0 ==> CheckAgainst(expiry, now, maxDuration) == Passed
    ensures maxDuration > 0 ==>
              var c := CheckAgainst(expiry, now, maxDuration);
              && (c == Passed <==> expiry.Some? && now <= expiry.value + maxDuration)
              && (c == Untracked <==> expiry == None)
              && (c == TooOld <==> expiry.Some? && now > expiry.value + maxDuration)
  {
  }

  /** The session-duration backstop of a REAUTH, with the record read in `t` and the clock at `now`. */
  function CheckDuration(t: O.Tables, cid: Cid, now: Time, maxDuration: int): DurationCheck {
    CheckAgainst(ExpiryOf(t, cid), now, maxDuration)
  }

  /** No REAUTH passes later than the first anchor plus the maximum duration, whatever happens in between. */
  lemma ReauthBounded(env: Env, s: State, acts: seq<Action>, s': State, c: Cid, now: Time)
    requires Inv(env, s) && Run(env, s, acts, s') && c in s.anchors && env.maxDuration > 0
    requires CheckDuration(s'.tables, c, now, env.maxDuration).Passed?
    ensures now <= s.anchors[c] + env.maxDuration
  {
    AnchorNeverLater(env, s, acts, s', c);
    RunKeepsInv(env, s, acts, s');
  }

  /** A REAUTH of a CID that was never anchored in the run is denied: the check fails closed. */
  lemma NeverAnchoredDenied(env: Env, s: State, c: Cid, now: Time)
    requires Reachable(env, s) && env.maxDuration > 0 && c !in s.anchors
    ensures CheckDuration(s.tables, c, now, env.maxDuration).Untracked?
  {
    ReachableInv(env, s);
  }

  /** An established CID may have no anchor: its timeout cleared the attempt before the promotion. */
  lemma EstablishedWithoutAnchor(env: Env, e: O.ConnectEvent)
    requires e.cn == env.names(e.cid) && NormalizeIdentity(e.cn) == Some(e.identity) && env.since(e.cid) <= e.now
    ensures exists s :: Reachable(env, s) && e.cid in s.tables.cids && s.tables.cids[e.cid].established
                        && s.starts == multiset{} && e.cid !in s.anchors
  {
    var acts := [Connect(e, false), ClearInFlight(e.cid), Promote(e.cid, e.now), EstablishFromEvent(e.cid, e.now)];
    var s1 := Next(env, Init, acts[0]);
    var s2 := Next(env, s1, acts[1]);
    var s3 := Next(env, s2, acts[2]);
    var s4 := Next(env, s3, acts[3]);
    assert acts[1..][1..] == acts[2..] && acts[2..][1..] == acts[3..] && acts[3..][1..] == [];
    assert Run(env, s4, acts[3..][1..], s4);
    assert Run(env, s3, acts[3..], s4);
    assert Run(env, s2, acts[2..], s4);
    assert Run(env, s1, acts[1..], s4);
    assert Run(env, Init, acts, s4);
  }

  /** A status answer that finds a tracked CID established for the first time starts its timer, promoted or not. */
  lemma ConfirmedIsTimed(env: Env, s: State, c: Cid)
    requires env.maxDuration > 0 && c in s.tables.cids && !s.tables.cids[c].established
    ensures Start(c, env.since(c), false) in Next(env, s, EstablishFromStatus(c)).starts
  {
    hide O.Establish;
  }

  /** An ESTABLISHED event starts it at the event, exactly for a promoted CID that was not established before. */
  lemma EventTimesPromoted(env: Env, s: State, c: Cid, now: Time)
    requires env.maxDuration > 0 && c in s.tables.cids
    ensures Next(env, s, EstablishFromEvent(c, now)).starts ==
              if s.tables.cids[c].promoted && !s.tables.cids[c].established
              then s.starts + multiset{Start(c, now, true)} else s.starts
  {
    hide O.Establish;
  }

  /** Without a maximum duration no timer is ever started. */
  lemma NoMaximumNoTimers(env: Env, s: State, a: Action)
    requires env.maxDuration <= 0 && s.starts == multiset{} && s.overdue == multiset{} && Enabled(env, s, a)
    ensures Next(env, s, a).starts == multiset{} && Next(env, s, a).overdue == multiset{}
  {
    hide O.Establish, O.Connect, O.Classify, R.Reconcile;
    if a.Reconcile? {
      R.NothingLate(a.snap.established, a.clock, env.maxDuration);
    }
  }

  // ----- exactly which CIDs have an expiry -----

  /** The step goes on to anchor `c`: a first establishment with the guard met, or a rebuild that lists `c`. */
  predicate Triggers(env: Env, s: State, a: Action, c: Cid) {
    match a
    case EstablishFromEvent(d, _) => d == c && O.StartsExpiry(s.tables, c, false, env.maxDuration)
    case EstablishFromStatus(d) => d == c && O.StartsExpiry(s.tables, c, true, env.maxDuration)
    case Reconcile(snap, _) => env.maxDuration > 0 && c in R.RowCids(snap.established)
    case _ => false
  }

  /** The step establishes another CID in place of `c`, whose expiry it clears. */
  predicate Displaces(s: State, a: Action, c: Cid) {
    (a.EstablishFromEvent? || a.EstablishFromStatus?) && O.Displaced(s.tables, a.cid) == Some(c)
  }

  ghost predicate Starting(s: State, c: Cid) {
    exists x :: x in s.starts && x.cid == c
  }

  /** `c` has an expiry, or a goroutine is about to set it. */
  ghost predicate HasTimer(s: State, c: Cid) {
    (c in s.tables.cids && s.tables.cids[c].expiry.Some?) || Starting(s, c)
  }

  /** Whether `c` is timed after a step: triggered now, or displaced with a start still to run, or as before. */
  ghost predicate TimedBy(env: Env, s: State, a: Action, c: Cid, timed: bool) {
    if Triggers(env, s, a, c) then true else if Displaces(s, a, c) then Starting(s, c) else timed
  }

  ghost predicate Timed(env: Env, s: State, acts: seq<Action>, c: Cid, timed: bool)
    decreases |acts|
  {
    if acts == [] then timed
    else Timed(env, Next(env, s, acts[0]), acts[1..], c, TimedBy(env, s, acts[0], c, timed))
  }

  /** `timed` is right about `c` as long as `c` is tracked. */
  ghost predicate Tracks(s: State, c: Cid, timed: bool) {
    && (c in s.tables.cids ==> (HasTimer(s, c) <==> timed))
    && (timed ==> c in s.seen)
  }

  lemma StartingSeen(env: Env, s: State, c: Cid)
    requires StartsSound(env, s) && Starting(s, c)
    ensures c in s.seen
  {
  }

  lemma EstablishStarts(env: Env, s: State, cid: Cid, at: Time, fromEvent: bool, c: Cid)
    ensures Starting(Establish(env, s, cid, at, fromEvent), c) <==>
              Starting(s, c) || (cid == c && O.StartsExpiry(s.tables, c, !fromEvent, env.maxDuration))
  {
    hide O.Establish;
    var u, y := Establish(env, s, cid, at, fromEvent), Start(cid, at, fromEvent);
    if O.StartsExpiry(s.tables, cid, !fromEvent, env.maxDuration) {
      assert y in u.starts;
      forall x
        ensures x in u.starts <==> x in s.starts || x == y
      {
      }
    }
  }

  lemma EstablishExpiry(t: O.Tables, cid: Cid, c: Cid)
    requires O.ActiveAgree(t)
    ensures c in O.Establish(t, cid).cids <==> c in t.cids
    ensures c in t.cids ==>
              O.Establish(t, cid).cids[c].expiry == if O.Displaced(t, cid) == Some(c) then None else t.cids[c].expiry
  {
    if cid in t.cids {
      hide O.Establish;
      O.EstablishShape(t, cid);
    }
  }

  lemma EstablishTracks(env: Env, s: State, a: Action, at: Time, c: Cid, timed: bool)
    requires Inv(env, s) && Tracks(s, c, timed) && (a.EstablishFromEvent? || a.EstablishFromStatus?)
    ensures Tracks(Establish(env, s, a.cid, at, a.EstablishFromEvent?), c, TimedBy(env, s, a, c, timed))
  {
    hide NormalizeIdentity, O.LosersMarked, O.AttemptsAgree, O.PhasesDisjoint, UnestablishedUnanchored, AnchorsSound,
         O.Establish;
    if Starting(s, c) {
      StartingSeen(env, s, c);
    }
    hide StartsSound, Starting;
    EstablishStarts(env, s, a.cid, at, a.EstablishFromEvent?, c);
    EstablishExpiry(s.tables, a.cid, c);
  }

  lemma SetExpiryTracks(env: Env, s: State, x: Start, c: Cid, timed: bool)
    requires x in s.starts && Tracks(s, c, timed)
    ensures Tracks(Next(env, s, SetExpiry(x)), c, timed)
  {
    var u := Next(env, s, SetExpiry(x));
    forall y | y in u.starts
      ensures y in s.starts
    {
    }
    if Starting(s, c) && x.cid != c {
      var y :| y in s.starts && y.cid == c;
      assert y in u.starts;
    }
  }

  lemma {:induction false} RowsStart(rows: seq<EstablishedSession>, c: Cid)
    ensures c in R.RowCids(rows) <==> exists x :: x in StartsOf(rows) && x.cid == c
  {
    if rows != [] {
      var init, last := rows[..|rows| - 1], rows[|rows| - 1];
      assert rows == init + [last];
      RowsStart(init, c);
      var x := Start(last.cid, last.connectedAt, false);
      assert x in StartsOf(rows);
      forall y | y in StartsOf(rows)
        ensures y in StartsOf(init) || y == x
      {
      }
      forall y | y in StartsOf(init)
        ensures y in StartsOf(rows)
      {
      }
    }
  }

  lemma ReconcileTracks(env: Env, s: State, snap: StatusSnapshot, clock: Time, c: Cid, timed: bool)
    requires Inv(env, s) && Enabled(env, s, Reconcile(snap, clock)) && Tracks(s, c, timed) && env.maxDuration > 0
    ensures Tracks(Next(env, s, Reconcile(snap, clock)), c, c in R.RowCids(snap.established) || timed)
  {
    hide NormalizeIdentity, O.Inv, R.Reconcile, HistoryInv, Truthful, R.RowCids;
    var u := Next(env, s, Reconcile(snap, clock));
    RowsStart(snap.established, c);
    if c in u.tables.cids {
      ReconcileRecord(env, s, snap, c);
    }
    forall x | x in s.starts || x in StartsOf(snap.established)
      ensures x in u.starts
    {
    }
    assert Starting(u, c) <==> Starting(s, c) || c in R.RowCids(snap.established);
  }

  /** A step that starts nothing, changes no expiry and records no CID seen before. */
  lemma QuietTracks(s: State, u: State, c: Cid, timed: bool)
    requires Tracks(s, c, timed) && u.starts == s.starts && s.seen <= u.seen
    requires c in u.tables.cids && c in s.tables.cids ==> u.tables.cids[c].expiry == s.tables.cids[c].expiry
    requires c in u.tables.cids && c !in s.tables.cids ==>
        c !in s.seen && !Starting(s, c) && u.tables.cids[c].expiry.None?
    ensures Tracks(u, c, timed)
  {
  }

  lemma ConnectTracks(env: Env, s: State, e: O.ConnectEvent, supersedable: bool, c: Cid, timed: bool)
    requires Inv(env, s) && Enabled(env, s, Connect(e, supersedable)) && Tracks(s, c, timed)
    ensures Tracks(Next(env, s, Connect(e, supersedable)), c, timed)
  {
    hide NormalizeIdentity, O.Inv, UnestablishedUnanchored, AnchorsSound, O.Connect, O.Classify, Tracks;
    O.ConnectShape(s.tables, e, supersedable);
    if Starting(s, c) {
      StartingSeen(env, s, c);
    }
    if e.cid in s.tables.cids {
      assert e.cid in s.seen;
    }
    hide StartsSound;
    QuietTracks(s, Next(env, s, Connect(e, supersedable)), c, timed);
  }

  lemma StepTracks(env: Env, s: State, a: Action, c: Cid, timed: bool)
    requires Inv(env, s) && Enabled(env, s, a) && Tracks(s, c, timed) && env.maxDuration > 0
    ensures Tracks(Next(env, s, a), c, TimedBy(env, s, a, c, timed))
  {
    hide Inv, Enabled, Tracks, Establish, R.Reconcile, O.Connect, O.Classify, Starting;
    match a
    case EstablishFromEvent(_, now) => EstablishTracks(env, s, a, now, c, timed);
    case EstablishFromStatus(d) => EstablishTracks(env, s, a, env.since(d), c, timed);
    case SetExpiry(x) => SetExpiryStep(env, s, x, c, timed);
    case Reconcile(snap, clock) => ReconcileTracks(env, s, snap, clock, c, timed);
    case Connect(e, supersedable) => ConnectTracks(env, s, e, supersedable, c, timed);
    case _ => QuietTracks(s, Next(env, s, a), c, timed);
  }

  lemma SetExpiryStep(env: Env, s: State, x: Start, c: Cid, timed: bool)
    requires Enabled(env, s, SetExpiry(x)) && Tracks(s, c, timed)
    ensures Tracks(Next(env, s, SetExpiry(x)), c, timed)
  {
    hide Tracks, Next;
    SetExpiryTracks(env, s, x, c, timed);
  }

  lemma {:induction false} RunTracks(env: Env, s: State, acts: seq<Action>, s': State, c: Cid, timed: bool)
    requires Inv(env, s) && Run(env, s, acts, s') && Tracks(s, c, timed) && env.maxDuration > 0
    ensures Tracks(s', c, Timed(env, s, acts, c, timed))
    decreases |acts|
  {
    hide Inv, Enabled, Next, Tracks, TimedBy;
    if acts != [] {
      StepTracks(env, s, acts[0], c, timed);
      InvKept(env, s, acts[0]);
      RunTracks(env, Next(env, s, acts[0]), acts[1..], s', c, TimedBy(env, s, acts[0], c, timed));
    }
  }

  /**
   A tracked CID has an expiry, or is about to have one, exactly when some step of the run met the guard of the
   timer for it (it was promoted, or confirmed by a status query, at its first establishment, or a rebuild listed
   it) and no later step displaced it, unless that step found the start still to run.
   */
  lemma ExpiryIffTimed(env: Env, acts: seq<Action>, s: State, c: Cid)
    requires Run(env, Init, acts, s) && env.maxDuration > 0 && c in s.tables.cids
    ensures HasTimer(s, c) <==> Timed(env, Init, acts, c, false)
  {
    hide Inv, Run, Timed, HasTimer;
    InitInv(env);
    RunTracks(env, Init, acts, s, c, false);
  }

  /** So, once its start has run, a tracked client's REAUTH is turned away as untracked exactly when it is not timed. */
  lemma UntrackedIffNotTimed(env: Env, acts: seq<Action>, s: State, c: Cid, now: Time)
    requires Run(env, Init, acts, s) && env.maxDuration > 0 && c in s.tables.cids && !Starting(s, c)
    ensures CheckDuration(s.tables, c, now, env.maxDuration).Untracked? <==> !Timed(env, Init, acts, c, false)
  {
    hide Timed;
    ExpiryIffTimed(env, acts, s, c);
  }

  // ----- a displaced owner -----

  /** After `e` has settled, a second client of the same identity does. */
  ghost function Displacing(env: Env, e: O.ConnectEvent, f: O.ConnectEvent): State {
    var s1 := Next(env, A.Settled(env, e), Connect(f, false));
    var s2 := Next(env, s1, Promote(f.cid, f.now));
    var s3 := Next(env, s2, EstablishFromEvent(f.cid, f.now));
    Next(env, s3, SetExpiry(Start(f.cid, f.now, true)))
  }

  /**
   Meeting the guard is not enough: an owner that was anchored and is then displaced is still established and
   tracked, has no expiry and no start to come, and is denied at any clock.
   */
  lemma DisplacedWithoutExpiry(env: Env, e: O.ConnectEvent, f: O.ConnectEvent)
    requires A.Fitting(env, e) && A.Fitting(env, f) && env.maxDuration > 0 && e.cid != f.cid && e.identity == f.identity
    ensures var s, t := A.Settled(env, e), Displacing(env, e, f);
            && Reachable(env, s) && e.cid in s.tables.cids && s.tables.cids[e.cid].expiry == Some(e.now)
            && Reachable(env, t) && e.cid in t.tables.cids && t.tables.cids[e.cid].established
            && t.tables.cids[e.cid].expiry.None? && t.starts == multiset{} && e.cid in t.anchors
            && forall now :: CheckDuration(t.tables, e.cid, now, env.maxDuration).Untracked?
  {
    hide NormalizeIdentity, Reachable, A.Settled;
    var s := A.Settled(env, e);
    A.SettledReachable(env, e);
    var s1 := Next(env, s, Connect(f, false));
    var s2 := Next(env, s1, Promote(f.cid, f.now));
    var s3 := Next(env, s2, EstablishFromEvent(f.cid, f.now));
    ReachableStep(env, s, Connect(f, false));
    ReachableStep(env, s1, Promote(f.cid, f.now));
    ReachableStep(env, s2, EstablishFromEvent(f.cid, f.now));
    ReachableStep(env, s3, SetExpiry(Start(f.cid, f.now, true)));
  }
}
