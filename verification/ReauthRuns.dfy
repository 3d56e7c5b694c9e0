/**
 Renegotiation beside the ownership tables: the backstop reads an anchor in one critical section and compares it
 with the clock later, while other goroutines move the tables.
 */
module ReauthRuns {
  import opened Basics
  import opened Commands
  import O = Ownership
  import W = OwnershipRuns
  import D = Durations
  import R = Reauth

  type Cid = W.Cid
  type Time = W.Time

  /** What the thread of a REAUTH read of the record of its client. */
  datatype Reading = Reading(cid: Cid, expiry: Option<Time>)

  /** `names` are the user names that threads read; `first` is history: the first anchor of each CID. */
  datatype State = State(
    own: W.State,
    re: R.State,
    names: map<nat, string>,
    readings: map<nat, Reading>,
    first: map<Cid, Time>)

  const Init := State(W.Init, R.Init, map[], map[], map[])

  datatype Action = Own(a: W.Action) | ReadName(t: nat, cid: Cid) | Read(t: nat, cid: Cid) | Re(r: R.Action)

  function UsernameOf(t: O.Tables, cid: Cid): string {
    if cid in t.cids then t.cids[cid].username else ""
  }

  ghost predicate Enabled(env: W.Env, s: State, a: Action) {
    match a
    case Own(a) => W.Enabled(env, s.own, a)
    case ReadName(t, _) => t !in s.names
    case Read(t, _) => t !in s.readings
    case Re(r) =>
      && R.Enabled(s.re, r)
      && (r.Begin? ==>
            && r.t in s.names && r.e.lookup == (if s.names[r.t] != "" then s.names[r.t] else r.e.cn)
            && r.t in s.readings && s.readings[r.t].cid == r.e.cid && r.e.at == s.re.clock
            && r.e.duration == D.CheckAgainst(s.readings[r.t].expiry, s.re.clock, env.maxDuration))
  }

  ghost function Next(env: W.Env, cfg: R.Config, s: State, a: Action): State
    requires Enabled(env, s, a)
  {
    match a
    case Own(a) =>
      var own := W.Next(env, s.own, a);
      s.(own := own, first := map c | c in own.anchors.Keys + s.first.Keys :: if c in s.first then s.first[c]
          else own.anchors[c])
    case ReadName(t, cid) => s.(names := s.names[t := UsernameOf(s.own.tables, cid)])
    case Read(t, cid) => s.(readings := s.readings[t := Reading(cid, D.ExpiryOf(s.own.tables, cid))])
    case Re(r) => s.(re := R.Next(cfg, s.re, r))
  }

  ghost predicate Run(env: W.Env, cfg: R.Config, s: State, acts: seq<Action>, s': State)
    decreases |acts|
  {
    if acts == [] then s' == s
    else Enabled(env, s, acts[0]) && Run(env, cfg, Next(env, cfg, s, acts[0]), acts[1..], s')
  }

  ghost predicate Reachable(env: W.Env, cfg: R.Config, s: State) {
    exists acts :: Run(env, cfg, Init, acts, s)
  }

  /** Anchors, readings and passed checks are all bounded by the first anchor. */
  ghost predicate Bounded(env: W.Env, s: State) {
    && s.first.Keys == s.own.anchors.Keys
    && (forall c :: c in s.own.anchors ==> s.own.anchors[c] <= s.first[c])
    && (forall t :: t in s.readings && s.readings[t].expiry.Some? ==>
          s.readings[t].cid in s.first && s.readings[t].expiry.value <= s.first[s.readings[t].cid])
    && (forall t :: t in s.re.threads ==> InTime(env, s, s.re.threads[t].e))
  }

  predicate InTime(env: W.Env, s: State, e: R.Event) {
    e.duration.Passed? && env.maxDuration > 0 ==> e.cid in s.first && e.at <= s.first[e.cid] + env.maxDuration
  }

  ghost predicate Inv(env: W.Env, cfg: R.Config, s: State) {
    W.Inv(env, s.own) && R.Inv(cfg, s.re) && Bounded(env, s)
  }

  lemma OwnKeepsBounded(env: W.Env, cfg: R.Config, s: State, a: W.Action)
    requires Inv(env, cfg, s) && W.Enabled(env, s.own, a)
    ensures Bounded(env, Next(env, cfg, s, Own(a)))
  {
    hide W.Inv, W.Enabled, W.Next, R.Inv;
    var own := W.Next(env, s.own, a);
    forall c | c in s.own.anchors
      ensures c in own.anchors && own.anchors[c] <= s.own.anchors[c]
    {
      D.StepAnchorNeverLater(env, s.own, a, c);
    }
  }

  /** The reading is the anchor of the moment. */
  lemma ReadKeepsBounded(env: W.Env, cfg: R.Config, s: State, t: nat, cid: Cid)
    requires Inv(env, cfg, s) && Enabled(env, s, Read(t, cid))
    ensures Bounded(env, Next(env, cfg, s, Read(t, cid)))
  {
    hide R.Inv, W.UnestablishedUnanchored, W.StartsSound, W.NamesAgree;
  }

  lemma NameKeepsBounded(env: W.Env, s: State, u: State)
    requires Bounded(env, s) && u == s.(names := u.names)
    ensures Bounded(env, u)
  {
    forall t | t in u.re.threads
      ensures InTime(env, u, u.re.threads[t].e)
    {
      assert InTime(env, s, s.re.threads[t].e);
    }
  }

  /** Threads are born with their event and keep it. */
  lemma EventsKept(cfg: R.Config, re: R.State, r: R.Action, t: nat)
    requires R.Enabled(re, r) && t in R.Next(cfg, re, r).threads
    ensures if t in re.threads then R.Next(cfg, re, r).threads[t].e == re.threads[t].e
            else r.Begin? && r.t == t && R.Next(cfg, re, r).threads[t].e == r.e
  {
    hide R.Finish, R.Precheck, R.Positive;
  }

  lemma ReKeepsBounded(env: W.Env, cfg: R.Config, s: State, r: R.Action)
    requires Inv(env, cfg, s) && Enabled(env, s, Re(r))
    ensures Bounded(env, Next(env, cfg, s, Re(r)))
  {
    hide R.Inv, W.Inv, R.Next, R.Enabled;
    var u := Next(env, cfg, s, Re(r));
    forall t | t in u.re.threads
      ensures InTime(env, u, u.re.threads[t].e)
    {
      EventsKept(cfg, s.re, r, t);
      assert t in s.re.threads ==> InTime(env, s, s.re.threads[t].e);
    }
  }

  lemma InvKept(env: W.Env, cfg: R.Config, s: State, a: Action)
    requires Inv(env, cfg, s) && Enabled(env, s, a)
    ensures Inv(env, cfg, Next(env, cfg, s, a))
  {
    hide R.Inv, W.Inv, R.Next, W.Next, R.Enabled, W.Enabled, Bounded;
    match a
    case Own(o) =>
      OwnKeepsBounded(env, cfg, s, o);
      W.InvKept(env, s.own, o);
    case ReadName(_, _) => NameKeepsBounded(env, s, Next(env, cfg, s, a));
    case Read(t, cid) => ReadKeepsBounded(env, cfg, s, t, cid);
    case Re(r) =>
      ReKeepsBounded(env, cfg, s, r);
      R.InvKept(cfg, s.re, r);
  }

  lemma {:induction false} RunKeepsInv(env: W.Env, cfg: R.Config, s: State, acts: seq<Action>, s': State)
    requires Inv(env, cfg, s) && Run(env, cfg, s, acts, s')
    ensures Inv(env, cfg, s')
    decreases |acts|
  {
    hide Inv, Next, Enabled;
    if acts != [] {
      InvKept(env, cfg, s, acts[0]);
      RunKeepsInv(env, cfg, Next(env, cfg, s, acts[0]), acts[1..], s');
    }
  }

  /** A first anchor, once recorded, stays what it was over any run. */
  lemma {:induction false} FirstStays(env: W.Env, cfg: R.Config, s: State, acts: seq<Action>, s': State, c: Cid)
    requires Run(env, cfg, s, acts, s') && c in s.first
    ensures c in s'.first && s'.first[c] == s.first[c]
    decreases |acts|
  {
    hide W.Next, W.Enabled, R.Next, R.Enabled;
    if acts != [] {
      FirstStays(env, cfg, Next(env, cfg, s, acts[0]), acts[1..], s', c);
    }
  }

  /**
   In every interleaving of the tables, the readings and the REAUTH threads: with a maximum duration set, a REAUTH
   that was allowed is for an anchored client, and its check took place no later than the first anchor plus the maximum.
   */
  lemma NoAllowAfterMaximum(env: W.Env, cfg: R.Config, s: State, i: nat)
    requires Reachable(env, cfg, s) && env.maxDuration > 0 && i < |s.re.verdicts| && s.re.verdicts[i].decision.AllowNT?
    ensures var v := s.re.verdicts[i];
            && v.thread in s.re.threads
            && var e := s.re.threads[v.thread].e;
               v.decision.cid == e.cid && e.cid in s.first && e.at <= s.first[e.cid] + env.maxDuration
  {
    hide W.Inv, R.CacheExact, R.LooksSound, R.CacheAllowsGrounded;
    var acts :| Run(env, cfg, Init, acts, s);
    InitInv(env, cfg);
    RunKeepsInv(env, cfg, Init, acts, s);
    assert InTime(env, s, s.re.threads[s.re.verdicts[i].thread].e);
  }

  lemma InitInv(env: W.Env, cfg: R.Config)
    ensures Inv(env, cfg, Init)
  {
  }

  // ----- a session within its time is let through -----

  /** A thread that starts now, for a client whose session is within its time, looking up the name recorded for it. */
  ghost predicate Timely(env: W.Env, s: State, t: nat, e: R.Event) {
    && t !in s.names && t !in s.readings && t !in s.re.threads && e.at == s.re.clock && e.duration.Passed?
    && e.lookup != ""
    && e.lookup == (if UsernameOf(s.own.tables, e.cid) != "" then UsernameOf(s.own.tables, e.cid) else e.cn)
    && (env.maxDuration > 0 ==>
          && e.cid in s.own.tables.cids && s.own.tables.cids[e.cid].expiry.Some?
          && s.re.clock <= s.own.tables.cids[e.cid].expiry.value + env.maxDuration)
  }

  ghost function Ready(env: W.Env, cfg: R.Config, s: State, t: nat, e: R.Event): State
    requires t !in s.names && t !in s.readings
  {
    Next(env, cfg, Next(env, cfg, s, ReadName(t, e.cid)), Read(t, e.cid))
  }

  lemma BeginsTimely(env: W.Env, cfg: R.Config, s: State, t: nat, e: R.Event)
    requires Timely(env, s, t, e)
    ensures Run(env, cfg, s, [ReadName(t, e.cid), Read(t, e.cid)], Ready(env, cfg, s, t, e))
    ensures Enabled(env, Ready(env, cfg, s, t, e), Re(R.Begin(t, e)))
    ensures Ready(env, cfg, s, t, e).re == s.re
  {
    D.CheckExactly(D.ExpiryOf(s.own.tables, e.cid), s.re.clock, env.maxDuration);
    var u := Next(env, cfg, s, ReadName(t, e.cid));
    var acts := [ReadName(t, e.cid), Read(t, e.cid)];
    assert acts[1..] == [Read(t, e.cid)] && acts[1..][1..] == [];
    assert Run(env, cfg, Ready(env, cfg, s, t, e), acts[1..][1..], Ready(env, cfg, s, t, e));
    assert Run(env, cfg, u, acts[1..], Ready(env, cfg, s, t, e));
  }

  /**
   The converse of NoAllowAfterMaximum: a REAUTH within the maximum of the current anchor whose live check is
   positive is answered with `client-auth-nt` for its own client and key.
   */
  lemma WithinMaximumAllowed(env: W.Env, cfg: R.Config, s: State, t: nat, e: R.Event, r: R.IdentityResult)
    requires Timely(env, s, t, e) && !cfg.skipReauth && r.found && r.enabled && (!cfg.checkGroup || r.inGroup)
    ensures var b := Ready(env, cfg, s, t, e);
            && Enabled(env, b, Re(R.Begin(t, e)))
            && var m := Next(env, cfg, b, Re(R.Begin(t, e)));
               && Enabled(env, m, Re(R.LiveOk(t, r)))
               && var u := Next(env, cfg, m, Re(R.LiveOk(t, r)));
                  && u.re.verdicts == s.re.verdicts + [R.Verdict(t, AllowNT(e.cid, e.kid), R.Live(r))]
                  && FirstWord(ToCommand(AllowNT(e.cid, e.kid))) == "client-auth-nt"
  {
    hide FirstWord, ToCommand;
    BeginsTimely(env, cfg, s, t, e);
    AllowNTFirstWord(e.cid, e.kid);
  }

  lemma AllowNTFirstWord(cid: string, kid: string)
    ensures FirstWord(ToCommand(AllowNT(cid, kid))) == "client-auth-nt"
  {
    hide Cut;
    VerbRead(AllowNT(cid, kid));
  }

  /** With the live check switched off it is answered so at once. */
  lemma WithinMaximumSkipped(env: W.Env, cfg: R.Config, s: State, t: nat, e: R.Event)
    requires Timely(env, s, t, e) && cfg.skipReauth
    ensures var b := Ready(env, cfg, s, t, e);
            && Enabled(env, b, Re(R.Begin(t, e)))
            && Next(env, cfg, b, Re(R.Begin(t, e))).re.verdicts ==
                 s.re.verdicts + [R.Verdict(t, AllowNT(e.cid, e.kid), R.BeforeQuery)]
  {
    BeginsTimely(env, cfg, s, t, e);
  }

  /** And when the live check fails, a positive result stored for its name within the time to live lets it through. */
  lemma WithinMaximumCached(env: W.Env, cfg: R.Config, s: State, t: nat, e: R.Event)
    requires Timely(env, s, t, e) && !cfg.skipReauth && cfg.useCache && e.lookup in s.re.entries
    requires var r := s.re.entries[e.lookup];
             && r.found && r.enabled && (!cfg.checkGroup || r.inGroup) && s.re.clock - r.checkedAt <= cfg.ttl
    ensures var b := Ready(env, cfg, s, t, e);
            && R.Enabled(b.re, R.Begin(t, e)) && var m := R.Next(cfg, b.re, R.Begin(t, e));
            && R.Enabled(m, R.LiveErr(t)) && var n := R.Next(cfg, m, R.LiveErr(t));
            && R.Enabled(n, R.Look(t)) && var o := R.Next(cfg, n, R.Look(t));
            && R.Enabled(o, R.Judge(t)) && var u := R.Next(cfg, o, R.Judge(t));
               |u.verdicts| == |s.re.verdicts| + 1 && u.verdicts[|s.re.verdicts|].decision == AllowNT(e.cid, e.kid)
  {
    BeginsTimely(env, cfg, s, t, e);
  }

  /** The name that a REAUTH looks up is the one that the callback recorded for the client. */
  lemma RecordedNameIsRead(env: W.Env, cfg: R.Config, s: State, t: nat, cid: Cid, username: string)
    requires t !in s.names && cid in s.own.tables.cids
    ensures var u := Next(env, cfg, s, Own(W.SetUsername(cid, username)));
            Next(env, cfg, u, ReadName(t, cid)).names[t] == username
  {
  }
}
