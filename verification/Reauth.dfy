/**
 Re-authentication and its result cache. Each REAUTH runs in a goroutine of its own; the cache is
 read under one lock and expired under another, with other goroutines in between.
 */
module Reauth {
  import opened Basics
  import opened Commands
  import Durations

  type Time = int

  datatype IdentityResult = IdentityResult(found: bool, enabled: bool, inGroup: bool, checkedAt: Time)

  datatype Config = Config(skipReauth: bool, checkGroup: bool, requiredGroup: string, useCache: bool, ttl: int)

  /**
   One REAUTH event with its common name: `lookup` is the recorded username or else that name, and `duration` what
   the session-duration backstop said at time `at`.
   */
  datatype Event = Event(
    cid: string,
    kid: string,
    cn: string,
    lookup: string,
    at: Time,
    duration: Durations.DurationCheck)

  predicate Positive(cfg: Config, r: IdentityResult) {
    r.found && r.enabled && (!cfg.checkGroup || r.inGroup)
  }

  /** `finishReauth`. */
  function Finish(cfg: Config, e: Event, r: IdentityResult): Decision {
    if !r.found then Deny(e.cid, e.kid, "user not found")
    else if !r.enabled then Deny(e.cid, e.kid, "user disabled")
    else if cfg.checkGroup && !r.inGroup then Deny(e.cid, e.kid, "not in required group: " + cfg.requiredGroup)
    else AllowNT(e.cid, e.kid)
  }

  /** The checks that come before the live query; `None` when the query is made. */
  function Precheck(cfg: Config, e: Event): Option<Decision> {
    if e.lookup == "" then Some(Deny(e.cid, e.kid, "missing common name"))
    else if e.duration.Untracked? then Some(Deny(e.cid, e.kid, "session revalidation required; reconnect"))
    else if e.duration.TooOld? then Some(Deny(e.cid, e.kid, "session expired"))
    else if cfg.skipReauth then Some(AllowNT(e.cid, e.kid))
    else None
  }

  /** The answer when the live check is made and returns `r`, or is not needed. */
  function Answer(cfg: Config, e: Event, r: IdentityResult): Decision {
    if Precheck(cfg, e).Some? then Precheck(cfg, e).value else Finish(cfg, e, r)
  }

  /** Which answer is given, by the event, the configuration and the result alone; each refusal has its reason. */
  lemma AnswerExactly(cfg: Config, e: Event, r: IdentityResult)
    ensures var d, known := Answer(cfg, e, r), e.lookup != "" && e.duration.Passed?;
            && d.cid == e.cid && d.kid == e.kid
            && (d == AllowNT(e.cid, e.kid) <==>
                  known && (cfg.skipReauth || (r.found && r.enabled && (!cfg.checkGroup || r.inGroup))))
            && (d.AllowNT? || d.Deny?)
            && (e.lookup == "" ==> d.reason == "missing common name")
            && (e.lookup != "" && e.duration.Untracked? ==> d.reason == "session revalidation required; reconnect")
            && (e.lookup != "" && e.duration.TooOld? ==> d.reason == "session expired")
            && (known && !cfg.skipReauth && !r.found ==> d.reason == "user not found")
            && (known && !cfg.skipReauth && r.found && !r.enabled ==> d.reason == "user disabled")
            && (known && !cfg.skipReauth && r.found && r.enabled && cfg.checkGroup && !r.inGroup ==>
                  d.reason == "not in required group: " + cfg.requiredGroup)
  {
  }

  /** The cache as an object: the expired entry is looked at again under the write lock. */
  class ReauthCache {
    var entries: map<string, IdentityResult>
    const ttl: int

    constructor (ttl: int)
      ensures entries == map[] && this.ttl == ttl
    {
      this.ttl := ttl;
      entries := map[];
    }

    method Put(key: string, result: IdentityResult)
      modifies this
      ensures entries == old(entries)[key := result]
    {
      entries := entries[key := result];
    }

    /** `now` is the clock at the first look, `later` at the second. */
    method Get(key: string, now: Time, later: Time) returns (r: Option<IdentityResult>)
      requires now <= later
      modifies this
      ensures r.Some? <==> key in old(entries) && now - old(entries)[key].checkedAt <= ttl
      ensures r.Some? ==> r.value == old(entries)[key] && entries == old(entries)
      ensures r.None? ==> entries == old(entries) - {key}
    {
      if key !in entries {
        return None;
      }
      var entry := entries[key];
      if now - entry.checkedAt > ttl {
        if key in entries && later - entries[key].checkedAt > ttl {
          entries := entries - {key};
        }
        return None;
      }
      return Some(entry);
    }
  }

  // ----- interleavings -----

  datatype Put = Put(key: string, result: IdentityResult)

  datatype Thread =
    | Querying(e: Event)                                   // the live check is running
    | LiveFailed(e: Event)                                 // it returned an error
    | Looked(e: Event, entry: Option<IdentityResult>, puts: nat) // cache read when `puts` results had been stored
    | Expiring(e: Event)                                   // the entry was too old; write lock not taken yet
    | Finished(e: Event)

  datatype Source = BeforeQuery | Live(result: IdentityResult) | Cache(entry: IdentityResult, puts: nat,
      now: Time) | Unavailable

  datatype Verdict = Verdict(thread: nat, decision: Decision, source: Source)

  datatype State = State(
    clock: Time,
    entries: map<string, IdentityResult>,
    puts: seq<Put>,
    threads: map<nat, Thread>,
    failed: set<nat>,          // threads whose live check errored
    verdicts: seq<Verdict>)

  const Init := State(0, map[], [], map[], {}, [])

  datatype Action =
    | Tick(elapsed: nat)
    | Begin(t: nat, e: Event)
    | LiveOk(t: nat, result: IdentityResult)
    | LiveErr(t: nat)
    | Look(t: nat)
    | Judge(t: nat)
    | Expire(t: nat)

  predicate Enabled(s: State, a: Action) {
    match a
    case Tick(_) => true
    case Begin(t, _) => t !in s.threads
    case LiveOk(t, _) => t in s.threads && s.threads[t].Querying?
    case LiveErr(t) => t in s.threads && s.threads[t].Querying?
    case Look(t) => t in s.threads && s.threads[t].LiveFailed?
    case Judge(t) => t in s.threads && s.threads[t].Looked?
    case Expire(t) => t in s.threads && s.threads[t].Expiring?
  }

  function Decide(s: State, t: nat, e: Event, d: Decision, source: Source): State {
    s.(threads := s.threads[t := Finished(e)], verdicts := s.verdicts + [Verdict(t, d, source)])
  }

  function NoAnswer(e: Event): Decision {
    Deny(e.cid, e.kid, "cognito unavailable")
  }

  function Next(cfg: Config, s: State, a: Action): State
    requires Enabled(s, a)
  {
    match a
    case Tick(elapsed) => s.(clock := s.clock + elapsed)
    case Begin(t, e) =>
      var p := Precheck(cfg, e);
      if p.Some? then Decide(s, t, e, p.value, BeforeQuery) else s.(threads := s.threads[t := Querying(e)])
    case LiveOk(t, result) =>
      var e := s.threads[t].e;
      var u := if cfg.useCache
               then s.(entries := s.entries[e.lookup := result], puts := s.puts + [Put(e.lookup, result)]) else s;
      Decide(u, t, e, Finish(cfg, e, result), Live(result))
    case LiveErr(t) =>
      var e := s.threads[t].e;
      var u := s.(failed := s.failed + {t});
      if cfg.useCache then u.(threads := u.threads[t := LiveFailed(e)])
      else Decide(u, t, e, NoAnswer(e), Unavailable)
    case Look(t) =>
      var e := s.threads[t].e;
      var entry := if e.lookup in s.entries then Some(s.entries[e.lookup]) else None;
      s.(threads := s.threads[t := Looked(e, entry, |s.puts|)])
    case Judge(t) =>
      var Looked(e, entry, puts) := s.threads[t];
      if entry.None? then Decide(s, t, e, NoAnswer(e), Unavailable)
      else if s.clock - entry.value.checkedAt > cfg.ttl then s.(threads := s.threads[t := Expiring(e)])
      else if Positive(cfg, entry.value) then Decide(s, t, e, AllowNT(e.cid, e.kid), Cache(entry.value, puts, s.clock))
      else Decide(s, t, e, NoAnswer(e), Unavailable)
    case Expire(t) =>
      var e := s.threads[t].e;
      var gone := e.lookup in s.entries && s.clock - s.entries[e.lookup].checkedAt > cfg.ttl;
      Decide(if gone then s.(entries := s.entries - {e.lookup}) else s, t, e, NoAnswer(e), Unavailable)
  }

  ghost predicate Run(cfg: Config, s: State, acts: seq<Action>, s': State)
    decreases |acts|
  {
    if acts == [] then s' == s else Enabled(s, acts[0]) && Run(cfg, Next(cfg, s, acts[0]), acts[1..], s')
  }

  ghost predicate Reachable(cfg: Config, s: State) {
    exists acts :: Run(cfg, Init, acts, s)
  }

  /** The last result stored for a key. */
  function LastPut(puts: seq<Put>, key: string): Option<IdentityResult> {
    if puts == [] then None
    else if puts[|puts| - 1].key == key then Some(puts[|puts| - 1].result)
    else LastPut(puts[..|puts| - 1], key)
  }

  /** A live result is stored for its name exactly when there is a cache. */
  lemma LiveStores(cfg: Config, s: State, t: nat, r: IdentityResult)
    requires Enabled(s, LiveOk(t, r))
    ensures var u, name := Next(cfg, s, LiveOk(t, r)), s.threads[t].e.lookup;
            if cfg.useCache
            then u.entries == s.entries[name := r] && LastPut(u.puts, name) == Some(r)
            else u.entries == s.entries && u.puts == s.puts
  {
    hide Finish;
    LastPutSnoc(s.puts, Put(s.threads[t].e.lookup, r), s.threads[t].e.lookup);
  }

  /** An entry that is still too old under the write lock is forgotten, and no other. */
  lemma ExpireForgets(cfg: Config, s: State, t: nat)
    requires Enabled(s, Expire(t))
    ensures var u, name := Next(cfg, s, Expire(t)), s.threads[t].e.lookup;
            u.entries == if name in s.entries && s.clock - s.entries[name].checkedAt > cfg.ttl
                         then s.entries - {name} else s.entries
  {
  }

  // ----- the invariant -----

  /** Every thread has decided once if it has finished and not at all before, for its own CID and KID. */
  ghost predicate OneVerdictEach(s: State) {
    && (forall i, j :: 0 <= i < j < |s.verdicts| ==> s.verdicts[i].thread != s.verdicts[j].thread)
    && (forall i :: 0 <= i < |s.verdicts| ==>
          && s.verdicts[i].thread in s.threads && s.threads[s.verdicts[i].thread].Finished?
          && ForClient(s.verdicts[i].decision, s.threads[s.verdicts[i].thread].e))
    && (forall t :: t in s.threads && s.threads[t].Finished? ==> Decided(s, t))
  }

  predicate ForClient(d: Decision, e: Event) {
    (d.AllowNT? || d.Deny?) && d.cid == e.cid && d.kid == e.kid
  }

  ghost predicate Decided(s: State, t: nat) {
    exists i :: 0 <= i < |s.verdicts| && s.verdicts[i].thread == t
  }

  /**
   The cache holds only what was stored last, and forgets a result only once it is too old:
   an entry that a concurrent Put refreshed is never removed.
   */
  ghost predicate CacheExact(cfg: Config, s: State) {
    forall key ::
      && (key in s.entries ==> LastPut(s.puts, key) == Some(s.entries[key]))
      && (key !in s.entries && LastPut(s.puts, key).Some? ==> s.clock - LastPut(s.puts, key).value.checkedAt > cfg.ttl)
  }

  predicate ConsultsCache(th: Thread) {
    th.LiveFailed? || th.Looked? || th.Expiring?
  }

  /** A thread that consulted the cache failed live before, and read the last result stored by then. */
  ghost predicate LooksSound(s: State) {
    && (forall t :: t in s.threads && ConsultsCache(s.threads[t]) ==> t in s.failed)
    && (forall t :: t in s.threads && s.threads[t].Looked? && s.threads[t].entry.Some? ==>
          s.threads[t].puts <= |s.puts|
          && LastPut(s.puts[..s.threads[t].puts], s.threads[t].e.lookup) == s.threads[t].entry)
  }

  /** What stands behind an allow from the cache. */
  ghost predicate Grounded(cfg: Config, s: State, v: Verdict)
    requires v.source.Cache?
  {
    && v.thread in s.threads && v.thread in s.failed
    && v.source.puts <= |s.puts|
    && LastPut(s.puts[..v.source.puts], s.threads[v.thread].e.lookup) == Some(v.source.entry)
    && Positive(cfg, v.source.entry)
    && v.source.now - v.source.entry.checkedAt <= cfg.ttl
  }

  ghost predicate CacheAllowsGrounded(cfg: Config, s: State) {
    forall i :: 0 <= i < |s.verdicts| && s.verdicts[i].source.Cache? ==> Grounded(cfg, s, s.verdicts[i])
  }

  /**
   An allow has one of three grounds: reauthentication is switched off, the live check was positive, or the
   cache; and in every case the session was tracked and within its duration.
   */
  ghost predicate MayAllow(cfg: Config, e: Event, d: Decision, source: Source) {
    d.AllowNT? ==>
      && e.duration.Passed? && e.lookup != ""
      && match source
         case BeforeQuery => cfg.skipReauth
         case Live(result) => Positive(cfg, result)
         case Cache(_, _, _) => true
         case Unavailable => false
  }

  ghost predicate AllowsGrounded(cfg: Config, s: State) {
    && (forall t :: t in s.threads && !s.threads[t].Finished? ==>
          s.threads[t].e.duration.Passed? && s.threads[t].e.lookup != "")
    && (forall i :: 0 <= i < |s.verdicts| ==>
          && s.verdicts[i].thread in s.threads
          && MayAllow(cfg, s.threads[s.verdicts[i].thread].e, s.verdicts[i].decision, s.verdicts[i].source))
  }

  ghost predicate Inv(cfg: Config, s: State) {
    AllowsGrounded(cfg, s) && OneVerdictEach(s) && CacheExact(cfg, s) && LooksSound(s) && CacheAllowsGrounded(cfg, s)
  }

  lemma LastPutSnoc(puts: seq<Put>, p: Put, key: string)
    ensures LastPut(puts + [p], key) == if p.key == key then Some(p.result) else LastPut(puts, key)
  {
    assert (puts + [p])[..|puts|] == puts;
  }

  lemma DecideKeepsVerdicts(s: State, t: nat, e: Event, d: Decision, source: Source)
    requires OneVerdictEach(s) && (t in s.threads ==> !s.threads[t].Finished?) && ForClient(d, e)
    ensures OneVerdictEach(Decide(s, t, e, d, source))
  {
    var u := Decide(s, t, e, d, source);
    forall k | k in u.threads && u.threads[k].Finished?
      ensures Decided(u, k)
    {
      if k == t {
        assert u.verdicts[|s.verdicts|].thread == t;
      } else {
        var i :| 0 <= i < |s.verdicts| && s.verdicts[i].thread == k;
        assert u.verdicts[i].thread == k;
      }
    }
  }

  lemma MoveKeepsVerdicts(s: State, u: State, t: nat, th: Thread)
    requires OneVerdictEach(s) && (t in s.threads ==> !s.threads[t].Finished?) && !th.Finished?
    requires u.verdicts == s.verdicts && u.threads == s.threads[t := th]
    ensures OneVerdictEach(u)
  {
    forall k | k in u.threads && u.threads[k].Finished?
      ensures Decided(u, k)
    {
      assert Decided(s, k);
    }
  }

  lemma VerdictsKept(cfg: Config, s: State, a: Action)
    requires Inv(cfg, s) && Enabled(s, a)
    ensures OneVerdictEach(Next(cfg, s, a))
  {
    hide OneVerdictEach, CacheExact, LooksSound, CacheAllowsGrounded, AllowsGrounded, Positive;
    var u := Next(cfg, s, a);
    if a.Tick? {
      TickKeepsVerdicts(s, u);
    } else if |u.verdicts| == |s.verdicts| {
      MoveKeepsVerdicts(s, u, a.t, u.threads[a.t]);
    } else {
      var v := u.verdicts[|s.verdicts|];
      var r := u.(threads := s.threads, verdicts := s.verdicts);
      TickKeepsVerdicts(s, r);
      DecideKeepsVerdicts(r, a.t, u.threads[a.t].e, v.decision, v.source);
    }
  }

  lemma TickKeepsVerdicts(s: State, u: State)
    requires OneVerdictEach(s) && u.threads == s.threads && u.verdicts == s.verdicts
    ensures OneVerdictEach(u)
  {
    forall k | k in u.threads && u.threads[k].Finished?
      ensures Decided(u, k)
    {
      assert Decided(s, k);
    }
  }

  lemma CacheKept(cfg: Config, s: State, a: Action)
    requires Inv(cfg, s) && Enabled(s, a)
    ensures CacheExact(cfg, Next(cfg, s, a))
  {
    hide OneVerdictEach, AllowsGrounded, LooksSound, CacheAllowsGrounded, Finish, Precheck, LastPut;
    if a.LiveOk? {
      var e := s.threads[a.t].e;
      forall key
        ensures LastPut(s.puts + [Put(e.lookup, a.result)], key) == if key == e.lookup then Some(a.result)
            else LastPut(s.puts, key)
      {
        LastPutSnoc(s.puts, Put(e.lookup, a.result), key);
      }
    }
  }

  lemma LooksKept(cfg: Config, s: State, a: Action)
    requires Inv(cfg, s) && Enabled(s, a)
    ensures LooksSound(Next(cfg, s, a))
  {
    hide OneVerdictEach, AllowsGrounded, CacheAllowsGrounded, Finish, Precheck, LastPut, Positive;
    var u := Next(cfg, s, a);
    assert s.puts[..|s.puts|] == s.puts;
    forall t | t in u.threads && u.threads[t].Looked? && u.threads[t].entry.Some?
      ensures u.threads[t].puts <= |u.puts|
      ensures LastPut(u.puts[..u.threads[t].puts], u.threads[t].e.lookup) == u.threads[t].entry
    {
      if t in s.threads && s.threads[t] == u.threads[t] {
        assert u.puts[..u.threads[t].puts] == s.puts[..u.threads[t].puts];
      }
    }
  }

  lemma GroundsKept(cfg: Config, s: State, a: Action)
    requires Inv(cfg, s) && Enabled(s, a)
    ensures CacheAllowsGrounded(cfg, Next(cfg, s, a))
  {
    hide CacheExact, AllowsGrounded, Finish, Precheck, LastPut, Positive;
    var u := Next(cfg, s, a);
    forall i | 0 <= i < |u.verdicts| && u.verdicts[i].source.Cache?
      ensures Grounded(cfg, u, u.verdicts[i])
    {
      if i < |s.verdicts| {
        assert Grounded(cfg, s, s.verdicts[i]);
        assert u.puts[..u.verdicts[i].source.puts] == s.puts[..u.verdicts[i].source.puts];
      }
    }
  }

  lemma DecideKeepsAllows(cfg: Config, s: State, t: nat, e: Event, d: Decision, source: Source)
    requires AllowsGrounded(cfg, s) && MayAllow(cfg, e, d, source)
    requires t in s.threads ==> e == s.threads[t].e
    ensures AllowsGrounded(cfg, Decide(s, t, e, d, source))
  {
    hide Positive;
  }

  lemma MoveKeepsAllows(cfg: Config, s: State, u: State, t: nat, th: Thread)
    requires AllowsGrounded(cfg, s) && th.e.duration.Passed? && th.e.lookup != ""
    requires t in s.threads ==> th.e == s.threads[t].e
    requires u.verdicts == s.verdicts && u.threads == s.threads[t := th]
    ensures AllowsGrounded(cfg, u)
  {
    hide Positive;
  }

  lemma AllowsKept(cfg: Config, s: State, a: Action)
    requires Inv(cfg, s) && Enabled(s, a)
    ensures AllowsGrounded(cfg, Next(cfg, s, a))
  {
    assert !a.Tick? && a.t in s.threads && !s.threads[a.t].Finished? ==>
        s.threads[a.t].e.duration.Passed? && s.threads[a.t].e.lookup != "";
    var u := Next(cfg, s, a);
    assert a.Tick? ==> AllowsGrounded(cfg, u);
    hide OneVerdictEach, CacheExact, LooksSound, CacheAllowsGrounded, AllowsGrounded, LastPut;
    if a.Tick? {
    } else if |u.verdicts| == |s.verdicts| {
      MoveKeepsAllows(cfg, s, u, a.t, u.threads[a.t]);
    } else {
      var v := u.verdicts[|s.verdicts|];
      var r := u.(threads := s.threads, verdicts := s.verdicts);
      SameKeepsAllows(cfg, s, r);
      DecideKeepsAllows(cfg, r, a.t, u.threads[a.t].e, v.decision, v.source);
    }
  }

  lemma SameKeepsAllows(cfg: Config, s: State, u: State)
    requires AllowsGrounded(cfg, s) && u.threads == s.threads && u.verdicts == s.verdicts
    ensures AllowsGrounded(cfg, u)
  {
  }

  lemma InvKept(cfg: Config, s: State, a: Action)
    requires Inv(cfg, s) && Enabled(s, a)
    ensures Inv(cfg, Next(cfg, s, a))
  {
    hide OneVerdictEach, CacheExact, LooksSound, CacheAllowsGrounded, AllowsGrounded, Next, Enabled;
    VerdictsKept(cfg, s, a);
    CacheKept(cfg, s, a);
    LooksKept(cfg, s, a);
    GroundsKept(cfg, s, a);
    AllowsKept(cfg, s, a);
  }

  lemma {:induction false} RunKeepsInv(cfg: Config, s: State, acts: seq<Action>, s': State)
    requires Inv(cfg, s) && Run(cfg, s, acts, s')
    ensures Inv(cfg, s')
    decreases |acts|
  {
    if acts != [] {
      InvKept(cfg, s, acts[0]);
      RunKeepsInv(cfg, Next(cfg, s, acts[0]), acts[1..], s');
    }
  }

  /**
   In every interleaving each finished REAUTH has exactly one decision, for its own CID and KID; the
   cache is exact; and an allow from the cache had a failed live check, and rests on the last result
   stored for the key when it was read: positive and within the time to live.
   */
  lemma ReachableSound(cfg: Config, s: State)
    requires Reachable(cfg, s)
    ensures OneVerdictEach(s) && AllowsGrounded(cfg, s)
    ensures CacheAllowsGrounded(cfg, s) && CacheExact(cfg, s)
  {
    var acts :| Run(cfg, Init, acts, s);
    RunKeepsInv(cfg, Init, acts, s);
  }
}
