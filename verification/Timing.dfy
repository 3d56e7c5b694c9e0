/** The lifetimes of a pending session, in nanoseconds: state expiry against the reaper. */
module Timing {
  import Sessions

  const SECOND: int := 1_000_000_000

  /** `Time.Unix()`: whole seconds, rounded down. */
  function Unix(t: int): int {
    t / SECOND
  }

  /** The expiry second written into the state of a session created at `created`. */
  function StateExpiry(created: int, authTimeout: int): int {
    Unix(created + authTimeout)
  }

  /** The state still passes the expiry check at `t`. */
  predicate Decodes(t: int, created: int, authTimeout: int) {
    Unix(t) <= StateExpiry(created, authTimeout)
  }

  /** The reaper removes the session at `t`. */
  predicate Reaped(t: int, created: int, handWindow: int) {
    t > created + 2 * handWindow
  }

  /** No session is ever reaped while its state would still decode. */
  ghost predicate ReaperSafe(authTimeout: int, handWindow: int) {
    forall created, t :: created >= 0 ==> !(Decodes(t, created, authTimeout) && Reaped(t, created, handWindow))
  }

  /** The reaper is safe exactly when the rounding second fits between the two lifetimes. */
  lemma ReaperSafeIff(authTimeout: int, handWindow: int)
    requires authTimeout > 0
    ensures ReaperSafe(authTimeout, handWindow) <==> authTimeout + 999_999_999 <= 2 * handWindow
  {
    forall created, t | Decodes(t, created, authTimeout)
      ensures t <= created + authTimeout + SECOND - 1
    {
    }
    if ReaperSafe(authTimeout, handWindow) {
      var created := SECOND * authTimeout - authTimeout;
      var t := created + authTimeout + SECOND - 1;
      assert Unix(t) == authTimeout == StateExpiry(created, authTimeout);
      assert Decodes(t, created, authTimeout);
    }
  }

  /** The timing rules of startup validation. */
  predicate ValidTiming(authTimeout: int, handWindow: int) {
    handWindow > 0 && authTimeout > 0 && authTimeout < handWindow
  }

  /** The rules as startup validation collects their violations. */
  method CheckTiming(authTimeout: int, handWindow: int) returns (problems: seq<string>)
    ensures problems == [] <==> ValidTiming(authTimeout, handWindow)
    ensures problems == [] <==> 0 < authTimeout < handWindow
  {
    problems := [];
    if handWindow <= 0 {
      problems := problems + ["hand-window must be > 0"];
    }
    if authTimeout <= 0 {
      problems := problems + ["auth-timeout must be > 0"];
    }
    if authTimeout >= handWindow {
      problems := problems + ["auth-timeout must be less than hand-window"];
    }
  }

  /** Validated settings with a hand window of at least one second are safe. */
  lemma ValidTimingSafe(authTimeout: int, handWindow: int)
    requires ValidTiming(authTimeout, handWindow) && handWindow >= 1_000_000_000
    ensures ReaperSafe(authTimeout, handWindow)
  {
    ReaperSafeIff(authTimeout, handWindow);
  }

  /** Validation alone does not ensure it: it accepts a hand window of a few milliseconds. */
  lemma SubSecondWindowUnsafe()
    ensures ValidTiming(1_000_000, 2_000_000) && !ReaperSafe(1_000_000, 2_000_000)
  {
    ReaperSafeIff(1_000_000, 2_000_000);
  }

  /** In a safe configuration the callback of a decodable state never misses its session because of the reaper. */
  lemma ReapKeepsDecodable(store: Sessions.Store, sid: Sessions.Sid, now: int, authTimeout: int, handWindow: int)
    requires sid in store && store[sid].createdAt >= 0 && store[sid].expiresAt == store[sid].createdAt + 2 * handWindow
    requires ValidTiming(authTimeout, handWindow) && handWindow >= 1_000_000_000
    requires Decodes(now, store[sid].createdAt, authTimeout)
    ensures sid in Sessions.Unexpired(store, now) && Sessions.Unexpired(store, now)[sid] == store[sid]
  {
    ValidTimingSafe(authTimeout, handWindow);
    assert !Reaped(now, store[sid].createdAt, handWindow);
  }
}
