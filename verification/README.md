# OpenVPN web-auth daemon: a verified model

The daemon decides which OpenVPN clients may connect. It speaks to OpenVPN over one management socket, sends each
connecting client to a browser login, and lets the client in when the login callback arrives and passes its checks.
This project models that core in Dafny and proves what it keeps over every run.

| files | what they model |
|---|---|
| `Ownership`, `Election`, `Rebuild`, `OwnershipRuns`, `Handler` | the ownership tables: one record per client ID (CID), the active and attempt indexes, the rebuild from a status snapshot, and runs of all critical sections |
| `Availability`, `Attempts`, `Durations` | what runs of the tables keep: who owns an identity, the life of an attempt, the anchors of the duration timers |
| `DaemonRuns` | the tables and the race for sessions as one machine |
| `Sessions`, `Callback`, `CallbackServer`, `Timing`, `Login` | the pending-session store, the race between callbacks, timeout, supersession and retries, the lifetimes involved, and a login from CONNECT to decision |
| `Broker`, `Connections`, `Reader`, `Commands` | the command broker, one connection after another, the reader of the mixed stream, and the commands and their response contracts |
| `Status`, `StatusPrinting`, `Snapshots` | the header-driven `status 3` parser and what it reads back |
| `StateBlob`, `Base64`, `Decimal` | the signed state blob (unpadded base64url, section 5 of RFC 4648) and the 229-byte URL budget |
| `Reauth`, `ReauthRuns` | renegotiation: live check and result cache, and the duration backstop beside the moving tables |
| `Groups`, `Text`, `Basics` | the groups claim, string operations, option and result types |

`dafny verify dfyconfig.toml` checks the whole project.

## How the system is modelled

- Every section under the handler's mutex, every session-store call and every cache lock section is one atomic step. A
  run is any sequence of enabled steps, so a theorem about runs covers every interleaving. Timers are steps; what the
  clock, the network, Cognito or a token says is a parameter of the step.
- The handler, the session store, the cache and the status parser are also classes whose methods follow the source
  step by step. Each method is proved to compute the function that the run theorems are about.
- `SupersedePending` and `Put` happen inside the CONNECT section because the source calls them with the mutex held. The
  `Drop` step of the race stands for every deletion from the store: disconnect, promotion, rebuild, reaper.
- An absent map key stands for Go's empty-string lookup. CIDs are never empty (`Reader.ParseHeader`).
- The command channel of the daemon and the request channel of the broker are one pool: the broker writes any waiting
  command. A reconnect happens once the old broker has stopped and may lose any of them (`Connections.Restart`).
- A rebuild reads the clock once for all its rows.

Environment assumptions, all of them preconditions of steps:

- A CONNECT carries a CID that was never recorded, or the CID of the attempt already recorded for its identity. The
  retry of a CONNECT that was not recorded is such a CONNECT again.
- The common name and connect time of a CID never change. An ESTABLISHED event is handled no earlier than that time.
- A snapshot lists distinct CIDs, lists an established CID as established, and does not list as established a CID that
  is still in flight (internal/auth/handler.go:914-925 leaves its cancel function alone). Where an order is needed, the
  CIDs are canonical unsigned decimals.
- The rebuild runs in the goroutine that handles events. Session IDs are fresh.
- OpenVPN answers each command once, in order, and writes event blocks contiguously. Only the callback server issues
  `client-auth` (internal/callback/server.go:329-333 is the only place that makes such a decision).

## Where code and documentation disagree

- The comment at internal/auth/handler.go:848-859 says that in-flight and promoted CIDs survive the sweep. The code drops
  every CID that the snapshot does not list, and the model does the same.
- docs/architecture.md:404 and docs/architecture.md:412 say that pending rows restore attempt tracking. The code reads only established rows.
- internal/config/config.go:276-279 assumes a state blob of 128 bytes. It has 132 today (`StateBlob.BlobLengthToday`).

## What turned out false, and exactly when it holds

- The reaper may remove a session whose state still decodes: validation accepts windows below one second
  (`Timing.SubSecondWindowUnsafe`). It is safe if and only if the rounding second fits (`Timing.ReaperSafeIff`).
- "Newer" is not an order on arbitrary CIDs (`Election.NewerCanCycle`, `Election.NewerCanTie`). `Election.NewerCyclesIff` and
  `Election.NewerTiesIff` say exactly when it fails; on canonical CIDs it is one (`Election.NewerIsStrictOrder`).
- An established CID may have no expiry: its timeout cleared the attempt before the promotion
  (`Durations.EstablishedWithoutAnchor`), or it was displaced (`Durations.DisplacedWithoutExpiry`). `Durations.ExpiryIffTimed`
  says exactly when it has one or is about to; otherwise its renegotiation is denied (`Durations.UntrackedIffNotTimed`).
- Anchor and eviction mark of an undisturbed owner do not stay unchanged: a rebuild moves the one
  (`Availability.RebuildMovesAnchor`) and may set the other (`Availability.RebuildMarksOverdue`). The anchor moves if and only
  if the timer is started again and it was later than the connect time (`Availability.AnchorMovesIff`); the mark is new if and
  only if a rebuild found the owner overdue (`Availability.AvailabilityFirst`).
- Newest-wins does not survive the replay of a losing CID's ESTABLISHED event (`Availability.ReplayedLoserTakes`,
  `Availability.LoserCanBeReplayed`). It survives if and only if no step takes the identity away
  (`Availability.NewestWinsUntilTaken`).
- A NUL inside a name can make a foreign route confirm a client (`StatusPrinting.ForeignRouteConfirms`). It does if and only
  if the route straddles the client (`StatusPrinting.RoutingConfirmedExact`), which needs one name followed by NUL to begin
  the other (`StatusPrinting.NamesCollideIff`).
- A silent startup estimate does not bound the URL (`StateBlob.TwelveDigitsDoNotFit`). It does if and only if the two
  timestamps have at most 23 characters together (`StateBlob.SilentUrlsFitIff`).

## Model

| member | source | states |
|---|---|---|
| `OwnershipRuns.ReachableInv` | internal/auth/handler.go:263-325 | in every reachable state, whatever the interleaving: phases of a record exclude each other, attempt index and live records point at each other, active entries point at established records of their identity, every established non-owner is marked for eviction, and anchors agree with their history |
| `OwnershipRuns.RunKeepsInv` | internal/auth/handler.go:570-963 | the same from any state that satisfies it, over any run of connect, promote, establish, disconnect, cleanup, timeout, expiry and rebuild steps |
| `Ownership.ConnectKeepsInv` | internal/auth/handler.go:263-325 | a CONNECT that meets any conflict keeps the four table invariants |
| `Ownership.ConnectRecords` | internal/auth/handler.go:315-324 | an admitted CONNECT is recorded in flight with its own session, name, identity, key and time, and nothing else set |
| `Ownership.AdmittedExactly` | internal/auth/handler.go:263-313 | a CONNECT is admitted if and only if its identity has no attempt, or another CID's unpromoted one that can be superseded |
| `Ownership.PromoteKeepsInv` | internal/auth/handler.go:570-600 | promotion keeps them |
| `Ownership.PromoteRecords` | internal/auth/handler.go:570-600 | promotion applies to in-flight records only, keeps the time of the CONNECT, and starts the deadline; no other record changes |
| `Ownership.EstablishShape` | internal/auth/handler.go:614-643 | establishment changes its own record, marks and un-anchors the displaced owner, and touches no other record |
| `Ownership.EstablishKeepsInv` | internal/auth/handler.go:614-643 | establishment keeps the invariants, the eviction mark of the displaced owner included |
| `Ownership.RemovalsKeepInv` | internal/auth/handler.go:529-555 | disconnect, cleanup of a promoted attempt and the end of an in-flight attempt keep them |
| `Ownership.FieldUpdatesKeepInv` | internal/auth/handler.go:821-846 | setting an anchor, an eviction mark or a user name keeps them |
| `Ownership.ConflictBranchesUnreachable` | internal/auth/handler.go:264-313 | the nil-record and default branches of a CONNECT conflict are dead code |
| `Ownership.OneLiveAttempt` | internal/auth/handler.go:263-325 | two live attempts of one identity are the same CID |
| `Ownership.InFlightCountsAttempts` | internal/auth/handler.go:142-152 | the in-flight records are as many as the identities with an unpromoted attempt |
| `Durations.AnchorNeverLater` | internal/auth/handler.go:614-648 | over any run, duplicate events and rebuilds included, an expiry anchor once set never moves later |
| `Durations.ReauthBounded` | internal/auth/handler.go:397-421 | no REAUTH passes the duration check after the first anchor plus the maximum duration |
| `Durations.CheckExactly` | internal/auth/handler.go:397-421 | without a maximum every session passes; with one, an anchored session passes if and only if `now <= anchor + maximum`, and one without anchor is untracked |
| `Durations.NeverAnchoredDenied` | internal/auth/handler.go:397-413 | a CID never anchored in the run is always denied |
| `Durations.ExpiryIffTimed` | internal/auth/handler.go:614-648 | over any run, a tracked CID has an expiry, or a start to come, if and only if some step met the guard of the timer for it (promoted, or confirmed by a status query, at its first establishment, or listed by a rebuild) and no later step displaced it, unless that step found the start still to run |
| `Durations.EventTimesPromoted` | internal/auth/handler.go:646-648 | an ESTABLISHED event starts the timer, at the event, exactly for a promoted CID that was not established before |
| `Durations.ConfirmedIsTimed` | internal/auth/handler.go:646-648 | a status answer starts it at the connect time for any CID established for the first time |
| `Durations.UntrackedIffNotTimed` | internal/auth/handler.go:397-413 | with no start to come, the REAUTH of a tracked CID is turned away as untracked if and only if that condition fails |
| `Durations.DisplacedWithoutExpiry` | internal/auth/handler.go:633-641 | a reachable owner that was anchored, is displaced, stays established and tracked, and has no expiry: denied at every clock |
| `Durations.EstablishedWithoutAnchor` | internal/auth/handler.go:353-374 | a reachable established record without an anchor: the timeout cleared the attempt before the promotion |
| `Availability.AvailabilityFirst` | internal/auth/handler.go:177-374 | over any run, rebuilds included, until another CID of the identity establishes, a rebuild elects another one or the owner disconnects: the owner keeps its identity and stays established, its anchor is the last one that its own timer start set, and its eviction mark is new if and only if a rebuild of the run listed it past its duration and that mark is no longer queued |
| `Availability.AnchorMovesIff` | internal/auth/handler.go:821-846 | the anchor of an undisturbed, anchored owner moves if and only if its timer is started again and it was later than the connect time; and it moves there |
| `Availability.OwnsThroughoutIff` | internal/auth/handler.go:614-643 | an owner owns its identity in every state of a run if and only if no step of the run takes it away |
| `Availability.OwnerIsLastTaker` | internal/auth/handler.go:614-643 | over any run the owner is the last CID to establish or to be elected, unless it disconnected afterwards |
| `Availability.RebuildElectsExactly` | internal/auth/handler.go:880-944 | after a rebuild the active index is exactly the elected owners, nothing older |
| `Availability.RebuildMovesAnchor` | internal/auth/handler.go:946-961 | a reachable run in which an undisturbed owner keeps its identity and yet its anchor moves, from the event time back to the connect time of the snapshot |
| `Availability.RebuildMarksOverdue` | internal/auth/handler.go:950-957 | a reachable run in which an undisturbed owner keeps its identity and is marked for eviction, by a rebuild after its maximum duration |
| `Availability.NewestWinsUntilTaken` | internal/auth/handler.go:906-943 | after a rebuild the newest row owns its identity, and goes on owning it through a replay if and only if no step takes it away |
| `Availability.ReplayedLoserTakes` | internal/auth/handler.go:610-643 | a replayed ESTABLISHED of a row that lost takes the identity, although the row is marked for eviction |
| `Availability.LoserCanBeReplayed` | internal/app/daemon.go:318-327 | such a run is reachable: two sessions of one name, the older one replayed |
| `Attempts.RetryFindsNoAttempt` | internal/auth/handler.go:275-287 | after any steps without a CONNECT that include the cleanup, the retried CONNECT meets no attempt, so the recursion is at most one deep |
| `Attempts.RetryIsAdmitted` | internal/auth/handler.go:275-325 | conflict, cleanup and retry as one run: the first CONNECT changes nothing, other goroutines interleave, and the same CONNECT with a new session ID and clock is then recorded as the attempt |
| `Attempts.NeverInFlightAgain` | internal/auth/handler.go:570-600 | a recorded CID that left its in-flight phase never enters it again in any run, the retry included |
| `Attempts.EstablishAfterPromote` | internal/auth/handler.go:610-612 | the promotion made by an ESTABLISHED event ensures the guard of the establishment that follows, whatever interleaves |
| `Election.ElectPartitions` | internal/auth/handler.go:906-943 | valid rows split exactly into one winner per identity and losers evicted once each |
| `Election.NewerIsStrictOrder` | internal/auth/handler.go:974-984 | on canonical CIDs the comparison is a strict total order |
| `Election.NewerCyclesIff` | internal/auth/handler.go:974-984 | three rows beat each other in a circle if and only if they connected together and, up to rotation, two are numerals and the third is not and lies between them in the alphabet against their numeric order |
| `Election.NewerTiesIff` | internal/auth/handler.go:974-984 | neither of two rows is newer if and only if they connected together and have the same CID or numerals of the same value; and never is each newer than the other |
| `Election.NewerCanCycle` | internal/auth/handler.go:974-984 | three CIDs, one not a number, that beat each other in a circle |
| `Election.NewerCanTie` | internal/auth/handler.go:974-984 | "1" and "01" tie |
| `Election.WinsIffUnbeaten` | internal/auth/handler.go:926-939 | a row wins if and only if no newer row of its identity is listed |
| `Election.WinnerIsNewest` | internal/auth/handler.go:926-939 | the winner connected last and, among equals, has the greatest CID |
| `Election.ElectionOrderIrrelevant` | internal/auth/handler.go:906-943 | permuting the rows changes neither the winners nor the multiset of evicted CIDs |
| `Rebuild.ReconcileKeepsInv` | internal/auth/handler.go:880-944 | the locked part of the rebuild keeps the invariants for any trustworthy snapshot |
| `Rebuild.SoleRowWins` | internal/auth/handler.go:926-943 | the only row of its identity becomes owner and is not marked |
| `Rebuild.RebuildTracks` | internal/auth/handler.go:874-963 | afterwards the tracked CIDs are exactly the old ones still listed plus all valid established ones |
| `Rebuild.RebuildIdempotent` | internal/auth/handler.go:874-963 | the same snapshot at the same clock changes nothing the second time |
| `Rebuild.AnchorAllShape` | internal/auth/handler.go:946-961 | the expiry pass sets the anchor of each listed record to its connect time and marks it when `now - connectedAt >= maxDuration`, and does nothing else |
| `Rebuild.RebuildMarksExactly` | internal/auth/handler.go:874-963 | after a rebuild a valid row is marked if and only if it was marked before, lost the election, or a maximum is set and `now - connectedAt` has reached it; and it is anchored to its connect time |
| `Rebuild.ReconciledRow` | internal/auth/handler.go:914-939 | a listed record takes name and identity of its row, is established and not promoted, and keeps everything else, its user name included |
| `HandlerClass.Handler.InFlight` | internal/auth/handler.go:142-152 | the counting loop returns the number of in-flight records, and of unpromoted attempts |
| `HandlerClass.Handler.HandleConnect` | internal/auth/handler.go:177-340 | the whole method: denied and nothing changed without web login, name, valid name or session ID; otherwise tables, session store and decisions for each kind of conflict and for a URL that is too long, with the invariant kept |
| `HandlerClass.Handler.HandleNamedConnect` | internal/auth/handler.go:221-340 | the part after those checks: the pending decision carries the CID and KID of the event and the URL with the signed state of its own session; the recursion terminates |
| `HandlerClass.RefusalExactly` | internal/auth/handler.go:178-198 | each refusal before a session is made has its only cause, stated on what the client sent |
| `HandlerClass.EventKeepsRequest` | internal/auth/handler.go:215-233 | the event handled is the request's own, and its retry differs only in the session ID and clock that it draws |
| `HandlerClass.Handler.SessionBelongs` | internal/auth/handler.go:222-233 | the session of a CONNECT carries its session ID, CID, KID and name, the cross-check and group rules of the handler, and lives for twice the hand window |
| `Login.UrlNamesSession` | internal/auth/handler.go:234-244 | the `state` parameter of the login URL, brought back plain or quoted, decodes to the session of the CONNECT until its second is over, and to nothing after |
| `Login.LoginDecidesConnect` | internal/callback/server.go:145-343 | a browser that follows the URL of a CONNECT in time is judged as that session: it passes if and only if token, names and group fit the rules of the handler that took the CONNECT, and the CID and KID are those of the CONNECT |
| `Login.PendingNamesClient` | internal/auth/handler.go:333-341 | the pending decision names the CID and KID of the CONNECT and the hand window in whole seconds |
| `Login.SessionOutlivesState` | internal/auth/handler.go:221-238 | until its state expires the session of a CONNECT survives the reaper, under validated settings |
| `HandlerClass.Handler.MeetPromoted` | internal/auth/handler.go:275-297 | the conflict with a promoted attempt: retried with a new session ID and clock when the attempt is gone, denied otherwise, established first when OpenVPN says so |
| `HandlerClass.Handler.HandleDisconnect` | internal/auth/handler.go:529-555 | the record, its index entries and its session go, and nothing else |
| `HandlerClass.Handler.PromoteSession` | internal/auth/handler.go:570-600 | an in-flight record becomes promoted and its session is deleted; any other is left alone |
| `HandlerClass.Handler.MarkAuthenticated` | internal/auth/handler.go:789-798 | the user name is recorded when there is one, the CID is promoted and its pending session deleted |
| `HandlerClass.Handler.ReplaceExpiryState` | internal/auth/handler.go:821-846 | a tracked CID gets the anchor, an untracked one nothing |
| `HandlerClass.Handler.EstablishCid` | internal/auth/handler.go:614-658 | ownership moves, the displaced CID is returned for killing, and a timer starts only for a first establishment of a promoted or snapshot-confirmed CID |
| `HandlerClass.Handler.EstablishPromoted` | internal/auth/handler.go:288-290 | a promoted attempt found established takes its identity, leaves the attempt index and keeps the invariant |
| `HandlerClass.Handler.CleanupPromoted` | internal/auth/handler.go:744-759 | only a promoted record is removed, with its attempt entry |
| `HandlerClass.Handler.ClearInFlight` | internal/auth/handler.go:800-810 | the record stops being in flight and its attempt entry goes unless it was promoted |
| `HandlerClass.Handler.SweepAbsent` | internal/auth/handler.go:880-904 | the loop drops exactly the unlisted records, their index entries and their sessions |
| `HandlerClass.Handler.AdoptRows` | internal/auth/handler.go:906-943 | the row loop computes the elected owners, the eviction list and the merged tables in closed form |
| `HandlerClass.Handler.AnchorRows` | internal/auth/handler.go:946-961 | the expiry loop anchors every row and returns the overdue CIDs in order |
| `HandlerClass.Handler.RebuildSessionTrackingFromSnapshot` | internal/auth/handler.go:874-963 | the whole method: the rebuilt tables, the store without the sessions of dropped CIDs, and how often each row is killed: once for losing, once when a maximum is set and `now - connectedAt` has reached it |
| `HandlerClass.RowKilled` | internal/auth/handler.go:930-957 | that count, for every list of rows with distinct CIDs |
| `HandlerClass.Handler.SendEvictions` | internal/app/daemon.go:328-348 | the bootstrap loop kills each CID at most once, only if it is still tracked and marked, and every such CID unless a status query fails; a killed CID is dropped if and only if the query finds it gone, and all other records are untouched |
| `HandlerClass.SweepStep` | internal/auth/handler.go:881-904 | dropping one more record in the sweep is disconnecting it |
| `Sessions.SessionStore.TryProcess` | internal/auth/sessions.go:35-47 | PENDING becomes PROCESSING for one caller; otherwise the store is unchanged and the error says why |
| `Sessions.SessionStore.SupersedePending` | internal/auth/sessions.go:67-79 | PENDING becomes FAILED; otherwise the store is unchanged and the error says why |
| `Sessions.SessionStore.Mark` | internal/auth/sessions.go:49-88 | the three marking methods change one session's status and nothing else |
| `Sessions.SessionStore.Reap` | internal/auth/sessions.go:118-127 | exactly the sessions past their expiry are removed |
| `Callback.ReachableRaceInv` | internal/callback/server.go:189-343 | in every interleaving of callbacks, timeout, supersession, retries and deletions, each session gets at most one decision, at most one thread holds it, and PROCESSING has a holder |
| `Callback.TerminalForGood` | internal/auth/sessions.go:35-94 | DONE and FAILED are never left until the session is dropped, and a dropped session never returns |
| `Callback.TerminalMeansDecided` | internal/callback/server.go:189-343 | in every interleaving a FAILED session was decided or its thread is about to deny it, and a DONE session was allowed: with ReachableRaceInv, exactly one decision |
| `Callback.PassExactly` | internal/callback/server.go:203-324 | a request passes if and only if its token is good, the names match under cross-check, and the required group is held |
| `Callback.OutcomeExactly` | internal/callback/server.go:203-324 | the outcome of every request by token, names and membership alone: retried if and only if the signing key could not be fetched, and each refusal with its reason if and only if its cause holds |
| `Callback.AllowIsJustified` | internal/callback/server.go:145-343 | every allow follows, in this order, the CONNECT that created its session and the request's own verified unexpired state, then its win from PENDING; and the request passed the checks |
| `Callback.ClientAuthIsJustified` | internal/callback/server.go:329-333 | every command given to a broker, on any connection, whose first word is `client-auth` is the command of such an allow; other senders are held only to decisions other than allow |
| `Callback.AuthenticatedAfterSuccess` | internal/callback/server.go:329-342 | MarkAuthenticated is reached only after the session's own allow and after OpenVPN answered SUCCESS to the very request that carried it, across reconnects; no two allows share a request |
| `Callback.AuthenticatedEndsDone` | internal/callback/server.go:339-342 | in every interleaving a session that was authenticated is never FAILED or PENDING again: it is DONE, or its thread is about to mark it so |
| `Callback.ReachableAllAccepted` | internal/callback/server.go:189-343 | every decision, and every thread that holds a session, is about a session that an earlier CONNECT was accepted with |
| `DaemonRuns.ReachableParts` | internal/auth/handler.go:263-325 | in every run of the daemon as one machine, with the store deciding supersession, the tables and the race each run as they do alone, so every theorem about either holds |
| `DaemonRuns.NobodyUninvited` | internal/auth/handler.go:570-643 | every promoted CID was let in by a callback or named by an ESTABLISHED event that the reader handed on, and every established CID and owner was named by such an event or listed as established by a status answer |
| `DaemonRuns.LetInMeans` | internal/callback/server.go:329-342 | being let in means a justified allow of that CID whose very request OpenVPN answered with SUCCESS |
| `DaemonRuns.OneDecisionPerClient` | internal/auth/handler.go:298-374 | each client, not just each session, gets at most one decision from callback, timeout and supersession together |
| `DaemonRuns.SupersededIsTheRival` | internal/auth/handler.go:298-331 | the session that a CONNECT supersedes is the pending one of the record it met, with its CID and KID |
| `CallbackServer.HandleCallback` | internal/callback/server.go:145-347 | store and decisions of one callback for each course; if the signing key could not be fetched the store is exactly as it was and nothing is sent; every other judged request ends the session with one decision, a deny unless the token is good |
| `CallbackServer.TimeOut` | internal/auth/handler.go:359-373 | a session still pending is failed and denied; any other is left alone |
| `Broker.ReachableInv` | internal/app/management_protocol.go:68-141 | in every interleaving: replies sound, earlier commands paired, and what remains of the outstanding response is exactly what is still on its way |
| `Broker.ReplyMatchesResponse` | internal/app/management_protocol.go:88-134 | a reply other than a failure is the one that the command's own response deserves |
| `Broker.EarlierCommandsAnswered` | internal/app/management_protocol.go:68-86 | while the broker runs, every command before the outstanding one has its reply |
| `Broker.NoUnexpectedLine` | internal/app/management_protocol.go:74-76 | the idle broker never meets a response line, so its desynchronization branch is dead under the assumptions |
| `Broker.StopsForGood` | internal/app/management_protocol.go:136-141 | once stopped it writes nothing and answers nobody, over any run |
| `Broker.StopsExactly` | internal/app/management_protocol.go:68-134 | the broker stops if and only if a write fails, a response is late, the context ends, or a line breaks the outstanding contract; a refused command does not stop it |
| `Broker.LineDecides` | internal/app/management_protocol.go:108-116 | a one-line answer is taken with SUCCESS:, refused with ERROR:, and out of step otherwise |
| `Broker.AckMeansSuccess` | internal/app/daemon.go:117-156 | a nil acknowledgement means OpenVPN answered SUCCESS to that very command |
| `Broker.WireReadsBack` | internal/app/management_protocol.go:192-235 | the text on the wire, read by the reader, gives the broker exactly the pending response lines |
| `Broker.ExecuteInterprets` | internal/app/management_protocol.go:94-133 | a complete response, whatever follows it, is given the reply that the whole response deserves |
| `Broker.ExecuteInterrupted` | internal/app/management_protocol.go:99-104 | a timer or a cancellation before the last line fails the command |
| `Broker.ExecuteWaits` | internal/app/management_protocol.go:117-121 | with neither, an incomplete response is waited for |
| `Broker.Execute` | internal/app/management_protocol.go:88-134 | the select loop computes the specification that those three describe |
| `Connections.InvKept` | internal/app/daemon.go:377-395 | the broker invariant holds on every connection of a run, and request numbers are never reused |
| `Connections.AckSucceeded` | internal/app/daemon.go:377-395 | an acknowledged one-line request was written on some connection and answered there with one SUCCESS line |
| `Connections.SentWasSubmitted` | internal/app/daemon.go:377-395 | no broker is ever given a command that nobody submitted |
| `Commands.DecisionContract` | internal/app/management_protocol.go:175-190 | the command of a decision has a one-line contract if and only if it names its client |
| `Commands.ReadUndoesWrite` | internal/app/daemon.go:49-63 | reading a command by the documented form of its literal verb gives back the decision with all its fields, a reason with single quotes; for every decision that a line can carry |
| `Commands.ClientAuthMeansAllow` | internal/mgmt/commands.go:8-37 | a command starts with `client-auth` if and only if its decision is an allow |
| `Commands.PlainCommands` | internal/app/management_protocol.go:178-181 | `status 3` is answered until END and `hold release` by one line |
| `Commands.CommandReadsBack` | internal/app/daemon.go:49-63 | splitting a command at spaces gives its verb, CID and, where sent, KID |
| `Commands.AllowNamesClient` | internal/mgmt/commands.go:16-18 | two `client-auth` commands are equal only for the same CID and KID |
| `Commands.ReasonReadsBack` | internal/mgmt/commands.go:24-30 | an escaped reason cannot end its quotes, and unescaping gives it back with double quotes made single |
| `Reader.ParseHeader` | internal/mgmt/parser.go:9-40 | every named event has a non-empty trimmed CID, and CONNECT and REAUTH, and only they, a non-empty trimmed KID |
| `Reader.ReadEvent` | internal/mgmt/parser.go:48-88 | the block loop returns the event and stops right after its end marker, or fails at end of input |
| `Reader.ReadManagement` | internal/app/management_protocol.go:192-235 | the reader loop computes the recursive specification on every stream, errors included |
| `Reader.ReadUndoesPrint` | internal/app/management_protocol.go:192-235 | for every stream that interleaves event blocks, notifications and responses, exactly the printed events and exactly the response lines come out, in order |
| `Reader.MalformedHeaderStops` | internal/app/management_protocol.go:202-206 | a header without its client ends the reading with an error, after everything before it was handed on |
| `Reader.IncompleteHeaders` | internal/mgmt/parser.go:11-28 | a CONNECT or REAUTH without a key ID is such a header, and so is an event with a blank client ID |
| `Reader.ClientTolerates` | internal/mgmt/parser.go:15-28 | a client ID may have white space around it and more fields after it |
| `Reader.KeyTolerates` | internal/mgmt/parser.go:90-101 | and so may the key ID |
| `Reader.OddEnvLines` | internal/mgmt/parser.go:74-82 | lines of a block that are no assignment leave the environment alone |
| `Reader.TruncatedBlockStops` | internal/mgmt/parser.go:84-87 | a block that the socket cuts off is an error |
| `Reader.EnvLastWins` | internal/mgmt/parser.go:68-83 | an event has exactly the printed keys, each with its last value |
| `Status.ParseStatusLines` | internal/mgmt/status.go:11-23 | the loop over the parser object computes the recursive specification, errors included |
| `Status.StatusParser.FinalizeOnce` | internal/mgmt/status.go:111-135 | classifies all clients and collects the established ones once; later calls change nothing |
| `Status.StatusParser.ConsumeLine` | internal/mgmt/status.go:39-79 | one line moves the parser's fields as specified, or reports the parse error |
| `StatusPrinting.TableRoundTrip` | internal/mgmt/status.go:11-164 | for any column order and either separator, parsing a printed table returns exactly its rows in order, established exactly with a virtual address, and confirmed exactly by a route of its own or a straddling one; no condition on the names |
| `StatusPrinting.NeedsEnd` | internal/mgmt/status.go:22 | a response without END is never a snapshot |
| `StatusPrinting.SinceFallsBack` | internal/mgmt/status.go:84 | without the numeric column the connect time is read from the plain one |
| `StatusPrinting.OddClientRows` | internal/mgmt/status.go:85-92 | a row whose connect time is no number fails the response, one without CID or name is passed over |
| `StatusPrinting.HeaderNameVariants` | internal/mgmt/status.go:146-150 | header names compare without case and without inner spaces, dashes, underscores and brackets |
| `StatusPrinting.RoutingConfirmedExact` | internal/mgmt/status.go:117-125 | on any input a client is confirmed if and only if its own route is listed or a foreign route straddles it |
| `StatusPrinting.SameKeyIff` | internal/mgmt/status.go:119-124 | two routes share a key if and only if they are equal or one straddles the other across a NUL |
| `StatusPrinting.NamesCollideIff` | internal/mgmt/status.go:119-124 | different names can share a key if and only if one of them followed by NUL begins the other |
| `StatusPrinting.NulFreeNotMisled` | internal/mgmt/status.go:119-124 | with NUL-free names no foreign route confirms |
| `StatusPrinting.ForeignRouteConfirms` | internal/mgmt/status.go:111-135 | a printed status table in which the parser confirms a client by the route of another name |
| `Snapshots.EstablishedInOrder` | internal/mgmt/status.go:126-133 | the established sessions are those of the established clients, in their order, none left out and none twice |
| `Snapshots.ClientByCid` | internal/mgmt/events.go:46-53 | finds a client with the CID if and only if there is one |
| `Base64.DecodeEncode` | internal/auth/state.go:24-41 | unpadded base64url decoding undoes encoding for all byte strings |
| `Base64.KnownTexts` | internal/auth/state.go:24 | known base64url texts |
| `Base64.DigitCodes` | internal/auth/state.go:24 | the URL-safe alphabet in the order of the standard |
| `StateBlob.DecodeEncodeState` | internal/auth/state.go:17-54 | decoding undoes encoding until the expiry second, and fails afterwards |
| `StateBlob.DecodedIsSigned` | internal/auth/state.go:28-54 | a state that decodes carries a verified signature and is not expired |
| `StateBlob.TrimStateRestores` | internal/callback/server.go:153-155 | the blob, alone or followed by an apostrophe, by "%27" or by both, trims back to itself |
| `StateBlob.AuthUrlLength` | internal/auth/handler.go:234-244 | the exact length of the URL in terms of the session ID and the two timestamps |
| `StateBlob.UrlCarriesState` | internal/auth/handler.go:240-244 | the URL leads to the callback and its `state` parameter, read as a server reads it, is the blob, whether or not the callback URL has a query |
| `StateBlob.MarshalText` | internal/auth/state.go:11-18 | the JSON text of a payload |
| `StateBlob.UrlFitsBudget` | internal/config/config.go:277-286 | with no startup warning and timestamps in [0, 10^11), the URL has at most 229 bytes |
| `StateBlob.BlobLengthToday` | internal/config/config.go:276-281 | with ten-digit timestamps the blob has 132 characters |
| `StateBlob.SilentUrlsFitIff` | internal/config/config.go:200-286 | every callback URL without a length warning fits the budget if and only if the two timestamps have at most 23 characters together; the same for the https URLs that startup accepts in silence |
| `StateBlob.TwelveDigitsDoNotFit` | internal/auth/handler.go:250-257 | with twelve-digit timestamps some silent callback URL exceeds the budget |
| `StateBlob.TokenFromBytes` | internal/auth/handler.go:1043-1049 | sixteen random bytes give a 22-character session ID of the blob alphabet |
| `Timing.ReaperSafeIff` | internal/auth/sessions.go:118-127 | no session is reaped while its state decodes if and only if auth timeout plus one second less a nanosecond is at most twice the hand window |
| `Timing.ValidTimingSafe` | internal/config/config.go:240-254 | validated settings with a hand window of at least one second are safe |
| `Timing.SubSecondWindowUnsafe` | internal/config/config.go:240-254 | validated settings that are not |
| `Timing.CheckTiming` | internal/config/config.go:240-254 | problems are reported if and only if the timing rules are broken |
| `Timing.ReapKeepsDecodable` | internal/auth/sessions.go:118-127 | reaping keeps every session whose state still decodes, unchanged |
| `Reauth.ReachableSound` | internal/auth/handler.go:376-478 | in every interleaving each finished REAUTH has exactly one decision for its own CID and KID; an allow needs a passed duration check and is grounded in skip mode, a positive live check or the cache; a cached allow had a failed live check and rests on the last stored result, positive and within its time to live; the cache forgets nothing fresh |
| `Reauth.AnswerExactly` | internal/auth/handler.go:376-478 | which answer is given, by event, configuration and live result alone: an allow if and only if named, within its duration, and skipped or positive; each refusal with its reason |
| `Reauth.LiveStores` | internal/auth/handler.go:433-437 | a live result is stored for its name exactly when there is a cache |
| `Reauth.ExpireForgets` | internal/auth/cache.go:31-39 | an entry still too old under the write lock is forgotten, and no other |
| `ReauthRuns.NoAllowAfterMaximum` | internal/auth/handler.go:397-421 | in every interleaving of tables, readings of the anchor and REAUTH threads, a REAUTH that was allowed had its check no later than its client's first anchor plus the maximum duration |
| `ReauthRuns.WithinMaximumAllowed` | internal/auth/handler.go:397-440 | the converse over runs: a REAUTH within the maximum of the current anchor with a positive live answer gets `client-auth-nt` for its CID and KID |
| `ReauthRuns.WithinMaximumSkipped` | internal/auth/handler.go:423-428 | with the live check switched off it gets it at once |
| `ReauthRuns.WithinMaximumCached` | internal/auth/handler.go:441-449 | when the live check fails, a positive result stored within its time to live gives it |
| `ReauthRuns.RecordedNameIsRead` | internal/auth/handler.go:376-385 | the name looked up is the one that the callback recorded |
| `ReauthRuns.FirstStays` | internal/auth/handler.go:821-846 | the first anchor of a client stays what it was over any run |
| `Reauth.ReauthCache.Get` | internal/auth/cache.go:25-42 | returns the entry exactly while it is fresh and removes it otherwise |
| `Groups.ParseClaim` | internal/callback/groupsparser.go:28-134 | on any claim every group is trimmed and not empty |
| `Groups.ThreeShapesAgree` | internal/callback/groupsparser.go:28-134 | array, comma-joined string and bracketed non-JSON string of two or more names all parse to the same list |
| `Groups.OtherShapes` | internal/callback/groupsparser.go:68-93 | a JSON array inside a string is the array, a single name is itself, and blank, bracketed single or foreign claims are no group |
| `Groups.GroupsFromArray` | internal/callback/groupsparser.go:47-64 | the loop keeps the trimmed non-empty strings in order |
| `Groups.GroupsFromCsv` | internal/callback/groupsparser.go:104-118 | the same for the parts of a comma-separated string |
| `Groups.InGroup` | internal/callback/server.go:567-577 | exact, case-sensitive membership |
| `Text.IdentityIgnoresCase` | internal/auth/identity.go:11-22 | two valid names have the same ownership key if and only if they differ in case only, and a key is its own key |

## Left out

- Lambda router, ALB and management mocks, HTML pages, metrics, OIDC debug logging, raw-log redaction: I/O and diagnostics.
- JWT checks, key fetching and its cache, HMAC, AWS and Cognito calls: they enter as parameters with any result.
- Sockets, dialing, backoff, password exchange, graceful shutdown, flag and environment parsing.
- `evictSession`: no other code calls it.
- The kill decisions sent by the promoted-deadline and session-expiry timers: the state changes they lead to are modelled, the commands and their retries are not.
- Channel capacities and wall clocks; DynamoDB ownership, direct OIDC, Entra Graph and cross-region designs, which are planned only.
- Text.IdentityIgnoresCase: lower-cases ASCII letters only, and the UTF-8 validity of names is not modelled.
- StateBlob.DecodeEncodeState: covers session IDs of the base64url alphabet, so JSON string escaping never arises; a payload in another JSON layout than the encoder's is rejected by the model where Go's decoder would accept it.
- Groups.ParseClaim: the JSON decoder is an arbitrary function.
