# Plinth protocols, verified

A Dafny model of the protocols in Plinth's kernel and client whose guarantees span whole runs, and of the wire codec
beside them. `dafny verify dfyconfig.toml` checks everything.

State that the source changes in place is a class here, and each of its methods is proved equal to a step of a pure
state machine. The theorems are about that machine: every interleaving of its steps, with failures, lost
acknowledgements and clocks decided by an adversary. Loops over text and bytes are methods proved against an independent
definition of what they should accept or compute.

- `DispatchStore`, `DispatchRecord`, `StoreSession`, `StoreRoot`: sessions over one obligations table by optimistic
  concurrency, and the database-domain slots. A commit whose acknowledgement is lost may have happened or not, and may
  still happen later. Another session may have the same binding, so what a session knows about its row is stated for
  one that is alone with its dispatch id, and everything else for all of them.
- `Deadlines`, `ResponseArbiter`, `CreditPool`: HTTP ownership, with one frozen choice, one wire handoff, and two levels
  of credits. Clock readings may go backwards. A writer that reports that nothing was attempted may still become
  unknown at expiry; the order of observations takes this into account.
- `Credentials`, `Registration`: login, tokens, recovery, bootstrap and invites as interleaved READ COMMITTED
  transactions under row locks and an advisory lock.
- `DataController`, `RealtimeClient`: the client cache controller and the subscription multiplexer.
- `Base64`, `Utf8`, `RequestTarget`, `Decimal`, `Headers`, `Context`: the codec, following sections 3.5 and 4 of
  RFC 4648, section 4 of RFC 3629, sections 2.1, 2.3 and 3.3 of RFC 3986 and section 7.6.1 of RFC 9110.
- `Preflight`, `FrameRecords`, `Frames`, `FrameReader`, `FrameText`, `WireDocuments`, `FrameEncoding`, `FrameLength`: frames
  as JSON trees, the two automata that check them and their parts as parser events, reading and writing, the bounds on
  the raw text, and the length prefix.
- `Wrappers`, `Limits`, `Arithmetic`, `Sequences`, `Escapes`: what the others share, such as limits and JSON escapes.
- `DispatchFence`, `RateLimiter`, `AuditWrites`, `DetailEncoding`: dispatch fences, the sliding-window limiter, the audit
  write registry and the storage of details with NUL characters.

Three properties one might expect do not hold, and the exact condition is proved instead.

- A true answer of the store's drain does not mean that no callback failed. A callback runs outside the locks and may
  throw after its domain was released, as in the run of `StoreRoot.DrainMissesLateThrow`. `StoreRoot.UnrecordedIsLate` and
  `StoreRoot.RecordedIffNoneRunning` say that this is the only way: the failures are on record for good exactly if no
  callback of the domain was still running at its release, or a failure was on record already.
- With invites required an account may have several invites recorded against it: asking for a taken name spends the
  invite on whoever has the name (`Registration.NameTwiceSpendsTwo`), and `Registration.OwnInviteUnlessNameTaken` says
  this is the only way.
- A stored audit detail is not always read back: `DetailEncoding.TooDeepIsLost` is one that is not, and by
  `DetailEncoding.DecodeInvertsEncode` it is exactly those nested deeper than the reader allows.

Where the comments of `src/kernel/capabilities/drain.hpp` say that entries persist after a fence is released and that
ending a drain removes the name, the model follows the code: an entry stays exactly while it is used, fenced or blocked.

## Model

| member | source | states |
|---|---|---|
| `DispatchStore.SessionStepShape` | src/kernel/extension_http/dispatch_store.cpp:812-1345 | whatever the driver tells a session, at most one operation is open, each callback ran at most once and exactly once after the domain closed, and acknowledged revisions strictly increase |
| `DispatchStore.StepInv` | src/kernel/extension_http/dispatch_store.cpp:812-1433 | every event of every session, with any query failing, any transaction killed and any commit resolved late, keeps the invariant that links each session to the committed table |
| `DispatchStore.StepCommits` | src/kernel/extension_http/dispatch_store.cpp:1163-1180 | one step commits at most one version of one row, from revision r to r + 1 with binding and fence unchanged; all other rows are untouched |
| `DispatchStore.RunInv` | src/kernel/extension_http/dispatch_store.cpp:812-1433 | in every interleaving the invariant holds at every point and the table only grows by further versions |
| `DispatchStore.AcknowledgedWasCommitted` | src/kernel/extension_http/dispatch_store.cpp:1057-1095 | a phase acknowledgement is given only for a record that is exactly a committed version of the row of that session, and it stays one forever |
| `DispatchStore.CallbacksAndSealing` | src/kernel/extension_http/dispatch_store.cpp:845-886 | callbacks run at most once and are never revised, exactly once per operation of a closed domain, and a session that ended an operation in error starts no further one |
| `DispatchStore.DistinctCommits` | src/kernel/extension_http/dispatch_store.cpp:1163-1180 | no two transactions take the same row from the same revision |
| `DispatchStore.ReachableTable` | src/kernel/extension_http/dispatch_store.cpp:1206-1255 | every reachable table has at most 8 pending obligations, at most 4 per package, and a gap-free version chain per row |
| `DispatchStore.RunRowsOwned` | src/kernel/extension_http/dispatch_store.cpp:1350-1367 | every row of the table belongs to the dispatch id of some session |
| `DispatchStore.RunOnlyWriter` | src/kernel/extension_http/dispatch_store.cpp:859-886 | for a session alone with its dispatch id the durable row is always what its own operations made it |
| `DispatchStore.SessionKnowsRow` | src/kernel/extension_http/dispatch_store.cpp:1007-1075 | such a session, idle and unsealed, knows the durable row exactly; sealed, the row is the last acknowledged record or the result of the last operation |
| `DispatchRecord.PublicMutationsPass` | src/kernel/extension_http/dispatch_store.cpp:388-420 | the mutations that prepare and arm build always pass the exact-postcondition test they are later held to |
| `DispatchRecord.TimeoutMs` | src/kernel/extension_http/dispatch_store.cpp:422-430 | the milliseconds given to the database are never zero, never past the deadline and all that is left; None exactly when under a millisecond or over the 31-bit range |
| `StoreSession.Client.Create` | src/kernel/extension_http/dispatch_store.cpp:1350-1367 | a session exactly for a valid binding and a clock on an open domain with a lease that has had none; the domain is marked and nothing else in it changes |
| `StoreSession.Client.Mutate` | src/kernel/extension_http/dispatch_store.cpp:1373-1433 | the refusal is exactly the first entry check that fails, in order; refused, nothing changes; otherwise one operation is opened |
| `StoreSession.Client.Finish` | src/kernel/extension_http/dispatch_store.cpp:859-886 | the first answer is the only callback of the operation for good; an error seals and keeps the acknowledged record, a success replaces it |
| `StoreSession.Client.CallbackThrew` | src/kernel/extension_http/dispatch_store.cpp:876-885 | at any time after a callback started: sealed for good, nothing else taken back |
| `StoreSession.Client.Rollback` | src/kernel/extension_http/dispatch_store.cpp:887-902 | the transaction is abandoned and the operation answered with the error once |
| `StoreSession.Client.Start` | src/kernel/extension_http/dispatch_store.cpp:1256-1306 | the operation goes on exactly with a transaction on a domain that is not closing |
| `StoreSession.Client.LockGate` | src/kernel/extension_http/dispatch_store.cpp:1307-1327 | the gate comes before any read, and only while the domain is not closing |
| `StoreSession.Client.Inspect` | src/kernel/extension_http/dispatch_store.cpp:1206-1254 | the operation goes on exactly if the row is the acknowledged record in full, or absent when there is none |
| `StoreSession.Client.Count` | src/kernel/extension_http/dispatch_store.cpp:1216-1232 | an insert goes on exactly with fewer than 8 pending overall and 4 of the package |
| `StoreSession.Client.CheckReceipt` | src/kernel/extension_http/dispatch_store.cpp:1181-1205 | an insert goes on exactly if the claim receipt matched |
| `StoreSession.Client.Write` | src/kernel/extension_http/dispatch_store.cpp:1163-1180 | the operation goes on exactly if the compare-and-swap returned a row |
| `StoreSession.Client.Project` | src/kernel/extension_http/dispatch_store.cpp:1096-1162 | a confirmed projection must succeed; others are not projected |
| `StoreSession.Client.VerifyWritten` | src/kernel/extension_http/dispatch_store.cpp:1076-1095 | a commit is requested exactly if the row read back in the transaction is the expected one |
| `StoreSession.Client.Committed` | src/kernel/extension_http/dispatch_store.cpp:1057-1075 | acknowledged: the expected record; not acknowledged: one readback, only if none was used and the domain is open |
| `StoreSession.Client.Readback` | src/kernel/extension_http/dispatch_store.cpp:1007-1056 | success exactly if the row is the expected one; otherwise sealed with the acknowledged record unchanged |
| `StoreSession.Client.DomainClosed` | src/kernel/extension_http/dispatch_store.cpp:845-853 | every operation ends with exactly one callback |
| `StoreRoot.StepInv` | src/kernel/extension_http/dispatch_store.cpp:566-742 | open, close and release in any interleaving keep slots and domains in agreement |
| `StoreRoot.RunInv` | src/kernel/extension_http/dispatch_store.cpp:566-742 | so does every run, and closed, failed and released domains stay so |
| `StoreRoot.SlotHeldUntilClosed` | src/kernel/extension_http/dispatch_store.cpp:566-605 | a domain holds its own slot from registration until release, which follows a real close; no two unreleased domains share a slot, and nothing ever begins on a domain without a lease |
| `StoreRoot.DrainIsFinal` | src/kernel/extension_http/dispatch_store.cpp:633-648 | once drain answers true every domain ever registered is closed and released with all its operations answered, and none ever comes back |
| `StoreRoot.UnrecordedIsLate` | src/kernel/extension_http/dispatch_store.cpp:708-730 | a failure of a released domain is on record at the root, except exactly when a callback that outlived the release threw |
| `StoreRoot.RecordedIffNoneRunning` | src/kernel/extension_http/dispatch_store.cpp:717-723 | whatever happens afterwards, every failure of a released domain is on record exactly if no callback of it was running at the release or one was on record anyway |
| `StoreRoot.DrainMissesLateThrow` | src/kernel/extension_http/dispatch_store.cpp:876-885 | a run of a request domain in which drain answers true and a callback of the domain then throws |
| `StoreRoot.DispatchStoreRoot.OpenImpl` | src/kernel/extension_http/dispatch_store.cpp:566-609 | a domain is registered exactly when admission, process state, reservation and a free slot allow |
| `StoreRoot.DispatchStoreRoot.Close` | src/kernel/extension_http/dispatch_store.cpp:665-730 | true exactly when the native clients closed and neither an earlier callback nor one of those completed here threw; only a real close frees the slot, and no other domain changes |
| `StoreRoot.DispatchStoreRoot.CompleteAll` | src/kernel/extension_http/dispatch_store.cpp:708-710 | every operation nobody answered is completed; the failure flag is set exactly if one of them threw |
| `StoreRoot.DispatchStoreRoot.Drain` | src/kernel/extension_http/dispatch_store.cpp:633-648 | true exactly when every slot is free, nothing is accepted and no failure was recorded |
| `Deadlines.MakeIsGreatest` | src/kernel/extension_http/ownership.cpp:196-209 | both deadlines are the last instants within budget, 64-bit range and enclosing deadline; refused exactly when no such instant lies after admission |
| `Deadlines.DrainDeadlineIsGreatest` | src/kernel/extension_http/ownership.cpp:210-225 | the last instant that configuration, package and coordinator allow; refused exactly for a configuration out of range |
| `Deadlines.MakeSatisfiesEveryOwner` | src/kernel/extension_http/authentication.cpp:63-70 | what make produces passes the checks of the arbiter, of authentication and of the binding, and is a fixed point of make |
| `ResponseArbiter.RunGuarantees` | src/kernel/extension_http/ownership.cpp:253-288 | over any run: the choice never changes once frozen, authorized and cancelled means frozen, cancelled before authorization means no choice and no handoff ever, the wire observation only climbs |
| `ResponseArbiter.AtMostOneAccepted` | src/kernel/extension_http/ownership.cpp:350-394 | at most one candidate of a run is accepted, and only with a clock in [admitted, cutoff) |
| `ResponseArbiter.AcceptanceFreezes` | src/kernel/extension_http/ownership.cpp:350-394 | an accepted candidate found no choice and left one, on an authorized live uncancelled owner |
| `ResponseArbiter.AcceptedIff` | src/kernel/extension_http/ownership.cpp:350-394 | a candidate is accepted exactly by a live authorized owner without a choice, in the window, and is then the choice; duplicate exactly when there is one |
| `ResponseArbiter.AuthorizedIff` | src/kernel/extension_http/ownership.cpp:322-331 | authorized exactly once, by a live uncancelled owner with an open wire in the window |
| `ResponseArbiter.HandedOffIff` | src/kernel/extension_http/ownership.cpp:444-465 | the writer runs exactly if there is one, the owner may hand off and the clock is before wire expiry |
| `ResponseArbiter.CancelSettles` | src/kernel/extension_http/ownership.cpp:395-421 | a cancelled owner has a choice exactly if it was authorized |
| `ResponseArbiter.ChoiceIsFirstSettlement` | src/kernel/extension_http/ownership.cpp:253-288 | the frozen choice is exactly what the first settling call of the history dictates, and there is none before it |
| `ResponseArbiter.RunExplained` | src/kernel/extension_http/ownership.cpp:322-425 | each flag of the owner is the one the history of calls explains, and a choice appears exactly at the first settling call |
| `ResponseArbiter.DurableWasConfirmed` | src/kernel/extension_http/ownership.cpp:434-443 | a durable choice was confirmed by an earlier call with exactly that record |
| `ResponseArbiter.HandoffGuard` | src/kernel/extension_http/ownership.cpp:444-465 | the writer runs only on a durable choice with a status, not handed over before, in [admitted, wire expiry) |
| `ResponseArbiter.AtMostOneHandoff` | src/kernel/extension_http/ownership.cpp:444-465 | the writer runs at most once in a run, on the choice the run ends with, after its durable confirmation |
| `ResponseArbiter.Owner.Create` | src/kernel/extension_http/ownership.cpp:291-320 | an owner exactly for a well-formed identity, usable bounds, lease, clock and both memory charges |
| `ResponseArbiter.Owner.UpdateClock` | src/kernel/extension_http/ownership.cpp:270-288 | cutoff and wire expiry take effect as the pure update says |
| `ResponseArbiter.Owner.AuthorizeDispatch` | src/kernel/extension_http/ownership.cpp:322-331 | invariant kept, nothing undone; true exactly when it may authorize |
| `ResponseArbiter.Owner.EntryPermitted` | src/kernel/extension_http/ownership.cpp:332-338 | true exactly for a live, authorized, uncancelled owner in its execution window; then any response would be accepted, as long as there is no frozen choice |
| `ResponseArbiter.Owner.RemainingExecutionMs` | src/kernel/extension_http/ownership.cpp:339-349 | never past the cutoff, and all whole milliseconds that are left |
| `ResponseArbiter.Owner.SubmitResponse` | src/kernel/extension_http/ownership.cpp:350-365 | invariant kept, nothing undone; accepted exactly when it may be, and then frozen as the choice |
| `ResponseArbiter.Owner.SubmitFailure` | src/kernel/extension_http/ownership.cpp:366-394 | the same for a failure and its mapped status |
| `ResponseArbiter.Owner.CancelOwner` | src/kernel/extension_http/ownership.cpp:395-421 | invariant kept, nothing undone; a choice exactly if authorized |
| `ResponseArbiter.Owner.ConfirmChoice` | src/kernel/extension_http/ownership.cpp:434-443 | invariant kept, nothing undone; durable only for the frozen record |
| `ResponseArbiter.Owner.DispatchWire` | src/kernel/extension_http/ownership.cpp:444-465 | invariant kept, nothing undone; the writer ran exactly when it may |
| `ResponseArbiter.Owner.ObserveWire` | src/kernel/extension_http/ownership.cpp:466-479 | invariant kept, nothing undone; only a final observation of the frozen record |
| `CreditPool.FindFound` | src/kernel/extension_http/ownership.cpp:143-156 | the slot search ends at the live slot of the name if there is one, else at a free slot, else nowhere |
| `CreditPool.SlotSpeaksForName` | src/kernel/extension_http/ownership.cpp:143-163 | the counters of the slot found are the sums over the live leases of the name; without a slot the pool is full |
| `CreditPool.AcquireIffFits` | src/kernel/extension_http/ownership.cpp:129-180 | a lease is granted exactly when the budgets over the live leases allow it; the refusal for want of a slot never happens |
| `CreditPool.StepInv` | src/kernel/extension_http/ownership.cpp:26-190 | acquiring, charging, moving charges, dropping and closing keep the slot array a faithful account of the live leases |
| `CreditPool.RunBudgets` | src/kernel/extension_http/ownership.cpp:26-190 | in every run the totals are sums over the live leases, both levels of cap hold for every name, and the extra bytes of a lease are its bookkeeping plus the charges on it |
| `CreditPool.CountedUntilGone` | src/kernel/extension_http/ownership.cpp:47-118 | a lease keeps its credits while its handle, a charge taken through it, wherever moved, or a call is left; then its destructor is due, nothing can be taken through it again, and the destructor gives the credits back |
| `CreditPool.DrainIsFinal` | src/kernel/extension_http/ownership.cpp:181-190 | closed with no task counted: no lease is live, every budget is whole, and nothing is admitted again |
| `CreditPool.CreditState.TryAcquire` | src/kernel/extension_http/ownership.cpp:129-180 | a lease exactly when the budgets allow, and the whole new pool state |
| `CreditPool.CreditState.DestroyIfLast` | src/kernel/extension_http/ownership.cpp:47-66 | equal to the destructor step, when no reference is left |
| `CreditPool.CreditState.ReleaseCharge` | src/kernel/extension_http/ownership.cpp:90-101 | the three steps of a release with nobody in between; the charge is empty after it |
| `CreditPool.CreditState.AssignCharge` | src/kernel/extension_http/ownership.cpp:75-86 | the release of the target, then the move |
| `CreditPool.CreditState.ReserveExtra` | src/kernel/extension_http/ownership.cpp:105-118 | a charge exactly when the lease has room for payload and overhead |
| `CreditPool.CreditState.DropHandle` | src/kernel/extension_http/ownership.cpp:47-66 | the drop and the destructor step; the credits stay exactly while references are left |
| `Credentials.StepInv` | src/kernel/auth/handlers.cpp:769-1129 | every statement of every login, PAT request, revocation and recovery keeps live credentials tied to the current hash |
| `Credentials.LiveCredentialsAreCurrent` | src/kernel/auth/handlers.cpp:976-1077 | in every interleaving an unrevoked session was issued against the current password hash of its user, and an unrevoked PAT through a session of that user and hash |
| `Credentials.RecoveryEndsCredentials` | src/kernel/auth/handlers.cpp:793-863 | a committed recovery revokes every session and PAT of the user at once and for good, whatever was under way |
| `Credentials.Tables.VerifyLogin` | src/kernel/auth/handlers.cpp:917-976 | a login transaction exactly for a matching enabled user, remembering the hash it verified |
| `Credentials.Tables.LockUser` | src/kernel/auth/handlers.cpp:999-1006 | the row lock is granted to one transaction at a time; the work stays as it was |
| `Credentials.Tables.InsertSession` | src/kernel/auth/handlers.cpp:1007-1077 | staged under the lock, and only if the hash verified earlier is still current |
| `Credentials.Tables.InsertPat` | src/kernel/auth/pat_handlers.cpp:132-200 | staged under the lock, and only through a session that is still good |
| `Credentials.Tables.Recover` | src/kernel/auth/handlers.cpp:822-863 | new hash and revocations are staged together |
| `Credentials.Tables.Commit` | src/kernel/auth/handlers.cpp:822-863 | what was staged appears at once; after a recovery all credentials of the user are revoked |
| `Registration.StepInv` | src/kernel/auth/handlers.cpp:229-482 | every statement of bootstrap, registration, invite use and revocation keeps accounts, invites and locks in agreement |
| `Registration.BootstrapIsFirstAndOnly` | src/kernel/auth/handlers.cpp:276-326 | ordinary accounts never exceed the limit; each one follows or is the bootstrap account |
| `Registration.OneBootstrap` | src/kernel/auth/handlers.cpp:276-326 | there is at most one bootstrap account |
| `Registration.InviteSpentOnce` | src/kernel/auth/handlers.cpp:733-767 | an invite is spent at most once, never both spent and revoked, and either is final |
| `Registration.EachPaysItsOwn` | src/kernel/auth/handlers.cpp:394-482 | with invites required every ordinary account but the bootstrap one spent an invite that no other account came by |
| `Registration.OwnInviteUnlessNameTaken` | src/kernel/auth/handlers.cpp:327-392 | a spent invite is recorded against the account it created, except exactly when the registration that spent it had found its name taken |
| `Registration.NameTwiceSpendsTwo` | src/kernel/auth/handlers.cpp:369-384 | a run that leaves one account with two invites recorded against it |
| `Registration.RegistersAlone` | src/kernel/auth/handlers.cpp:344-392 | undisturbed, a good invite pays for a new account under a free name and otherwise is spent on the account that has the name |
| `Registration.Tables.CountAccounts` | src/kernel/auth/handlers.cpp:422-458 | the registration goes on exactly when the count, the limit and the mode allow |
| `Registration.Tables.Revoke` | src/kernel/auth/handlers.cpp:733-767 | only an unheld, unspent, unrevoked invite is revoked |
| `Registration.Tables.Commit` | src/kernel/auth/handlers.cpp:229-274 | account and spent invite appear together; no account disappears |
| `DataController.RowsById` | client/shell/client/data-controller.js:15-25 | an index exactly when all rows have usable, distinct keys in view; it maps each key to its row and has no other key |
| `DataController.Operations` | client/shell/client/data-controller.js:27-48 | accepted exactly when every operation is well formed and no id is named twice in the event |
| `DataController.AddIds` | client/shell/client/data-controller.js:42-45 | ids are collected exactly when none is unusable or repeated |
| `DataController.StepInv` | client/shell/client/data-controller.js:83-228 | every callback keeps: one live request at most, and something to re-query has a timer or a request |
| `DataController.NoStaleInstall` | client/shell/client/data-controller.js:123-152 | once an in-view delete or a local edit happened, no request started before it is ever installed |
| `DataController.EditOvertakes` | client/shell/client/data-controller.js:153-202 | every such event overtakes every request started by then |
| `DataController.InstallIsResponse` | client/shell/client/data-controller.js:133-144 | otherwise cached data changes only to exactly what a sent request brought back |
| `DataController.OneRequestAndNoneForgotten` | client/shell/client/data-controller.js:102-152 | at every point at most one request is pending, and an active dirty controller is unblocked with a timer or live request |
| `DataController.NoLostInvalidation` | client/shell/client/data-controller.js:113-122 | an invalidation is answered by a new request or still pending, unless the controller was reset |
| `DataController.RequeryFollows` | client/shell/client/data-controller.js:102-152 | left alone, a dirty controller finishes its request in at most four callbacks and then starts a new one at once or at its timer |
| `DataController.EditKeepsRows` | client/shell/client/data-controller.js:153-202 | a usable baseline stays usable under local edits |
| `DataController.DeleteIsExact` | client/shell/client/data-controller.js:174-184 | an event that only deletes removes exactly the rows it names |
| `DataController.Cache.ArrangeTimer` | client/shell/client/data-controller.js:102-112 | equal to the pure arrangement of the one timer |
| `DataController.Cache.SendRequest` | client/shell/client/data-controller.js:123-132 | equal to the pure start of a request |
| `DataController.Cache.DropRequests` | client/shell/client/data-controller.js:83-91 | equal to the pure invalidation of requests |
| `DataController.Cache.OnChange` | client/shell/client/data-controller.js:153-202 | invariant and new state of the pure handler; usable rows stay usable |
| `DataController.Cache.OnLaunch` | client/shell/client/data-controller.js:130-133 | a request is sent exactly if it still speaks for the controller |
| `DataController.Cache.OnHandle` | client/shell/client/data-controller.js:133-144 | installed exactly when nothing overtook the request |
| `DataController.Cache.OnSettle` | client/shell/client/data-controller.js:145-151 | the end of a request arranges what is due |
| `DataController.Cache.OnTimer` | client/shell/client/data-controller.js:108-112 | equal to the pure step |
| `DataController.Cache.OnReady` | client/shell/client/data-controller.js:203-212 | equal to the pure step |
| `DataController.Cache.OnError` | client/shell/client/data-controller.js:213-222 | equal to the pure step |
| `RealtimeClient.StepInv` | client/shell/client/sdk.js:195-483 | every call, frame, timer and close keeps client, wire and server consistent |
| `RealtimeClient.OneSocketOneRequest` | client/shell/client/sdk.js:384-426 | at most one connection is alive and at most one request or answer is on its way, and it is the pending one |
| `RealtimeClient.IdleMeansAgreed` | client/shell/client/sdk.js:311-350 | with nothing pending the granted set is that of the server, holds nothing unwanted, and every wish was granted or refused |
| `RealtimeClient.AfterRoundTrip` | client/shell/client/sdk.js:311-350 | a round trip leaves the connection done or with an up-to-date request, unsubscriptions first |
| `RealtimeClient.Converges` | client/shell/client/sdk.js:311-350 | without further calls, one outstanding and at most two more round trips bring agreement, whatever is granted |
| `RealtimeClient.Multiplexer.EnsureSocket` | client/shell/client/sdk.js:384-426 | equal to the pure step |
| `RealtimeClient.Multiplexer.CloseOwned` | client/shell/client/sdk.js:273-288 | equal to the pure close |
| `RealtimeClient.Multiplexer.RetireSession` | client/shell/client/sdk.js:199-218 | equal to the pure retirement |
| `RealtimeClient.Multiplexer.FailWith` | client/shell/client/sdk.js:289-301 | equal to the pure step |
| `RealtimeClient.Multiplexer.ReconcileNow` | client/shell/client/sdk.js:311-323 | equal to the pure reconciliation |
| `RealtimeClient.Multiplexer.AcceptAcknowledgement` | client/shell/client/sdk.js:324-350 | the loop computes exactly the granted and refused sets |
| `RealtimeClient.Multiplexer.SubscribeTo` | client/shell/client/sdk.js:427-468 | equal to the pure step |
| `RealtimeClient.Multiplexer.UnsubscribeFrom` | client/shell/client/sdk.js:469-483 | equal to the pure step |
| `RealtimeClient.Multiplexer.OnAnswer` | client/shell/client/sdk.js:324-369 | an answer of a closing socket or an earlier session is dropped, any other is taken in and the next request chosen: the pure step |
| `RealtimeClient.Multiplexer.OnClose` | client/shell/client/sdk.js:400-423 | a closed socket restarts, fails, idles or waits for the timer: the pure step |
| `RealtimeClient.Multiplexer.ReconnectSession` | client/shell/client/sdk.js:302-309 | an active session closes what it owns and opens again: the pure step |
| `Base64.EncodeBody64` | src/kernel/extension_http/codec.cpp:599-614 | exactly the padded standard text of the body, or too large |
| `Base64.DecodeBody64` | src/kernel/extension_http/codec.cpp:615-645 | exact inverse: succeeds with a body precisely on its encoding and refuses every other text; too large exactly by length |
| `Base64.EncodeInjective` | src/kernel/extension_http/codec.cpp:599-614 | no two bodies are encoded alike |
| `Base64.ReadQuad` | src/kernel/extension_http/codec.cpp:626-636 | a quad is read exactly when it is canonical, with padding only where allowed |
| `Base64.PushBytes` | src/kernel/extension_http/codec.cpp:637-642 | the bytes of a quad, as many as are still wanted |
| `Utf8.ValidUtf8` | src/kernel/extension_http/codec.cpp:335-367 | accepts exactly the concatenations of standard encodings of Unicode scalar values |
| `Utf8.HeadSound` | src/kernel/extension_http/codec.cpp:338-364 | an accepted first character is the standard encoding of the value gathered: no overlong, surrogate or value above 10FFFF |
| `Utf8.HeadComplete` | src/kernel/extension_http/codec.cpp:338-364 | every standard encoding is accepted and gives its value |
| `Utf8.Gather` | src/kernel/extension_http/codec.cpp:358-362 | gathers exactly when all the bytes are continuations |
| `RequestTarget.ValidateTarget` | src/kernel/extension_http/codec.cpp:443-485 | ok, invalid or too large exactly as the declarative acceptance says |
| `RequestTarget.AcceptedTarget` | src/kernel/extension_http/codec.cpp:443-485 | an accepted path is the percent-decoding of the original segment by segment, with no dot and no interior empty segment |
| `RequestTarget.DecodeSegments` | src/kernel/extension_http/codec.cpp:454-473 | splitting on slashes commutes with decoding |
| `RequestTarget.MatchesSegments` | src/kernel/extension_http/codec.cpp:92-98 | the string test of a claim is equality of segment lists, or prefix for a wildcard |
| `RequestTarget.SplitPrefix` | src/kernel/extension_http/codec.cpp:92-98 | one segment list begins another exactly when the text does, up to a slash |
| `RequestTarget.PathSegments` | src/kernel/extension_http/codec.cpp:79-91 | accepts exactly the paths without dot and interior empty segments |
| `RequestTarget.DecodesTo` | src/kernel/extension_http/codec.cpp:454-473 | true exactly for a canonical spelling of that path |
| `RequestTarget.QueryValid` | src/kernel/extension_http/codec.cpp:474-483 | true exactly for well-formed queries |
| `Decimal.ParseNs` | src/kernel/extension_http/codec.cpp:381-392 | exact inverse of printing on 64-bit counts; every other text is refused |
| `Decimal.NumberPrint` | src/kernel/extension_http/codec.cpp:381-392 | an accepted text is the print of its number |
| `Decimal.PrintPlain` | src/kernel/extension_http/codec.cpp:381-392 | the print of a number is accepted and has that number |
| `Headers.ValidateHeaders` | src/kernel/extension_http/codec.cpp:486-505 | ok exactly for valid headers; the error is too large for too many pairs, else that of the first faulty header |
| `Headers.FilterRequestHeaders` | src/kernel/extension_http/codec.cpp:506-538 | succeeds exactly when the filter is defined, with its result; otherwise the validation error, or invalid for a malformed list |
| `Headers.FilterIsIdempotent` | src/kernel/extension_http/codec.cpp:506-538 | what is left is a subsequence, valid, free of forbidden and nominated names, misses nothing else, and filtering again changes nothing |
| `Headers.CollectNominations` | src/kernel/extension_http/codec.cpp:512-530 | the names of one Connection header, or a refusal |
| `Preflight.CheckIsSchema` | src/kernel/extension_http/frames.cpp:193-407 | the event automaton accepts a document exactly when it fits the closed schema, with counters exact; its depth limit never refuses what the schema allows |
| `Preflight.ValueRun` | src/kernel/extension_http/frames.cpp:193-400 | the same for every value in every open scope, by what the scope becomes |
| `Preflight.PreflightDocument` | src/kernel/extension_http/frames.cpp:401-407 | ok exactly for documents of the schema, with their node and metadata counts, else the error of the automaton |
| `Preflight.Reader.CountNode` | src/kernel/extension_http/frames.cpp:203-210 | node budget: answer and new state of the pure automaton |
| `Preflight.Reader.SawNull` | src/kernel/extension_http/frames.cpp:288-291 | null only where it may stand: answer and new state of the pure automaton |
| `Preflight.Reader.SawInteger` | src/kernel/extension_http/frames.cpp:275-287 | integers only where they may stand, in range: answer and new state of the pure automaton |
| `Preflight.Reader.SawString` | src/kernel/extension_http/frames.cpp:302-329 | string placement and metadata budget: answer and new state of the pure automaton |
| `Preflight.Reader.BeginObject` | src/kernel/extension_http/frames.cpp:331-359 | closed record kinds by place: answer and new state of the pure automaton |
| `Preflight.Reader.EndScope` | src/kernel/extension_http/frames.cpp:360-364 | a record may close only complete: answer and new state of the pure automaton |
| `Preflight.Reader.SawKey` | src/kernel/extension_http/frames.cpp:365-373 | known keys once: answer and new state of the pure automaton |
| `Preflight.Reader.BeginArray` | src/kernel/extension_http/frames.cpp:374-390 | header lists and pairs only: answer and new state of the pure automaton |
| `Frames.WrittenFrameIsAccepted` | src/kernel/extension_http/frames.cpp:559-652 | what a valid frame is written as is accepted within 257 nodes, and the metadata counter ends at metadata_size |
| `Frames.FrameSums` | src/kernel/extension_http/frames.cpp:460-501 | the metadata size predicted from the frame is the weight of the document written |
| `Frames.NamesReadBack` | src/kernel/extension_http/frames.cpp:43-55 | every enumerated value is read back from its name |
| `FrameReader.FrameRoundTrip` | src/kernel/extension_http/frames.cpp:502-558 | preflight, reading and validation return every valid frame from what it was written as |
| `FrameReader.WriteIsInjective` | src/kernel/extension_http/frames.cpp:559-609 | two valid frames are never written alike |
| `FrameReader.TypeMember` | src/kernel/extension_http/frames.cpp:502-510 | a document the automaton accepted has a type member |
| `FrameReader.RequestReads` | src/kernel/extension_http/codec.cpp:646-669 | a valid request is read back from its document |
| `FrameReader.ResponseReads` | src/kernel/extension_http/codec.cpp:670-688 | a valid response is read back from its document |
| `FrameReader.ContextReads` | src/kernel/extension_http/codec.cpp:689-735 | a valid context is read back from its document |
| `FrameText.CheckRawBounds` | src/kernel/extension_http/frames.cpp:105-144 | the loops compute the declared bounds of the raw text, error included |
| `FrameText.DecodedKey` | src/kernel/extension_http/frames.cpp:67-101 | the member name a token spells, character by character |
| `FrameText.ScanToken` | src/kernel/extension_http/frames.cpp:111-141 | one quoted token, with the body value if it names the body |
| `FrameText.DumpScan` | src/kernel/extension_http/frames.cpp:105-144 | scanning a written document learns exactly the length of the value of its one body member, or refuses exactly as the document deserves |
| `FrameText.SchemaText` | src/kernel/extension_http/frames.cpp:105-144 | for every document of the schema the text bounds come down to UTF-8 and a plain body within its limit; the two size limits refuse none |
| `FrameText.RecordText` | src/kernel/extension_http/frames.cpp:105-144 | the same of every record of the schema on its own |
| `FrameText.DumpUtf8` | src/kernel/extension_http/frames.cpp:108-108 | the text of a document whose strings are UTF-8 is UTF-8 |
| `WireDocuments.SecondCheckNeverRefuses` | src/kernel/extension_http/codec.cpp:282-291 | whatever passed the text bounds and the automaton of frames, none of its requests, contexts and responses is refused by the second bounds and automaton they go through on their own |
| `WireDocuments.WireAccepts` | src/kernel/extension_http/codec.cpp:138-229 | the second automaton accepts every document that the first one accepts in its place, with the same node and metadata counts |
| `WireDocuments.MemberBody` | src/kernel/extension_http/codec.cpp:237-281 | when the scan accepts what bodies a whole document has, it accepts what each of its members has on its own |
| `WireDocuments.CheckDocument` | src/kernel/extension_http/codec.cpp:285-287 | runs the second automaton over a document: its error, or ok for every document of the schema within the limits |
| `WireDocuments.Checker.CountValue` | src/kernel/extension_http/codec.cpp:211-218 | depth and node budget: answer and new state of the pure automaton |
| `WireDocuments.Checker.SawString` | src/kernel/extension_http/codec.cpp:148-158 | metadata budget, which exempts the body: answer and new state of the pure automaton |
| `WireDocuments.Checker.BeginObject` | src/kernel/extension_http/codec.cpp:160-175 | records by place: answer and new state of the pure automaton |
| `WireDocuments.Checker.SawKey` | src/kernel/extension_http/codec.cpp:176-182 | known keys once: answer and new state of the pure automaton |
| `WireDocuments.Checker.BeginArray` | src/kernel/extension_http/codec.cpp:184-197 | header lists and pairs only: answer and new state of the pure automaton |
| `WireDocuments.Checker.Pop` | src/kernel/extension_http/codec.cpp:220-224 | the end of a record or list: answer and new state of the pure automaton |
| `FrameEncoding.PartsNeverRefused` | src/kernel/extension_http/codec.cpp:324-332 | the request, context or response of a frame that validates is never refused when it is written or read on its own |
| `FrameEncoding.PreflightNeverRefuses` | src/kernel/extension_http/frames.cpp:754-767 | the preflight of the text just written accepts every frame that validates |
| `FrameEncoding.EncodeSucceeds` | src/kernel/extension_http/frames.cpp:754-776 | for every frame that validates the request, context or response in it passes its own check, and the frame has its bytes on the wire |
| `FrameEncoding.WireRoundTrip` | src/kernel/extension_http/frames.cpp:721-753 | the payload of such a buffer is the text of the document written, within the bounds and read back as the same frame |
| `FrameLength.DecodeFrameLength` | src/kernel/extension_http/frames.cpp:653-660 | the big-endian length, refused when zero, too large exactly above the wire limit |
| `FrameLength.ParseFramedBuffer` | src/kernel/extension_http/frames.cpp:743-753 | the payload of exactly one frame; a missing or trailing byte is refused |
| `FrameLength.EncodeFramed` | src/kernel/extension_http/frames.cpp:768-774 | a buffer that holds exactly this payload |
| `FrameLength.LengthOfHeader` | src/kernel/extension_http/frames.cpp:653-660 | header to length and back |
| `FrameLength.HeaderOfLength` | src/kernel/extension_http/frames.cpp:754-774 | length to header and back |
| `FrameLength.FramedIsUnique` | src/kernel/extension_http/frames.cpp:743-753 | a buffer holds at most one frame |
| `DispatchFence.StepInv` | src/kernel/capabilities/drain.cpp:22-129 | every critical section keeps counts, map and waiters in agreement |
| `DispatchFence.CountsAreTrue` | src/kernel/capabilities/drain.cpp:22-129 | in every interleaving the count of a state is its live guards, a live guard points at the mapped state of its name, a state is mapped exactly while used, fenced or blocked, and the active count is the number of fenced names |
| `DispatchFence.NoLostWakeUp` | src/kernel/capabilities/drain.cpp:75-129 | no waiter sleeps on a zero count unless a guard still has to notify it, and that notification wakes it |
| `DispatchFence.DrainOnlyFalls` | src/kernel/capabilities/drain.cpp:22-51 | from any moment of a drain to its end the name stays on its state, the count never rises, and every call that tries to enter is refused |
| `DispatchFence.RefusedWhileFenced` | src/kernel/capabilities/drain.cpp:95-107 | no call that starts after begin_drain is admitted before end_drain, whatever is still in flight |
| `DispatchFence.WaitedMeansQuiet` | src/kernel/capabilities/drain.cpp:75-84 | a wait on the state of begin_drain that answered true: nothing is in flight, and so it stays until the fence is lifted |
| `DispatchFence.QuietUntilEnd` | src/kernel/capabilities/drain.cpp:22-51 | a fenced extension with nothing in flight stays so until its fence is lifted, however many calls try to enter |
| `DispatchFence.Registry.FindOrMake` | src/kernel/capabilities/drain.cpp:62-64 | the mapped state of the name, made if missing |
| `DispatchFence.Registry.Begin` | src/kernel/capabilities/drain.cpp:22-36 | equal to the pure step |
| `DispatchFence.Registry.End` | src/kernel/capabilities/drain.cpp:38-51 | equal to the pure step |
| `DispatchFence.Registry.EnterGuard` | src/kernel/capabilities/drain.cpp:95-107 | admitted exactly when the name is not fenced |
| `DispatchFence.Registry.LeaveGuard` | src/kernel/capabilities/drain.cpp:109-124 | equal to the pure step; a notification is due exactly after the last guard |
| `DispatchFence.Registry.NotifyAll` | src/kernel/capabilities/drain.cpp:125-128 | every sleeper of the state wakes |
| `RateLimiter.Limiter.WindowLimit` | src/kernel/auth/rate_limiter.cpp:17-82 | however the limiter was used, no closed window holds more than max_attempts admissions of a key since its reset, and at most max_keys keys are tracked |
| `RateLimiter.AdmissionKeepsSpacing` | src/kernel/auth/rate_limiter.cpp:60-72 | an admission under the limit keeps any max_attempts + 1 admissions more than a window apart |
| `RateLimiter.SpacedMeansLimited` | src/kernel/auth/rate_limiter.cpp:60-72 | that spacing is the window limit |
| `RateLimiter.SuffixIsRecent` | src/kernel/auth/rate_limiter.cpp:17-24 | what purging leaves is exactly what is recent |
| `RateLimiter.UntrackedIsStale` | src/kernel/auth/rate_limiter.cpp:25-35 | an evicted key had nothing recent |
| `RateLimiter.Limiter.Consume` | src/kernel/auth/rate_limiter.cpp:60-72 | the verdict of a limiter that never forgets, except when the table is full of other keys, each with something recent when the call began |
| `RateLimiter.Limiter.Check` | src/kernel/auth/rate_limiter.cpp:46-58 | the same verdict with the same exception, and nothing recorded |
| `RateLimiter.Limiter.RecordFailure` | src/kernel/auth/rate_limiter.cpp:74-82 | one entry more, except when the table is full of other keys with something recent |
| `RateLimiter.Limiter.Reset` | src/kernel/auth/rate_limiter.cpp:105-108 | the key and its history are forgotten, the others kept |
| `RateLimiter.Limiter.PurgeStaleKeys` | src/kernel/auth/rate_limiter.cpp:25-35 | only keys are dropped, and every one left had something recent when the purge began |
| `AuditWrites.StepInv` | src/kernel/audit/async_write_registry.hpp:30-154 | every atomic step keeps the active count and the failure flag true |
| `AuditWrites.LeasesAreCounted` | src/kernel/audit/async_write_registry.hpp:75-135 | the active count is the leases admitted and not over, a lease gets at most one outcome, none is admitted after close |
| `AuditWrites.SettledMeansWell` | src/kernel/audit/async_write_registry.hpp:143-154 | a wait that answers true: every lease admitted is over and succeeded or was skipped |
| `AuditWrites.SealedStaysSettled` | src/kernel/audit/async_write_registry.hpp:108-154 | once sealed and settled, so for good |
| `AuditWrites.AuditWriteRegistry.StartWrites` | src/kernel/audit/async_write_registry.hpp:96-104 | answers whether it now accepts; equal to the pure step |
| `AuditWrites.AuditWriteRegistry.AdmitOffered` | src/kernel/audit/async_write_registry.hpp:121-135 | admitted exactly while accepting, never once sealed |
| `AuditWrites.AuditWriteRegistry.FinishLease` | src/kernel/audit/async_write_registry.hpp:75-82 | the first outcome wins |
| `AuditWrites.AuditWriteRegistry.EndLease` | src/kernel/audit/async_write_registry.hpp:43-56 | a lease without outcome counts as failed and leaves the count |
| `AuditWrites.AuditWriteRegistry.WaitForSettlement` | src/kernel/audit/async_write_registry.hpp:143-154 | true exactly when nothing is active and nothing failed |
| `DetailEncoding.MarkedIffNul` | src/kernel/audit/detail_encoding.hpp:24-39 | marked exactly when some string or name contains NUL; a literal backslash text is not |
| `DetailEncoding.WriteScan` | src/kernel/audit/detail_encoding.hpp:24-39 | the pair-by-pair scan finds exactly the NUL characters of the value |
| `DetailEncoding.StoredHasNoNulEscape` | src/kernel/audit/detail_encoding.hpp:24-39 | the stored text has no NUL escape at a place where an escape starts, in either encoding |
| `DetailEncoding.DecodeInvertsEncode` | src/kernel/audit/detail_encoding.hpp:67-83 | decoding gives the detail back exactly when it is within the depth limit of the reader |
| `DetailEncoding.TooDeepIsLost` | src/kernel/audit/detail_encoding.hpp:67-83 | a value one level too deep that is stored and does not come back |
| `DetailEncoding.ParseDocument` | src/kernel/audit/detail_encoding.hpp:41-65 | so does reading the plain document |
| `DetailEncoding.EncodeDetail` | src/kernel/audit/detail_encoding.hpp:24-39 | the loop computes the pure encoding |

## Left out

- SQL text, schema checks, JSONB storage and the driver: only locks, compares, writes and commit outcomes are steps; a query that times out appears as a failed one.
- `acknowledge_handoff`, `observe`, `retain_terminal` and `recover` of the dispatch store answer that a proof is required; the row changes they stand for are mutations made by the environment.
- DispatchStore.ReachableTable: assumes that no such mutation makes an obligation pending again that is settled; nothing in the store itself refuses one, and the capacity bound rests on it.
- The record and binding JSON converters of the dispatch store, and the IP address check of a binding.
- StoreSession.Client.CheckReceipt: whether a claim receipt row matches the binding is an input, because the receipt table belongs to package installation.
- StoreRoot.DispatchStoreRoot.Close: as a method it runs with no other thread between its lock sections; the theorems about domains are over steps that interleave.
- Preflight.PreflightDocument: starts from the parser's events; a text that the JSON library itself cannot parse is not covered.
- FrameEncoding.WireRoundTrip: the JSON library's parser is taken to give back the document whose text it is given; its writer is modelled.
- FrameLength.EncodeFramed: takes any payload of a legal size; that a frame's own text is one is stated by `FrameEncoding.EncodeSucceeds`.
- FrameReader.FrameRoundTrip: a refusal carries no error code, so which of invalid and too large a malformed document gets after the automaton is not stated.
- WireDocuments.SecondCheckNeverRefuses: the text bounds of codec.cpp are those of frames.cpp here; they differ only in reading member names outside plain ASCII, which the writer does not produce for these documents.
- Enumerator values outside their range and anonymous principals with identities cannot be written down in the model's types.
- Memory accounting of frame payloads and encoded frames beyond the charges of `CreditPool`.
- Memory orderings of atomics: every atomic operation and critical section is a step of one total order.
- The shortening of session deadlines, and audit row contents.
- Password hashing, tokens, cookies and their limits: hashes are opaque values. Deleting users and test accounts is not modelled.
- `handle_get_session` and the listing handlers.
- What the cache controller publishes (loading, errors) and how it is rendered.
- Re-entrant handlers, advice, ready notifications and reconnect back-off of the realtime client; the reconnect timer fires at any time.
- `RateLimiter::retry_after` is not modelled.
- DetailEncoding.DecodeInvertsEncode: over a model of the writer, with a reader that covers what the writer produces; floating-point numbers, strings that are not UTF-8 and other JSON texts are not included.
- Capability lookup, configuration, logging, shutdown order, authentication beyond its deadline check, and the user interface.
