# Verified models of the SARA cores

SARA is mostly HTTP plumbing around a small number of stateful cores. This project models
thirteen of them in Dafny and proves what each of them is there to guarantee. A core that
updates its state in place is a class whose methods are proved against a specification
function; the theorems are about that function, over every run and every interleaving.

`dafny verify dfyconfig.toml` checks everything.

| file | core | main results |
|---|---|---|
| `DefiniteAssignment.dfy` | the read-before-definition pass of the Madhouse analysis | an execution semantics; the exact condition under which a program never reads an unbound name; soundness of a clean report, exactly for which programs it holds, and on which a finding is always deserved |
| `TokenStore.dfy` | OAuth codes and tokens (RFC 6749, sections 4.1.2 and 6; RFC 7009, section 2) | linear token families, single-use codes, nothing comes back to life, provenance of every token that resolves, by whose secret and in what time it was made, what outlives a replay and a revocation |
| `LoginLockout.dfy`, `LoginRaces.dfy`, `LoginCrowds.dfy` | login lockout | a sharp bound on failures in a time span; no lock without cause; the bound when logins overlap, as a function of their number, and its sharpness |
| `DeployProtocol.dfy` | the exactly-bound deploy protocol | at most one remote mutation per key under every interleaving and crash; settled rows say what the remote reply deserves and are final; who may submit; how every call ends |
| `ThreadMemory.dfy`, `ThreadRaces.dfy` | per-user threads and their index | the truncated index equals the one computed from the full history; what is stored and loaded after any run, and from which messages; forgetting is complete, also under interleaving of users, and exactly when it is not |
| `Revocation.dfy` | transitive revocation | the fixpoint loop computes reachability |
| `Redaction.dfy`, `SensitiveNames.dfy` | what is saved in a snapshot | clean at every depth, idempotent, exactly which keys hide what stands beneath them, for any classification of keys; the source's own, letter by letter |
| `Snapshots.dfy` | fail-safe snapshots | the chain verifies; exactly which damage it repairs, in exactly `max` checkpoints; exactly when a restore falls back; which deletions are detected |
| `VerdictLedger.dfy` | the append-only ledger | valid under interleaving processes; every row was asked for and its two signatures verified; the head determines the history |
| `VoiceQuota.dfy` | admission of voice jobs | counters are conserved, bounded and consistent across windows and subjects; the jobs that run at any moment stay within the limits, and nothing is refused without need |
| `ResumeCheckpoints.dfy` | resume tokens | only sealed tokens open, and for whom; only the newest checkpoint restores, and it does; what an oversize state costs |
| `TutorScoring.dfy` | tutor scoring | counts, level, streak and difficulty follow from the attempt log |
| `ChaosStability.dfy` | perturbation analysis | exactly when no perturbation flips the verdict; how far a score can move, down and up |

`Outcomes.dfy` holds the `Option` and `Result` datatypes, `Text.dfy` the text operations that
several cores share.

## What the proofs found

- A clean report of the read-before-definition pass does not imply a safe program in three
  cases, each with a concrete program: a `for` nested in a `while`
  (`ForInWhileUnsafe`: its target counts as bound throughout the loop body, also when the
  `for` ran zero times), an augmented assignment (`AugmentedUnsafe`), and an annotation
  without a value (`AnnotationUnsafe`). `PassRightIff` says for which programs the pass is
  right: those for which it asks for every name the program needs. On programs of imports,
  assignments, expressions, `if` and `for` without `else` it is exact (`StraightCleanIff`);
  elsewhere it can report a read that is never reached (`UnreachedReported`).
- The lockout admits fewer failures than twice the maximum suggests: any 2·max - 1
  consecutive admitted failures (two, if one failure locks) already outlast the window or last
  as long as the lock, and 2·max - 2 can fall within one tick. But the lock is read and the
  failure recorded in separate transactions: the bound holds as long as no two logins of the
  subject overlap, and fails as soon as two may (`OverlapBreaksTheBound`). With up to `k`
  pending logins a span within the window and shorter than the lock holds at most k(k+1)/2
  failures if one locks, and at most 2(max - 2) + k + k(k+1)/2 otherwise (`CrowdIsBounded`), and
  some run fills it (`CrowdIsReached`). The square comes from logins that began long ago: when
  such a failure is recorded it sets the lock by its own time and so lifts the one in force.
- `forget_user` finds a user's threads through the bounded index. It leaves a thread behind if
  the bound is lowered between a save and the forgetting (`ShrunkBoundLeaks`), if two saves of
  the user overlapped (`OverlapLeaks`), or if a save broke off after writing its thread
  (`CrashLeaks`). `ForgetUnderOtherBound` and `ForgetCompleteIff` say exactly when. A
  continuity update under way can put a record back (`LateRecordReturns`).
- A key is judged sensitive after it has been escaped and cut. A key such as `token` followed
  by a line break, which trimming would make sensitive, is escaped first and saved with its
  value (`EscapedKeyLeaks`). `LeakFreeIff` says exactly which keys hide their values; sensitive
  keys that are printable and at most 256 long do (`PlainStaysSecret`).
- A code presented twice costs its tokens nothing, and revoking a refresh token leaves the
  access token of the grant alive (`GrantOutlivesItsCode`), where section 4.1.2 of RFC 6749 and
  section 2.1 of RFC 7009 recommend otherwise.
- The snapshot controller skips broken files only if loading them raises a `BackupError`. A
  file holding a JSON `null`, number or boolean raises another error: standing above the
  newest genuine snapshot it makes every checkpoint fail, for good, and standing above the
  newest intact one it makes a restore fail instead of falling back (`NullFileBlocks`). The
  same holds for a MAC that is not ASCII and for a NaN or a lone surrogate. `ChainRepairsItselfIff` and
  `RestoreYieldsIff` give the exact conditions.
- A resume token is bound to the text `account|workflow`, not to the pair: a token sealed for
  account `a` and workflow `b|c` opens for account `a|b` and workflow `c`
  (`CollidingPlaces`), but never for accounts without a separator (`NoSeparatorNoCollision`).
  Restoring it still needs the head of the workflow it is restored for
  (`OnlyNewestRestores`).
- A deploy whose reply cannot be decoded is recorded as neither done nor refused: its row stays
  RESERVED for good (`UndecodableStaysReserved`), and every later call under the key is refused.
- A state too large for a resume token fails only after its checkpoint has taken a number. Until
  the workflow's next checkpoint starts, no token restores, not even the one that did before
  (`OversizeBlocksRestores`).
- TENANT usage equals the sum over the tenant's users exactly when none of these users was
  served for another tenant in that window (`TenantIsSumOfUsers`).
- A ledger append that reports an unconfirmed read-back has been committed all the same: it
  only means that another process appended right after it (`ConfirmedIff`).
- A checkpoint taken immediately before a restore, the order of `main.py:1282-1287`, makes the
  restore return the state just saved (`CheckpointThenRestore`).

## Assumptions

- A `BEGIN IMMEDIATE` transaction, and a method that holds `self._lock`, is one atomic step.
  Protocols made of several such steps are modelled as interleavings of them.
- Digests, HMACs, token hashes and AES-GCM are injective constructors; the ledger's genesis
  value is no digest. Canonical JSON parses back to itself.
- The HMAC of a resume token is injective in the parts it is computed over.
- Clocks do not run backwards; a new snapshot's name is later than every name in the
  directory. Clock readings, nonces, random draws, payload sizes and answers of remote systems
  are parameters. The OAuth configuration is read anew by every call and so is a parameter of
  every call.
- 32-byte random codes and tokens never coincide across the code and the token table; a
  coincidence inside one table is caught by its primary key and modelled.
- In `LoginLockout.dfy` and `ThreadMemory.dfy` operations run one after the other. In
  `LoginRaces.dfy` and `ThreadRaces.dfy` each of their transactions is a step of its own.
- The question passed to `score_answer` carries the competency and difficulty stored for it.

## Model

| member | source | states |
|---|---|---|
| DefiniteAssignment.SafeIff | app/madhouse.py:146-233 | a program has no execution that reads an unbound name if and only if every name in its computed needs is bound at the start; the reference against which the pass is judged |
| DefiniteAssignment.UndefinedSymbols.ReportLoads | app/madhouse.py:169-184 | exactly the reads outside the scope are recorded, in order, each (name, line) once |
| DefiniteAssignment.UndefinedSymbols.AnalyzeBody | app/madhouse.py:186-224 | over a whole statement list the findings and the shared scope become those of the specification |
| DefiniteAssignment.UndefinedSymbols.AnalyzeStatement | app/madhouse.py:187-224 | one statement: scope copies for `for` and `if`, intersection at the join, loop scopes discarded |
| DefiniteAssignment.UndefinedSymbolFindings | app/madhouse.py:146-233 | the findings are exactly the reported reads, without repetition, and empty if and only if there is none |
| DefiniteAssignment.RecordKeeps | app/madhouse.py:169-184 | deduplication loses no report and invents none |
| DefiniteAssignment.BlockClean | app/madhouse.py:186-224 | no report if and only if the scope holds all the pass asks for; the scope afterwards is the scope plus what the pass grants |
| DefiniteAssignment.WhileReads | app/madhouse.py:223-248 | a `while` is judged by every read anywhere in it, except of names that some `for` in it binds, wherever that `for` stands |
| DefiniteAssignment.PassRightIff | app/madhouse.py:146-233 | a clean report implies safety under all builtins if and only if the program needs no more than the pass asks for |
| DefiniteAssignment.CleanIsSafe | app/madhouse.py:146-233 | soundness: a program of the supported statements with no finding never reads an unbound name, over all executions with branches, loops, else clauses, break and continue |
| DefiniteAssignment.PlainWhileSupported | app/madhouse.py:223-248 | every `while` that holds no `for` and no augmented assignment is among the supported statements |
| DefiniteAssignment.ForInWhileUnsafe | app/madhouse.py:235-248 | a program with a `for` in a `while` that gets a clean report and can read an unbound name |
| DefiniteAssignment.AugmentedUnsafe | app/madhouse.py:151-167 | an augmented assignment of an unbound name gets a clean report, and so does what follows it |
| DefiniteAssignment.AnnotationUnsafe | app/madhouse.py:151-167 | a bare annotation counts as a binding and is none |
| DefiniteAssignment.FindingsDeservedIff | app/madhouse.py:146-233 | safety implies a clean report under all builtins if and only if the program needs all the pass asks for |
| DefiniteAssignment.UnreachedReported | app/madhouse.py:223-233 | a safe program that gets a finding: a read behind a `raise` |
| DefiniteAssignment.StraightCleanIff | app/madhouse.py:146-233 | precision: on programs of imports, assignments, expressions, `if` and `for` without `else`, a clean report and safety are the same |
| DefiniteAssignment.FirstFindingIsReal | app/madhouse.py:146-233 | on these programs the first reported read does fail in some execution |
| TokenStore.UserIdentityStore.IssueAuthorizationCode | app/user_identity.py:654-727 | state and answer of issuing a code, with every rejection, equal the specification |
| TokenStore.UserIdentityStore.InsertTokenPair | app/user_identity.py:729-778 | one ACCESS and one REFRESH child of the same grant, or failure on a key collision, after which at most the first row stands for the caller to roll back |
| TokenStore.UserIdentityStore.ExchangeAuthorizationCode | app/user_identity.py:780-844 | exchange consumes the code and adds the pair, or changes nothing |
| TokenStore.UserIdentityStore.RefreshAccessToken | app/user_identity.py:846-902 | rotation revokes the presented refresh token and adds the pair, or changes nothing |
| TokenStore.UserIdentityStore.ResolveAccessToken | app/user_identity.py:904-929 | which tokens resolve, and to whom |
| TokenStore.UserIdentityStore.RevokeToken | app/user_identity.py:931-944 | revocation of an own, unrevoked token; success without effect otherwise |
| TokenStore.InvRun | app/user_identity.py:682-944 | after every interleaving each token's parent is spent, shares its grant, leads back to a code, and has one child of each kind |
| TokenStore.LinearFamily | app/user_identity.py:846-902 | two lines of descent from one code that both end in an unrevoked refresh token are the same line |
| TokenStore.ChildrenOfGrant | app/user_identity.py:729-778 | siblings of one kind are equal, and only what is spent has children |
| TokenStore.RunOnward | app/user_identity.py:780-944 | rows are never deleted or reassigned, and consumption and revocation are permanent |
| TokenStore.NeverAgain | app/user_identity.py:780-929 | a consumed code or revoked token fails in every operation at every later moment |
| TokenStore.CodeWorksOnce | app/user_identity.py:780-844 | of two exchanges of one code in a run, at most the first has an effect |
| TokenStore.CodesAreIssued | app/user_identity.py:654-727 | every stored code stems from an issue to an active user with a scope the client had then, carries its redirect and expires by its time |
| TokenStore.LineageSharesGrant | app/user_identity.py:729-902 | user, client and scope are the same all along a line of descent |
| TokenStore.Provenance | app/user_identity.py:654-929 | a token that resolves descends from a code issued in this run and carries that code's user, client and scope |
| TokenStore.IssueIff | app/user_identity.py:654-727 | an issue leaves a trace if and only if the client is registered with this redirect, may have the scope asked for, the user is active and the code is new |
| TokenStore.ExchangeIff | app/user_identity.py:780-844 | an exchange leaves a trace if and only if the client's own secret and a registered redirect are presented with an unconsumed, unexpired code of that client and redirect, its user is active and the new tokens are new |
| TokenStore.RotateIff | app/user_identity.py:846-902 | a rotation leaves a trace if and only if the client's own secret is presented with its unrevoked, unexpired refresh token, its user is active and the new tokens are new |
| TokenStore.WithdrawIff | app/user_identity.py:931-944 | a revocation leaves a trace if and only if the client's own secret is presented with an unrevoked token of that client |
| TokenStore.StrangersAreRejected | app/user_identity.py:641-944 | who does not know the client's secret is told so by exchange, rotation and revocation, and which error an issue ends in for an unknown client, a foreign redirect and a scope too wide; nothing changes |
| TokenStore.TokensAreMade | app/user_identity.py:729-902 | in every run each token was added by an exchange or rotation whose client knew its secret, for a user active at that moment, and expires by that event's time and configuration |
| TokenStore.PresentedInTime | app/user_identity.py:780-902 | what an effective exchange presents was issued to the same client with the same redirect, within the code's time; what an effective rotation presents is the refresh token of an earlier pair of the same client, within its time |
| TokenStore.RevokedByOwner | app/user_identity.py:846-944 | a revoked token was revoked or rotated with the secret of its own client |
| TokenStore.ResolvesIff | app/user_identity.py:904-929 | in every run a token resolves if and only if it is unrevoked, was made as the access token of its event, less than that event's access time ago, and its user is active |
| TokenStore.CodeFlowCompletes | app/user_identity.py:654-929 | a code issued to an active user is exchanged in time, its access token resolves to that user and scope, its refresh token does not, and rotation yields another access token for the same principal |
| TokenStore.RevocationIsExact | app/user_identity.py:931-944 | the revoked token stops working for good, a stranger's request does nothing, no other token changes |
| TokenStore.ReplayRevokesNothing | app/user_identity.py:780-844 | presenting a consumed code again changes nothing: whatever resolved still does |
| TokenStore.RevocationSparesOthers | app/user_identity.py:931-944 | revoking a token leaves every other token as it was, also the access token of the same grant |
| TokenStore.GrantOutlivesItsCode | app/user_identity.py:780-944 | two concrete runs: the access token works after its code was presented again, and after its refresh token was revoked |
| LoginLockout.LoginDefense.RecordAuthFailure | app/user_identity.py:968-1008 | the row after a failure: new window or count plus one, and a lock from the maximum on |
| LoginLockout.LoginDefense.Authenticate | app/user_identity.py:1019-1038 | blank and reserved names are rejected unseen, a locked subject is turned away, a failure is counted, a success clears; the new table is that of the step the runs are made of |
| LoginLockout.RowSummarizes | app/user_identity.py:957-1038 | in any run with any number of subjects a stored row is the summary of that subject's failures since its last success, all of them admitted |
| LoginLockout.FreshWindowEnds | app/user_identity.py:968-1008 | failures counted from a fresh window reach the lock or outlast the window |
| LoginLockout.LockoutBound | app/user_identity.py:946-1038 | any 2·max - 1 consecutive admitted failures (two if max is 1) without a success outlast the window or last at least as long as the lock |
| LoginLockout.PossibleIsRun | app/user_identity.py:957-1038 | every sequence of times at which the lock admits each failure is that of a run |
| LoginLockout.BurstIsSharp | app/user_identity.py:957-1038 | in some run one failure fewer falls within a single tick, for every policy |
| LoginLockout.LockIsEarned | app/user_identity.py:957-1038 | nobody is locked out without cause: the last `max` failures since the last success lie within one window, the very last less than the lock span ago |
| LoginRaces.OneAtATimeIsBounded | app/user_identity.py:1019-1038 | if at most one login of the subject is pending at a time, the bound holds, however the logins of other subjects interleave and whichever are abandoned |
| LoginRaces.OverlapBreaksTheBound | app/user_identity.py:1019-1038 | with up to `k` pending logins of the subject the serial bound holds in every run for `k` at most 1, and fails in some run for every larger `k` and every policy whose lock exceeds one tick |
| LoginCrowds.SpanFailure | app/user_identity.py:968-1008 | a failure of the span uses up one of those still possible, whatever the row, the window and the lock |
| LoginCrowds.EarlyFailure | app/user_identity.py:968-1008 | recording a failure that began before the span, which may lift the lock, adds none to those still possible |
| LoginCrowds.AccountHolds | app/user_identity.py:957-1038 | after every action of every interleaving the failures recorded and those still possible stay within the capacity |
| LoginCrowds.CrowdIsBounded | app/user_identity.py:957-1038 | with at most `k` logins of the subject pending, no span within the window and shorter than the lock holds the beginnings of more than Capacity(p, k) failures since the last success |
| LoginCrowds.CrowdIsReached | app/user_identity.py:957-1038 | for every policy and every `k` some run fills the capacity within two neighbouring ticks |
| LoginCrowds.CapacityGrows | app/user_identity.py:957-1038 | for one login at a time the capacity is that of the serial bound, and every further login raises it |
| DeployProtocol.IdempotencyLedger.Reserve | app/control_plane.py:209-235 | a free key is reserved durably; a taken key is refused for the reason the source gives |
| DeployProtocol.IdempotencyLedger.Mark | app/control_plane.py:237-248 | only the row of the key changes, and only if it exists |
| DeployProtocol.FieldsAreRead | app/control_plane.py:398-420 | the commit counts without white space at its ends and in lower case, the expected deployment without white space at its ends |
| DeployProtocol.RailwayControlBridge.DeployExactCommit | app/control_plane.py:398-520 | the sequential method, for all request texts and all answers of the remote side, is the undisturbed run of one caller of the protocol with the stripped and lower-cased fields: same answer, ledger and posts |
| DeployProtocol.InvStep | app/control_plane.py:209-520 | what every atomic step of every caller keeps: who owns a reservation, how far its log must have gone, and that each row and each pending mark is the one its reply deserves |
| DeployProtocol.AtMostOnce | app/control_plane.py:398-520 | at most one remote mutation per idempotency key, over all interleavings of any number of callers that may crash anywhere |
| DeployProtocol.SettledRowIsTrue | app/control_plane.py:398-520 | a marked row was submitted exactly once, after its reservation and after a confirmation of the expected deployment between the two, or never if the second look rejected it; it is COMPLETED, with the id given, if and only if the one reply reports a deployment, REJECTED if and only if it refuses, SUBMISSION_UNVERIFIED if and only if it leaves the outcome open |
| DeployProtocol.UndecodableStaysReserved | app/control_plane.py:448-485 | a key whose mutation got a reply that cannot be decoded has a RESERVED row after every run |
| DeployProtocol.OnlyVettedSubmit | app/control_plane.py:398-470 | in every run a mutation is posted only for a key and request with which an authentic caller arrived, with forty hexadecimal digits and an expected deployment |
| DeployProtocol.NoFalseSuccess | app/control_plane.py:386-520 | in every run a caller is told of a deployment, anew or from a stored row, only if some logged mutation of that request got a reply that reports it |
| DeployProtocol.RowIsFinal | app/control_plane.py:209-248 | a row keeps its request hash; once marked, or once its caller is gone, it never changes and nothing is submitted under its key |
| DeployProtocol.Replay | app/control_plane.py:386-440 | a later call under a completed key gets the stored result, or a conflict for another request, with no remote call and no change |
| DeployProtocol.CleanDeployCompletes | app/control_plane.py:398-520 | a deploy that meets no obstacle posts once, completes its row with the result and returns it |
| DeployProtocol.RefusedEarly | app/control_plane.py:386-431 | which undisturbed calls end before the reservation, and with what answer: no mutation, no row changed |
| DeployProtocol.SecondLookRefuses | app/control_plane.py:430-446 | after the reservation an unreadable target leaves the row RESERVED and another deployment leaves it REJECTED, both without a mutation |
| DeployProtocol.ReplyDecides | app/control_plane.py:430-520 | every other undisturbed call posts once, and its row and its answer are those the one reply deserves, for all replies |
| ThreadMemory.ThreadKeyInjective | app/memory.py:262-268 | record keys of different (user, session) pairs differ |
| ThreadMemory.UuidIff | app/memory.py:215-226 | a user id is accepted if and only if it is five groups of 8, 4, 4, 4 and 12 hexadecimal digits joined by hyphens |
| ThreadMemory.ConversationMemory.SaveThreadIndex | app/memory.py:278-289 | the stored index is the last `k` of the deduplicated list, and exactly the threads that fall out of it are deleted |
| ThreadMemory.ConversationMemory.SaveForUser | app/memory.py:291-302 | the thread, bounded, and the index after a save; invalid ids are rejected without effect |
| ThreadMemory.ConversationMemory.LoadForUser | app/memory.py:304-310 | invalid ids are rejected; after any run of operations the loaded thread is the last save of a kept session, or empty |
| ThreadMemory.ConversationMemory.UpdateUserContinuity | app/memory.py:340-366 | index and continuity record after an update |
| ThreadMemory.ConversationMemory.ArrangeSnippets | app/memory.py:340-366 | the snippets of the indexed sessions in index order, the latest of each session |
| ThreadMemory.ConversationMemory.Forget | app/memory.py:368-374 | what forgetting deletes: the threads of the index as loaded, the index and the continuity record |
| ThreadMemory.UniqueIsLatestOnly | app/memory.py:278-289 | the remove-and-append loop yields the list of latest occurrences |
| ThreadMemory.UseKeepsLatest | app/memory.py:270-302 | one step on a truncated index equals truncation of the full history's list |
| ThreadMemory.IndexIsLru | app/memory.py:270-302 | after any run the stored index is the last `k` of the whole history since the last forget, latest use of each session only |
| ThreadMemory.InvRun | app/memory.py:278-302 | every stored thread belongs to an indexed session of its user, and the index fits |
| ThreadMemory.SavedThreadLoads | app/memory.py:291-310 | what was just saved, cut to its last messages, is what is stored to load |
| ThreadMemory.StoredIsLastSaved | app/memory.py:278-374 | after any run a thread is stored if and only if its session has stayed among the last `k` of the history since its last save, and it holds what was last saved |
| ThreadMemory.RecordIsLastUpdates | app/memory.py:318-366 | after any run the stored continuity record lists exactly the sessions that were updated and were among the last `k` of the history at every later update, in the order of the history, each with the shortened messages of its last update |
| ThreadMemory.CurrentSnippetIsLast | app/memory.py:340-366 | after an update the session just used comes last, with its last messages shortened |
| ThreadMemory.SnippetIsShort | app/memory.py:340-366 | a snippet holds the last six messages, each with its role and at most the first 500 characters of what it says |
| ThreadMemory.KeptMessagesWereGiven | app/memory.py:278-366 | in every run a stored thread is the end of the messages of some save of it, and a stored snippet the shortened end of those of some update of its session |
| ThreadMemory.ForgetIsComplete | app/memory.py:368-374 | after every run under a constant bound, forgetting leaves no thread, index or continuity record of the user |
| ThreadMemory.OthersUntouched | app/memory.py:278-374 | no operation for one user changes a record of another |
| ThreadMemory.ForgetUnderOtherBound | app/memory.py:270-276 | forgetting under another bound is complete if and only if no thread is stored for the part of the index the load cuts off |
| ThreadMemory.ShrunkBoundLeaks | app/memory.py:270-276 | two saves under bound 2, then forgetting under bound 1, leave a thread |
| ThreadRaces.ForgettingIsComplete | app/memory.py:278-374 | if the calls of one user do not overlap and none breaks off, a forgetting leaves no thread, index or record of its user, however the transactions of saves, continuity updates and forgettings of different users interleave |
| ThreadRaces.ForgetCompleteIff | app/memory.py:368-374 | from any state whatever, forgetting leaves nothing if and only if every stored thread of the user is in the index as loaded |
| ThreadRaces.OverlapLeaks | app/memory.py:291-302 | two overlapping saves of one user lose an index entry, and forgetting leaves that thread |
| ThreadRaces.CrashLeaks | app/memory.py:291-302 | a save that breaks off after its first transaction leaves a thread that forgetting does not find |
| ThreadRaces.LateRecordReturns | app/memory.py:340-374 | a continuity update that has loaded the record when its user is forgotten puts a record back |
| Revocation.Sweep | app/unified_fusion.py:429-438 | the nested loop terminates with a closed set of nodes that all reach a compromised one |
| Revocation.RevokeTransitiveAuthority | app/unified_fusion.py:423-456 | exactly the nodes with a `depends_on` path inside the graph to a compromised node lose their authority, the compromised are marked so, and nothing else changes |
| Revocation.RevokedIsLeast | app/unified_fusion.py:429-438 | the revoked set is the smallest closed set with the compromised nodes in it |
| Revocation.RevokedDistributes | app/unified_fusion.py:423-456 | revocation distributes over union of compromised sets |
| Revocation.AuthorityIsClean | app/unified_fusion.py:439-456 | no node that keeps authority has a path to a compromised one |
| Revocation.OnlyAuthorityIsLost | app/unified_fusion.py:439-456 | a node keeps its dependencies, loses its authority if and only if it reaches a compromised node, and is marked compromised if and only if it was or is named |
| Revocation.RevokeIdempotent | app/unified_fusion.py:423-456 | a second run on the updated nodes changes nothing |
| Revocation.OrderIsIrrelevant | app/unified_fusion.py:428-428 | with unique ids the result does not depend on the order of the list |
| Redaction.SafeTextSettles | sara_v32_hardening.py:203-205 | safe text is printable and bounded, and exactly such text is left alone |
| Redaction.SafeTextSpells | sara_v32_hardening.py:203-205 | safe text is made letter by letter and then cut to its bound |
| Redaction.LaterValueWins | sara_v32_hardening.py:221-228 | of keys that become one the saved object has the last value in the first place, and it has exactly the saved names in the order of their first occurrence |
| Redaction.LimitsAre | sara_v32_hardening.py:216-231 | more than twenty levels down nothing is saved; text is cut after 100,000 characters and keys after 256 |
| Redaction.SavedIff | sara_v32_hardening.py:216-231 | a value can be saved if and only if nothing outside sensitive keys is of a foreign type or nested too deeply |
| Redaction.RedactedIsClean | sara_v32_hardening.py:216-231 | at every depth, whatever stands under a sensitive key is the marker, text is safe, keys are distinct |
| Redaction.RedactIdempotent | sara_v32_hardening.py:216-231 | sanitizing twice is sanitizing once, and the clean values are exactly the fixed points |
| Redaction.SecretsDoNotLeak | sara_v32_hardening.py:207-231 | two values that differ only beneath keys whose safe text is sensitive have the same saved copy |
| Redaction.LeakFreeIff | sara_v32_hardening.py:203-231 | a set of keys hides what stands beneath them, in all values, if and only if the safe text of each is sensitive |
| Redaction.PlainStaysSecret | sara_v32_hardening.py:203-213 | sensitive keys that are printable and at most 256 long are such a set |
| Redaction.EscapedKeyLeaks | sara_v32_hardening.py:203-226 | a key that is sensitive as it stands and not after escaping: two values that differ only beneath it have different saved copies |
| Redaction.OnlySecretsAreLost | sara_v32_hardening.py:216-231 | a value with safe text outside sensitive keys agrees with its saved copy everywhere else |
| Redaction.SanitizeProtects | sara_v32_hardening.py:190-231 | for the source's own list of sensitive names and exempt suffixes: what can be saved, that the copy is clean, that it does not depend on what stands beneath plain sensitive keys, and that nothing else is lost |
| SensitiveNames.NormalizeIff | sara_v32_hardening.py:207-208 | the name under which a key is judged is the one it spells: white space cut off at both ends, capitals as small letters, hyphens as underscores |
| SensitiveNames.SensitiveIff | sara_v32_hardening.py:190-213 | a key is sensitive if and only if the name it spells is one of the twelve words, or ends or begins with one and an underscore, and does not end like a reference |
| SensitiveNames.NamesDecide | sara_v32_hardening.py:207-231 | a saved state holds the marker under a printable key of at most 256 characters exactly when it spells such a name, and the value's own copy otherwise |
| SensitiveNames.WordsAreHidden | sara_v32_hardening.py:190-213 | each word is hidden alone and behind any other; no name that ends like a reference is |
| Snapshots.OutcomesAgree | sara_v32_hardening.py:349-404 | how using a file ends: accepted are exactly the genuine and the intact ones, and what escapes from loading escapes from opening |
| Snapshots.EscapesIff | sara_v32_hardening.py:349-404 | exactly which files raise an error that is no `BackupError` when loaded, and when opened |
| Snapshots.IntactIff | sara_v32_hardening.py:349-404 | a file is intact if and only if it is authenticated as a whole, its state opens under the same key to an object with the digest recorded, and it names one of the seven events |
| Snapshots.FailSafeSaveController.LatestValidDigest | sara_v32_hardening.py:269-276 | the digest of the newest snapshot that authenticates, or the error of a file above it that is no `BackupError`; found if and only if there is no such file |
| Snapshots.FailSafeSaveController.EnforceRetention | sara_v32_hardening.py:342-347 | the newest `max_snapshots` files stay |
| Snapshots.FailSafeSaveController.Checkpoint | sara_v32_hardening.py:278-314 | exactly when a checkpoint goes through; it seals the sanitized state onto the newest valid digest and enforces retention; a failed one changes nothing |
| Snapshots.FailSafeSaveController.RestoreLatest | sara_v32_hardening.py:406-422 | the newest intact snapshot, the escaping error of a file above it, or the error that there is none |
| Snapshots.FailSafeSaveController.VerifyRetainedChain | sara_v32_hardening.py:424-434 | accepted if and only if every retained file authenticates and names its predecessor's digest |
| Snapshots.DigestFoundIff | sara_v32_hardening.py:269-276 | the search for the newest digest succeeds if and only if no file whose error escapes stands above the newest genuine one, and none anywhere if no file is genuine |
| Snapshots.UndamagedChainVerifies | sara_v32_hardening.py:278-347 | without damage every checkpoint goes through and the chain verifies after any number of them, retention included |
| Snapshots.ChainRepairsItselfIff | sara_v32_hardening.py:269-347 | after arbitrary damage `max_snapshots` or more further checkpoints go through, and leave a chain that verifies, if and only if no file whose error escapes stands above the newest genuine one |
| Snapshots.BlockedForGood | sara_v32_hardening.py:269-347 | otherwise no checkpoint ever goes through and the chain does not verify |
| Snapshots.RepairTakesExactly | sara_v32_hardening.py:269-347 | a full directory with a broken newest file verifies again if and only if it is not so blocked and that many checkpoints were taken |
| Snapshots.DeletionDetectedIff | sara_v32_hardening.py:424-434 | a deletion from a valid chain goes unnoticed if and only if one unbroken stretch is left |
| Snapshots.CheckpointThenRestore | sara_v32_hardening.py:278-422 | a checkpoint that goes through, followed at once by a restore, returns the state just saved, without fallback |
| Snapshots.RestoreYieldsIff | sara_v32_hardening.py:406-422 | a restore yields the newest intact state if and only if no file above it raises an error that escapes |
| Snapshots.FallbackIff | sara_v32_hardening.py:406-422 | when a restore succeeds, the fallback flag is raised if and only if the newest file is not intact |
| Snapshots.RestoreIgnoresDamageIff | sara_v32_hardening.py:406-422 | damage to files other than the newest intact one does not change what is restored if and only if it leaves no file above it whose error escapes |
| Snapshots.NullFileBlocks | sara_v32_hardening.py:349-355 | a file holding `null` above an intact snapshot: every checkpoint fails, the chain is never repaired, and a restore fails instead of falling back |
| VerdictLedger.OmegaVerdictLedger.VerifyChain | app/ledger.py:117-148 | accepted if and only if every row's hash, payload, signatures and link to the row before are in order |
| VerdictLedger.OmegaVerdictLedger.Append | app/ledger.py:150-229 | when an undisturbed append succeeds and what it adds, and for which reason it fails and that it then changes nothing, for all answers of the two signers |
| VerdictLedger.TransactKeepsChain | app/ledger.py:150-211 | a committed append keeps the chain valid and every earlier row as it was |
| VerdictLedger.TransactAcceptedIff | app/ledger.py:150-211 | on a valid ledger a transaction goes through if and only if both signers gave a record of their own algorithm that verifies, its id is new and what it supersedes is there; otherwise the first of these to be looked at names its error; the unique hash index never refuses it |
| VerdictLedger.CommitIs | app/ledger.py:150-211 | in every run a commit adds the row of its request, hashed onto the last row there is then, or ends in the error of the first obstacle and adds nothing |
| VerdictLedger.UndisturbedAppend | app/ledger.py:150-229 | after every run an append that nobody disturbs adds the row of its request and is confirmed, or ends in the error of the first obstacle |
| VerdictLedger.RowsAreRequested | app/ledger.py:150-211 | in every interleaving each stored row holds the text of a request that some process brought, and both its signatures verified |
| VerdictLedger.ValidIff | app/ledger.py:117-148 | a chain is valid if and only if each row names the hash of the one before it, the first the genesis value, carries both verified signatures and the schema, and hashes to its own digest |
| VerdictLedger.InvRun | app/ledger.py:150-229 | the chain stays valid in every interleaving of processes that may append between another's pre-check and transaction, and crash |
| VerdictLedger.EarlierRowsStay | app/ledger.py:150-211 | no row is ever altered or removed |
| VerdictLedger.ConfirmedIff | app/ledger.py:211-229 | in every run the read-back confirms a committed row if and only if nobody has appended after it; otherwise the append ends unconfirmed, and the row stays |
| VerdictLedger.SupersessionIsAcyclic | app/ledger.py:150-211 | chains of supersession lead strictly backwards |
| VerdictLedger.HeadDeterminesHistory | app/ledger.py:80-148 | valid ledgers with the same head hash have the same length and the same ids, timestamps and payloads in the same order |
| VoiceQuota.VoiceAccessibilityStore.IncrementUsage | app/voice_accessibility.py:791-806 | one row gains one job and its characters |
| VoiceQuota.VoiceAccessibilityStore.ReserveUsage | app/voice_accessibility.py:808-912 | charges four rows and adds a lease, or gives the first broken limit as reason and changes nothing |
| VoiceQuota.VoiceAccessibilityStore.ReleaseLease | app/voice_accessibility.py:914-922 | the lease is gone, the counters stay |
| VoiceQuota.CountersAreTrue | app/voice_accessibility.py:773-922 | after any run every counter is the sum of the accepted jobs of its window, and no counter or lease count exceeds its limit |
| VoiceQuota.AcceptedIff | app/voice_accessibility.py:808-912 | a job is accepted if and only if it has text, no running job has its lease id, fewer jobs of its user and of its tenant run than their limits allow, and counting it would keep every window of the log within its limits; running is read off the jobs admitted and leases released before |
| VoiceQuota.AcceptedOnLeases | app/voice_accessibility.py:808-912 | the same in terms of the stored leases that have not expired, also if the clock has run backwards |
| VoiceQuota.LeasesAreTrue | app/voice_accessibility.py:808-922 | in every run the unexpired leases are one to one the jobs admitted less than a lease time ago and not released since |
| VoiceQuota.RunningIsBounded | app/voice_accessibility.py:831-845 | in every run, at no moment from the latest admission on, more jobs of a user or of a tenant run than its limit allows |
| VoiceQuota.ReasonIsFirst | app/voice_accessibility.py:831-912 | in every run a refused job is told the first of the ten limits, in the source's order, that it would break, judged by the jobs admitted and released before |
| VoiceQuota.ClockTicks | app/voice_accessibility.py:90-94 | times count microseconds through minutes and days without gap |
| VoiceQuota.DayIsSumOfMinutes | app/voice_accessibility.py:90-94 | each DAY counter is the sum of the 1440 MINUTE counters of its day |
| VoiceQuota.TenantIsSumOfUsers | app/voice_accessibility.py:808-912 | a TENANT counter is the sum of its users' counters if and only if none of them was served for another tenant in that window |
| VoiceQuota.AnyMinuteBounded | app/voice_accessibility.py:90-94 | any 60 seconds admit at most twice the per-minute job limit |
| ResumeCheckpoints.AadBinds | sara_public.py:1534-1546 | the joined associated data determines the sequence, the expiry and the joined text of account and workflow, and nothing finer |
| ResumeCheckpoints.SealedOpensIff | sara_public.py:1534-1757 | a sealed token opens, to what was sealed, exactly before its expiry and for the accounts and workflows that join to the same text |
| ResumeCheckpoints.CipherOpensAsSealed | sara_public.py:1618-1757 | a token that carries a sealed ciphertext opens only if it is the very token that was sealed |
| ResumeCheckpoints.OpensIffSealed | sara_public.py:1618-1757 | the tokens that open for an account and workflow are exactly those that sealing some state for them makes, before their expiry |
| ResumeCheckpoints.OpenFailsFor | sara_public.py:1618-1757 | the first thing that is wrong with a token, in the source's order, names the error |
| ResumeCheckpoints.CollidingPlaces | sara_public.py:1534-1546 | a token sealed for account `a` and workflow `b` joined to `c` opens for account `a` joined to `b` and workflow `c` |
| ResumeCheckpoints.NoSeparatorNoCollision | sara_public.py:1534-1546 | accounts without a separator never collide |
| ResumeCheckpoints.Database.AllocateWorkflowSequence | sara_public.py:1007-1053 | the next number, and a head without a hash, as in the step the runs are made of |
| ResumeCheckpoints.Database.SetWorkflowHash | sara_public.py:1055-1084 | only the head with exactly this sequence takes the hash, as in the step the runs are made of |
| ResumeCheckpoints.Database.CreateCheckpoint | sara_public.py:2919-2966 | a whole checkpoint is the undisturbed run of one thread of the protocol |
| ResumeCheckpoints.Database.RestoreCheckpoint | sara_public.py:2968-3046 | so is a whole restore |
| ResumeCheckpoints.OnlyNewestRestores | sara_public.py:2919-3046 | over all interleavings, a successful restore returns the state and number of the workflow's newest allocation, whatever token was presented |
| ResumeCheckpoints.SavedTokenRestores | sara_public.py:2919-3046 | a token just saved does restore while it is the newest and unexpired |
| ResumeCheckpoints.LateHashIsRefused | sara_public.py:1055-1084 | a checkpoint overtaken by a later allocation fails and leaves every head alone |
| ResumeCheckpoints.SequencesGrow | sara_public.py:1007-1053 | no run ever lowers a sequence or rewrites the record of allocations |
| ResumeCheckpoints.AllocationIsNew | sara_public.py:1007-1053 | every allocation gets a number greater than all before it for that workflow |
| ResumeCheckpoints.OversizeFails | sara_public.py:2919-2966 | after any run a checkpoint fails if and only if its state is too large, and then leaves the head with a new number and no hash |
| ResumeCheckpoints.OversizeBlocksRestores | sara_public.py:2919-3046 | after such a failure no restore of the workflow succeeds, whatever else happens, until its next checkpoint starts |
| TutorScoring.UpdateMastery | SARA_AI_Product_Manager_Adaptive_Tutor_UNIFIED.py:326-353 | the engine's update of a copy, and that it keeps mastery in [0, 1] and difficulty in 1..5 |
| TutorScoring.Store.ScoreAnswer | SARA_AI_Product_Manager_Adaptive_Tutor_UNIFIED.py:729-768 | questions, attempts and mastery after an answer, and its two rejections |
| TutorScoring.Store.AllocateAnswerPosition | SARA_AI_Product_Manager_Adaptive_Tutor_UNIFIED.py:718-727 | a least used position is taken, and positions never drift apart by more than one |
| TutorScoring.ScoresAgreeWithLog | SARA_AI_Product_Manager_Adaptive_Tutor_UNIFIED.py:729-768 | after any run the three counts of a learner and competency equal the numbers of questions attempted, right first time and eventually right in the log, and the row is in range |
| TutorScoring.LevelFollowsLog | SARA_AI_Product_Manager_Adaptive_Tutor_UNIFIED.py:326-353 | after any run level, streak and difficulty of a learner and competency are what the answers in the log come to, one by one, from the difficulty of the question answered first |
| TutorScoring.LevelSteps | SARA_AI_Product_Manager_Adaptive_Tutor_UNIFIED.py:326-353 | a right answer raises the level by ten hundredths, or by five if it was not right at once, a wrong one lowers it by twelve, within 0 and 1 |
| TutorScoring.AnswerAcceptedIff | SARA_AI_Product_Manager_Adaptive_Tutor_UNIFIED.py:729-743 | an answer is accepted if and only if the question is the learner's own and not yet answered rightly |
| TutorScoring.QuestionsAreAdded | SARA_AI_Product_Manager_Adaptive_Tutor_UNIFIED.py:814-850 | in every run a question with a new id and a difficulty from one to five is added as it is, unanswered, and any other changes nothing |
| TutorScoring.RightOnlyLast | SARA_AI_Product_Manager_Adaptive_Tutor_UNIFIED.py:729-743 | a right answer to a question is its last, and every later answer is rejected |
| ChaosStability.Trajectory | app/hawkins_chaos.py:197-216 | one point per digest: the verdict of the perturbed vector, and its score and change rounded to six digits |
| ChaosStability.VerdictIff | app/hawkins_chaos.py:240-245 | the verdict by the two thresholds |
| ChaosStability.RoundIsNearest | app/hawkins_chaos.py:209-216 | a rounded number is the nearest multiple of a millionth, of two the even one |
| ChaosStability.ReasonsAddUp | app/hawkins_chaos.py:141-195 | what each part of a request adds to its base vector, one at a time, up to 1 |
| ChaosStability.TalliesAdd | app/hawkins_chaos.py:48-60 | the three tallies partition the trajectory; the flips are those outside the base verdict's tally |
| ChaosStability.ScoreBetweenCorners | app/hawkins_chaos.py:197-238 | every perturbed score lies between those of two extreme digests |
| ChaosStability.NoFlipsIff | app/hawkins_chaos.py:197-245 | no digest whatever flips the verdict if and only if the two extreme ones do not |
| ChaosStability.StabilityMargin | app/hawkins_chaos.py:197-245 | every perturbed score is within 1.74 epsilon of the base score, and outside that distance from both thresholds the verdict is kept |
| ChaosStability.BaseIsPlausible | app/hawkins_chaos.py:141-195 | every base vector lies in the unit cube, and its shares of supporting, contradicting and uncertain evidence sum to at most 1 |
| ChaosStability.ReachIsBound | app/hawkins_chaos.py:218-238 | no score moves farther than 1.74 epsilon, nor farther than the range of scores, 0.78 |
| ChaosStability.DownReachIsAttained | app/hawkins_chaos.py:141-238 | for every epsilon the source admits the score of some request moves that far down |
| ChaosStability.UpReachIsBound | app/hawkins_chaos.py:141-238 | upwards no plausible score moves farther than UpReach, which is less than 1.74 epsilon from 78/198 on |
| ChaosStability.UpReachIsAttained | app/hawkins_chaos.py:197-238 | some plausible vector moves that far up |
| ChaosStability.BothWaysIff | app/hawkins_chaos.py:197-238 | one plausible score uses all of 1.74 epsilon on both sides if and only if 3.72 epsilon is at most 0.78 |
| ChaosStability.StableRun | app/hawkins_chaos.py:48-60 | outside the margin a run has no flips, bifurcation risk 0 and attractor strength 1, and its stability follows from convergence and divergence alone |
| ChaosStability.StabilityIsMean | app/hawkins_chaos.py:48-71 | the stability multiplier is the mean of five numbers in [0, 1], the share of points that keep the verdict counted twice; no clamping takes place |
| ChaosStability.AuthorityIff | app/hawkins_chaos.py:247-260 | high authority if and only if all three strict thresholds are met and the verdict does not block, low if and only if it blocks or one of the loose ones is missed |
| ChaosStability.ConfidenceOnlyDrops | app/hawkins_chaos.py:60-76 | effective confidence never exceeds base confidence, and no authority is reached that the base verdict and confidence rule out |

## Left out

- The HTTP routes, request validation, HTML, and the clients of Stripe, Google, OpenAI, Piper and Railway: input, output and foreign code.
- Real cryptography, key derivation, SQLite itself, file permissions and `fsync`: abstract constructors and atomic updates of maps and sequences.
- Logging, audit records, health payloads and `retry_after` hints: they feed back into nothing modelled here.
- Rejection of malformed stored rows (unparsable timestamps, foreign schema): stored rows are those that the modelled operations write, except in the snapshot directory, the ledger and resume tokens, where arbitrary content is modelled.
- DefiniteAssignment.UndefinedSymbols.AnalyzeBody: functions, classes and exception handlers are not in the language.
- DefiniteAssignment.UndefinedSymbols.AnalyzeStatement: functions, classes and exception handlers are not in the language.
- DefiniteAssignment.UndefinedSymbolFindings: functions, classes, `with`, `try`, comprehensions, walrus and `del` are not in the language; `for` targets are plain names. Reads nested in a `while` are met depth first, while the source walks breadth first, so there the order of findings can differ; which reads are found does not.
- DefiniteAssignment.CleanIsSafe: a `return` and an exception end a run in the same way (`Raise`); exceptions raised by expressions are not modelled, since they only cut executions short.
- TokenStore.UserIdentityStore.IssueAuthorizationCode: the check that the user is active and the insert are one step; in the source they are two statements of one connection. A scope is a set of words where the source stores sorted text.
- LoginRaces.OverlapBreaksTheBound: for a lock of a single tick the failing half is not claimed.
- DeployProtocol.RailwayControlBridge.DeployExactCommit: whether an error text says that the commit was not found is a flag of the reply.
- Snapshots.FailSafeSaveController.Checkpoint: whether the payload and the metadata have a canonical form, its length, and the new file's name are parameters; a crash in the middle of the atomic write is not modelled.
- ChaosStability.UpReachIsAttained: the vector that moves farthest up is plausible, but risk and action pressure take only some values in the source, so that its own requests can stay below this reach.
- ChaosStability.BothWaysIff: it is about all plausible vectors, of which the source produces some.
- ChaosStability.ConfidenceOnlyDrops: the spread-based terms (`log1p`, standard deviation) enter as arbitrary numbers; entropy and floating-point rounding are left out.
- The novelty gate, keyword routers, governance and verdict tables, `reconcile_finality` and `AnswerSealer`: reading one or two branches settles them.
