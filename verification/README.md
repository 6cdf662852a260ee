# Verified models of the panel's core

The panel keeps VPN engines (sing-box, Xray, MTProxy, AmneziaWG) in step with a
database of users, plans and inbounds. This project models the parts of it whose
correctness is hardest to see, and proves what they are for:

- `Fips180.dfy`, `Sha256Fallback.dfy`: the SHA-256 written in JavaScript for pages
  without Web Crypto, refined step by step to FIPS 180-4 (sections 4.1.2, 5.1.1, 6.2.2),
  with JavaScript's signed 32-bit operators and unreduced sums.
- `ReloadHandshake.dfy`: an engine provider and its supervisor over shared files,
  interleaved step by step, with failing writes, crashes, timeouts, late answers, starts
  that break off part-way and answers that are read from their text.
- `ReloadOutcomes.dfy`: what an apply over that handshake answers and leaves on disk, by
  what its operations did.
- `ReloadFiles.dfy`: the texts of the request and acknowledgement files of that
  handshake, from writer to reader.
- `ConfigApply.dfy`: the file steps of an apply, in the panel and in the node agent.
  Every state of the disk is recorded, so that a process that dies at any point leaves
  one of the states the contracts speak of.
- `RevisionBookkeeping.dfy`: mutations that bump revisions, interleaved with local
  applies that clear the `needsApply` flag, against the config file on disk; leases may expire and applies overlap.
- `DistributedLock.dfy`: the Redis lease lock, as a timed state machine of many clients.
- `RefreshTokens.dfy`, `RefreshClaims.dfy`: refresh-token families, with refreshes that
  overlap, and refreshes of admins who are deactivated meanwhile.
- `PlanSync.dfy`: the reconciliation of a user's assignments with a plan.
- `RenderConfig.dfy`, `RenderedUsers.dfy`, `CanonicalJson.dfy`, `RedactedPaths.dfy`,
  `JsonText.dfy`, `JsonRead.dfy`, `UnifiedDiff.dfy`: rendering, sorting, redacting, printing,
  reading and diffing configs.
- `TrafficCounters.dfy`: aggregation of core statistics.
- `AmneziawgParams.dfy`, `AwgSupervisor.dfy`: AmneziaWG parameters and the
  reconciliation of its interfaces.
- `SecretEnvelope.dfy`: base64url, subscription tokens and the envelopes of secrets.
- `Common.dfy`: options, engines, text functions and sorting used by the others.

State machines have a function `Next` for one step and `Run` for a sequence of steps;
their theorems quantify over every sequence. Methods of classes are proved against
functions on values, and the lemmas speak about those functions. What the
environment does (a write that fails, a random draw, a clock, an engine that is not
healthy) is an argument or a step, so that a theorem covers every behaviour of it.

## What turned out false

Each of these has a lemma or clause that shows it and one that says exactly when the code is
right; for expired leases the condition on a single run is sufficient only, because an
overtaken apply can also happen to write what is right.

- A lease of exactly one second, the shortest accepted, does not exclude a second
  client even if nothing is ever late (`ShortestLeaseOverlaps`,
  `InstantMutualExclusion`).
- Once a lease expires under an apply, an inbound can be marked applied and be absent
  from the file, even if every check of the lease passed (`LostLeaseLosesMutation`); not
  so in a run in which no apply writes a config file after another has begun
  (`OvertakenMayNotWrite`).
- After a start that breaks off part-way, children of the new config go on serving
  unsupervised beside a reported ROLLED_BACK or SUCCEEDED (`StraysBesideBothOutcomes`,
  `OnlyToldRunsExactly`).
- A rejected reload is taken for an accepted one if later lines of the exception's text,
  such as the log of a dead child, spell an acceptance; an apply is then reported as
  SUCCEEDED with nothing running (`LogLineCanAccept`, `GuiltyTextMisleads`,
  `InnocentIsExact`, `OutcomesAreTrueExactly`).
- An admin who is deactivated between the read and the claim of a refresh still gets a
  token (`DeactivationGoesUnseen`, and after any run `DeactivatedAdminGetsToken`). Every
  success is of an admin active at the claim exactly if nobody is deactivated while a
  refresh of theirs can still be claimed (`SuccessesAreActiveExactly`).
- `apply` answers "failed before replacing current config" also when the rename was
  done and only the directory sync failed; the new config is then on disk
  (`Provider.Apply`, the clause about `Renamed`).
- The agent neither copies nor restores an empty previous config
  (`ApplyService.ApplyEngine`).
- An AmneziaWG apply can leave an interface up that the state file does not name: if it
  fails after bringing up an interface that is not in the file (`FailedApplyLeavesStray`);
  if it succeeds though a `down` was refused (`RefusedDownLeavesStray`), or though the
  state file was missing or unreadable (`UnreadableStateLeavesStray`); and if saving breaks
  off after truncating the file (`TruncatedStateLeavesStray`). `ApplyKeepsTrackedExactly` says of
  each apply, successful or failed, exactly when it does not. Such an interface is never
  taken down again, and configs that want it keep failing (`StrayForever`).
- Inbound settings accept an empty `i1` that the obfuscation schema refuses
  (`EmptyPacketSlipsThrough`, `ResolveObfuscation`).
- A config text that gains a final newline is reported as unchanged
  (`FinalNewlineGoesUnseen`, `ChangedMeansDifferent`), and added lines that begin
  with `++`, like removed ones that begin with `--`, are not counted (`SummaryIsExact`).
- An empty text can be encrypted but not decrypted (`DecryptEncrypt`).
- An encrypted secret with "::" and any text behind it is still decrypted, although a fifth
  part is meant to be refused (`AppendedTextIsIgnored`, `DecryptExactly`).
- The digest of messages of 2^29 bytes or more is not SHA-256's padding
  (`PaddingIsFips`).

## Model

| member | source | states |
|---|---|---|
| Sha256Fallback.RorIsRotr | packages/shared/src/sha256-hex.ts:14-16 | the signed result of `ror` is, modulo 2^32, ROTR of FIPS 180-4 |
| Sha256Fallback.BitOperators | packages/shared/src/sha256-hex.ts:43-65 | JavaScript's signed `^`, `&` and `~` agree with the word operators modulo 2^32, for any integers |
| Sha256Fallback.ScheduleWordIsFips | packages/shared/src/sha256-hex.ts:42-46 | the schedule sum, carried above 2^32 and cut once by `>>> 0`, is the word of section 6.2.2 step 1 |
| Sha256Fallback.RoundIsFips | packages/shared/src/sha256-hex.ts:57-73 | one pass of the inner loop is one round of section 6.2.2 step 3, signed xors and unreduced sums included |
| Sha256Fallback.PaddedLength | packages/shared/src/sha256-hex.ts:21 | `paddedLen` is the least multiple of 64 that leaves room for the 0x80 byte and the 8-byte length |
| Sha256Fallback.PaddingIsFips | packages/shared/src/sha256-hex.ts:20-26 | the buffer is the padding of section 5.1.1 if and only if the message is shorter than 2^29 bytes |
| Sha256Fallback.FillBuffer | packages/shared/src/sha256-hex.ts:22-26 | the byte buffer holds the message, 0x80, zeros and the low 32 bits of the bit length |
| Sha256Fallback.LoadBlock | packages/shared/src/sha256-hex.ts:39-41 | the first 16 words of `w` are the block read big-endian, whatever `w` held before |
| Sha256Fallback.ExtendSchedule | packages/shared/src/sha256-hex.ts:42-46 | all 64 words are FIPS's schedule of the first 16, so reusing `w` across blocks is harmless |
| Sha256Fallback.RunRounds | packages/shared/src/sha256-hex.ts:48-73 | the 64 passes over a..h are the 64 rounds of FIPS |
| Sha256Fallback.AddHashIsCompress | packages/shared/src/sha256-hex.ts:75-82 | adding a..h to h0..h7 completes the compression function |
| Sha256Fallback.TablesAgree | packages/shared/src/sha256-hex.ts:3-35 | the code's round constants and initial hash are those of sections 4.2.2 and 5.3.3 |
| Sha256Fallback.HashBuffer | packages/shared/src/sha256-hex.ts:28-83 | the loop over blocks computes the hash value of the padded buffer |
| Sha256Fallback.PadStartIsFixedHex | packages/shared/src/sha256-hex.ts:86 | `toString(16).padStart(n, '0')` writes exactly n lower-case hexadecimal digits that read back as the number |
| Sha256Fallback.WordsSpellBytes | packages/shared/src/sha256-hex.ts:85-91 | the hex of the eight words is the hex of the digest's bytes |
| Sha256Fallback.BytesToHexSpells | packages/shared/src/sha256-hex.ts:89-91 | two digits of the text at a time give the bytes back, read by character arithmetic |
| Sha256Fallback.Sha256HexFallback | packages/shared/src/sha256-hex.ts:18-87 | for every message below 2^29 bytes the result spells the SHA-256 digest of FIPS 180-4: 64 lower-case digits which, two at a time, read back as its bytes |
| Sha256Fallback.Sha256Hex | packages/shared/src/sha256-hex.ts:93-105 | the same spelling of the same digest whether Web Crypto answers, throws or is absent |
| ReloadHandshake.ReadAckKeepsInv | apps/api/src/core/core-adapters.ts:506-540 | acting on an answer as its text is read keeps the handshake's invariant |
| ReloadHandshake.StartStepKeepsInv | deploy/mtproxy/supervisor.py:239-313 | stopping, reading the config and launching keep the invariant, also if the start breaks off part-way, a child dies, or it fails after the children are supervised, and on the second attempt |
| ReloadHandshake.NextKeepsInv | apps/api/src/core/core-adapters.ts:488-548 | every step of either side keeps it: an accepted answer is that of the awaited request, made from a config read after that request was written |
| ReloadHandshake.OutcomeIsTrue | apps/api/src/core/mtproxy.provider.ts:242-286 | in every interleaving with innocent exception texts, SUCCEEDED means the supervised children run the new config and ROLLED_BACK that they run the previous one |
| ReloadHandshake.OutcomesAreTrueExactly | deploy/mtproxy/supervisor.py:493-507 | every outcome of every run is true if and only if every exception text the supervisor may report is innocent |
| ReloadOutcomes.AnswersAreMeant | apps/api/src/core/mtproxy.provider.ts:242-286 | over every run: SUCCEEDED or ROLLED_BACK exactly after the supervisor was found healthy, ROLLED_BACK exactly if the previous config was written back before, FAILED after a replacement only if writing back was tried; the config on disk is then the new one after SUCCEEDED and the previous one otherwise, if and only if neither write of it ended half-way or both configs are the same |
| ReloadOutcomes.WrongMeansRollback | apps/api/src/core/mtproxy.provider.ts:245-286 | a failed request write, a timeout, a refused answer and a failed health check lead to the rollback before it and to FAILED during it, and nothing else does |
| ReloadOutcomes.NeverHangs | apps/api/src/core/core-adapters.ts:503-547 | wherever an apply stands it can end by its own steps, without the supervisor |
| ReloadHandshake.GuiltyTextMisleads | deploy/mtproxy/supervisor.py:499-507 | with any other text there is a run reported as SUCCEEDED though both starts failed and nothing runs |
| ReloadHandshake.StraysAreLeftBehind | deploy/mtproxy/supervisor.py:254-308 | the unsupervised children are exactly those of starts that broke off part-way since the supervisor was last down |
| ReloadHandshake.OnlyToldRunsExactly | apps/api/src/core/mtproxy.provider.ts:242-286 | after a reported success or rollback nothing but the told config runs if and only if no start of another config broke off part-way since the supervisor was last down |
| ReloadHandshake.StraysBesideBothOutcomes | deploy/mtproxy/supervisor.py:254-308 | a run that ends ROLLED_BACK and one that ends SUCCEEDED while children of another config serve |
| ReloadHandshake.RollbackIsReachable | apps/api/src/core/mtproxy.provider.ts:254-286 | from an idle supervisor a start that breaks off is rolled back, and the children it left stay |
| ReloadHandshake.SuccessIsReachable | deploy/mtproxy/supervisor.py:478-514 | from an idle supervisor an apply can succeed with the new config running; unsupervised children stay |
| ReloadFiles.RequestRoundTrip | deploy/mtproxy/supervisor.py:350-361 | the MTProxy supervisor reads the id and hash the requester wrote |
| ReloadFiles.StrippedRoundTrip | deploy/amneziawg/supervisor.py:235-242 | so does the AmneziaWG supervisor, which strips keys and values, for values without white space |
| ReloadFiles.EntriesAreLast | apps/api/src/core/core-adapters.ts:550-562 | a key has the value of the last line that carries it |
| ReloadFiles.AckIsRead | deploy/mtproxy/supervisor.py:327-334 | id, hash and status are read back as written unless a later line of the message has that key, whose value is then read |
| ReloadFiles.RequestSharedVolumeReload | apps/api/src/core/core-adapters.ts:488-548 | the polling loop: the first answer to this request decides, and it times out if and only if there is none |
| ReloadFiles.FirstDecisionIsFirst | apps/api/src/core/core-adapters.ts:504-547 | nothing is decided exactly if no poll shows an answer to this request; otherwise the earliest such poll decides |
| ReloadFiles.AcceptsWhatIsOk | apps/api/src/core/core-adapters.ts:506-533 | the requester accepts exactly the "ok" answers if and only if the message's later lines are harmless |
| ReloadFiles.OneLineMessages | apps/api/src/core/core-adapters.ts:506-533 | with a one-line message the decision and the reported message are those of the supervisor |
| ReloadFiles.LogLineCanAccept | deploy/mtproxy/supervisor.py:499-507 | an "error" answer whose log tail has the line `status=ok` is accepted |
| ReloadFiles.InnocentIsExact | apps/api/src/core/core-adapters.ts:506-533 | an error answer is taken for an acceptance of some request with a UUID and a hexadecimal hash, its own or a later one, if and only if its message is not innocent |
| ReloadFiles.OkAcceptsItsRequest | apps/api/src/core/core-adapters.ts:506-533 | a one-line "ok" answer accepts its own request and no other |
| ConfigApply.Disk.AtomicWrite | apps/api/src/core/core-adapters.ts:145-175 | at every moment the file is old or new, never partial; it is new exactly if the rename happened |
| ConfigApply.Disk.Replace | apps/api/src/core/core-adapters.ts:177-180 | the rename moves the source over the destination, or nothing happens |
| ConfigApply.Steps.Install | apps/api/src/core/sing-box.provider.ts:259-265 | candidate, copy, rename: every state has the old config or the new one with the old one kept |
| ConfigApply.Steps.Restore | apps/api/src/core/sing-box.provider.ts:283-288 | the rollback puts the old bytes back and keeps every state safe |
| ConfigApply.Provider.constructor | apps/api/src/core/sing-box.provider.ts:58-92 | a provider of one engine on one disk |
| ConfigApply.Provider.Apply | apps/api/src/core/sing-box.provider.ts:231-316 | at every moment the config is the old or the new one and the old one is not lost; each status and rollback outcome occurs exactly when, and leaves exactly the config, it should, for every pattern of failures |
| ConfigApply.ApplyService.ApplyEngine | apps/agent/src/core/apply.ts:141-175 | the agent's apply, which backs up the old config exactly if it is not empty; success if and only if every step worked |
| ConfigApply.ProgressGoesOnAll | apps/agent/src/core/apply.ts:47-77 | working on one engine leaves what was reached for the others |
| ConfigApply.ApplyService.Apply | apps/agent/src/core/apply.ts:41-92 | each engine's files are safe at every moment and no other file changes; results, first error, last hashes and applied revision are those of the loop, the revision only if every engine succeeded |
| RevisionBookkeeping.MutationAdvances | apps/api/src/inbounds/inbounds.service.ts:1581-1602 | a mutation never leaves a row at its revision with another content |
| RevisionBookkeeping.LoadKeepsInv | apps/api/src/core/core-state.loader.ts:139-193 | the snapshot and its revisions are taken together |
| RevisionBookkeeping.CommitKeepsInv | apps/api/src/core/core-apply.service.ts:454-500 | clearing flags by revision keeps every clean inbound on disk, also when the apply that commits has been overtaken |
| RevisionBookkeeping.OvertakenMayNotWrite | apps/api/src/core/core-apply.service.ts:418-494 | whatever leases do: in every run in which no apply writes a config file after another apply has begun, an inbound that needs no apply is in its engine's file exactly as its row says |
| RevisionBookkeeping.CleanInboundsAreOnDisk | apps/api/src/core/core-apply.service.ts:418-494 | in every run in which no lease expires, an inbound that needs no apply is in its engine's file exactly as its row says; no mutation is lost |
| RevisionBookkeeping.CommitClearsExactly | apps/api/src/core/core-apply.service.ts:904-917 | a flag is cleared if and only if some engine succeeded with a snapshot of the row's current revision |
| RevisionBookkeeping.StatusMeaning | apps/api/src/core/core-apply.service.ts:1118-1139 | SUCCEEDED, PARTIAL_SUCCEEDED and ROLLED_BACK mean all, some but not all, and all rolled back |
| RevisionBookkeeping.OutcomesExactly | apps/api/src/core/core-apply.service.ts:418-452 | an engine succeeded exactly if its file was replaced with the snapshot, verified, and no loss of the lease was seen, and was rolled back exactly if the previous config was written back and verified without one |
| RevisionBookkeeping.InboundTable.MarkInboundRevisionsApplied | apps/api/src/core/core-apply.service.ts:904-917 | the loop of guarded updates clears exactly the rows still at their snapshot's revision |
| RevisionBookkeeping.LostLeaseLosesMutation | apps/api/src/core/core-apply.service.ts:418-494 | a run that passes every check of the lease and marks an inbound applied that the file lacks |
| RevisionBookkeeping.LockIsNeeded | apps/api/src/core/core-apply.service.ts:418-494 | if no lease expires under its holder every run keeps every clean inbound on disk; if leases may expire without restriction some run does not |
| DistributedLock.OnlyTheHolderTouches | apps/api/src/core/distributed-lock.ts:7-19 | a lease changes only by a command of its own token or by expiring; a late client never extends or deletes a successor's |
| DistributedLock.LetInExactly | apps/api/src/core/distributed-lock.ts:121-125 | a client is let in if and only if no lease counts, and the lease is then its own for the whole lease time |
| DistributedLock.RenewalTellsExactly | apps/api/src/core/distributed-lock.ts:138-154 | a renewal extends the lease if and only if it is the caller's own when it reaches Redis, and otherwise the call knows that the lock is lost once it has heard |
| DistributedLock.AnswersAreKept | apps/api/src/core/distributed-lock.ts:129-154 | nothing but the end of the call or a broken connection takes a renewal's answer from it |
| DistributedLock.TimerFiresExactly | apps/api/src/core/distributed-lock.ts:129-160 | the timer fires from its due time on and asks for one renewal at a time, and for none once the lock is lost |
| DistributedLock.RenewalsOnTheWayArrive | apps/api/src/core/distributed-lock.ts:171-182 | a call ends with its value if and only if the operation returned and no loss was seen; a renewal under way still reaches Redis and extends the lease only if it is still the caller's own |
| DistributedLock.ReleasesExactly | apps/api/src/core/distributed-lock.ts:184-194 | the release deletes the lease if and only if it is still the caller's own |
| DistributedLock.SeenLossThrows | apps/api/src/core/distributed-lock.ts:128-205 | in every run a call whose renewal saw the loss never returns a value |
| DistributedLock.LostStaysLost | apps/api/src/core/distributed-lock.ts:128-154 | a loss once seen stays seen until the call ends |
| DistributedLock.MutualExclusion | apps/api/src/core/distributed-lock.ts:111-205 | if every renewal reaches Redis before the deadline, no two clients are inside at once |
| DistributedLock.PeriodFitsThrice | apps/api/src/core/distributed-lock.ts:155-160 | the renewal period fits three times in the lease exactly from 3000 ms on, and once exactly above 1000 ms |
| DistributedLock.PromptMutualExclusion | apps/api/src/core/distributed-lock.ts:111-205 | from 3000 ms on, a timer and messages late by less than two thirds of the lease together still exclude |
| DistributedLock.ShortestLeaseOverlaps | apps/api/src/core/distributed-lock.ts:116-122 | with the shortest lease accepted two clients can be inside though nothing is late |
| DistributedLock.InstantMutualExclusion | apps/api/src/core/distributed-lock.ts:111-160 | when nothing is late, an accepted lease time excludes in every run if and only if it is above one second |
| RefreshTokens.AuthService.Login | apps/api/src/auth/auth.service.ts:58-157 | every answer of `login` exactly when it is given, by the tables and the credentials, and the one token row it adds when it logs in |
| RefreshTokens.LoginExactly | apps/api/src/auth/auth.service.ts:62-136 | a token is added if and only if the admin exists and is active, the password is right, the TOTP code is right where TOTP is on, and the id and hash are free; each refusal exactly in its case, with the tables unchanged |
| RefreshTokens.AuthService.Refresh | apps/api/src/auth/auth.service.ts:159-276 | every answer of `refresh` and the rows it changes |
| RefreshTokens.AuthService.Logout | apps/api/src/auth/auth.service.ts:278-311 | revokes the presented token's family, or all tokens of the admin |
| RefreshTokens.AuthService.DisableTotp | apps/api/src/auth/auth.service.ts:426-490 | turns TOTP off and revokes all tokens exactly for an active admin with TOTP, the right password and the right code, and otherwise changes nothing |
| RefreshTokens.NextKeepsInv | apps/api/src/auth/auth.service.ts:167-250 | every step keeps the chains, also a refresh that finishes after others ran |
| RefreshTokens.FamiliesAreChains | apps/api/src/auth/auth.service.ts:118-134 | in every reachable state a family is one acyclic chain of one admin, every replaced token is revoked and only the last may be live |
| RefreshTokens.RefreshedAtMostOnce | apps/api/src/auth/auth.service.ts:204-238 | however refreshes overlap, each token is refreshed at most once |
| RefreshTokens.SuccessExactly | apps/api/src/auth/auth.service.ts:167-238 | a refresh succeeds if and only if the token was read live, unreplaced and unexpired, of an admin active at the read, and its row is still so at the claim, and the new id and hash are free |
| RefreshClaims.DeactivationGoesUnseen | apps/api/src/auth/auth.service.ts:167-238 | a run of login, read, deactivation and claim that ends in a success of an inactive admin |
| RefreshClaims.DeactivatedAdminGetsToken | apps/api/src/auth/auth.service.ts:201-238 | in any state of the invariant, an admin deactivated while a refresh of theirs was read as good and its row can still be claimed can finish that refresh |
| RefreshClaims.SuccessesAreActiveExactly | apps/api/src/auth/auth.service.ts:167-238 | whatever rule restricts deactivations: every success of every run that obeys it is of an admin active at the claim if and only if no such run reaches a state where the rule lets an admin be deactivated with such a refresh pending |
| RefreshTokens.SuccessLeavesOneLive | apps/api/src/auth/auth.service.ts:204-250 | after a success the new token is the only live one of its family |
| RefreshTokens.ReuseKillsFamily | apps/api/src/auth/auth.service.ts:176-183 | detected reuse leaves the family without a live token |
| RefreshTokens.PresentingRevokedIsReuse | apps/api/src/auth/auth.service.ts:176-183 | presenting a revoked token is always detected and kills its family |
| RefreshTokens.DeadStaysDead | apps/api/src/auth/auth.service.ts:167-250 | over every run a family without a live token never gets one again |
| RefreshTokens.AdminLosesAllTokens | apps/api/src/auth/auth.service.ts:468-479 | disabling TOTP, like logging out without a token, revokes all of the admin's tokens and nobody else's |
| RefreshTokens.LogoutKillsFamily | apps/api/src/auth/auth.service.ts:284-300 | logging out with one's own token revokes its family only; a foreign or unknown token changes nothing |
| PlanSync.Sync.BumpDesiredRevision | apps/api/src/inbounds/plan-assignment-sync.service.ts:203-222 | the engine's desired revision grows by one from its row or from nothing |
| PlanSync.Sync.MarkAssignmentChanged | apps/api/src/inbounds/plan-assignment-sync.service.ts:180-201 | inbound, user and engine each grow by one |
| PlanSync.AfterStep | apps/api/src/inbounds/plan-assignment-sync.service.ts:68-125 | changing one more assignment is the next step of the row-by-row account of all changes, in any order |
| PlanSync.Sync.DisableOthers | apps/api/src/inbounds/plan-assignment-sync.service.ts:60-81 | exactly the active assignments not desired are disabled |
| PlanSync.Sync.SyncUserToInboundIds | apps/api/src/inbounds/plan-assignment-sync.service.ts:55-126 | the tables afterwards, row by row; NOT_FOUND if and only if a desired inbound does not exist |
| PlanSync.Sync.SyncAllUsersOnPlan | apps/api/src/inbounds/plan-assignment-sync.service.ts:128-140 | the same for all users of the plan that are not deleted, in any order |
| PlanSync.ActiveIsDesired | apps/api/src/inbounds/plan-assignment-sync.service.ts:55-126 | the active assignments become exactly the desired set, for these users only |
| PlanSync.PlanIsFollowed | apps/api/src/inbounds/plan-assignment-sync.service.ts:128-140 | after a sync of a plan each user of it who is not deleted has exactly the plan's inbounds, and every other user keeps theirs |
| PlanSync.SecondRunChangesNothing | apps/api/src/inbounds/plan-assignment-sync.service.ts:55-126 | a second run changes nothing, and a run changes nothing if and only if everything was as desired |
| PlanSync.RowsAfter | apps/api/src/inbounds/plan-assignment-sync.service.ts:66-113 | rows that stay active keep credential and version; versions grow by one exactly on reactivation |
| PlanSync.UserRevisionsGrow | apps/api/src/inbounds/plan-assignment-sync.service.ts:193-199 | for all users of the plan at once: each user's revision grows by the number of inbounds that come or go for that user; other users do not change |
| PlanSync.InboundRevisionsGrow | apps/api/src/inbounds/plan-assignment-sync.service.ts:185-192 | for all users of the plan at once: each inbound's revision grows by the number of users for whom it comes or goes |
| PlanSync.EngineRevisionsGrow | apps/api/src/inbounds/plan-assignment-sync.service.ts:203-222 | each engine's desired revision grows by the number of pairs of a user and an inbound of that engine that come or go |
| PlanSync.EnginesCountEveryChange | apps/api/src/inbounds/plan-assignment-sync.service.ts:180-222 | the engines' growth together is the number of changed assignments |
| PlanSync.ThereAndBack | apps/api/src/inbounds/plan-assignment-sync.service.ts:86-113 | an inbound left out and taken back has a new credential under the next version |
| RenderConfig.SameRendering | apps/api/src/core/sing-box.provider.ts:466-660 | an inbound is rendered alike for any order of its assignments |
| Text.LexLessMeans | apps/api/src/core/sing-box.provider.ts:1014-1016 | the order of texts is that of the first difference, a text before its continuations |
| RenderConfig.SortTags | apps/api/src/core/sing-box.provider.ts:121 | the sorted tags are the tags of the sorted inbounds, equal tags included |
| RenderConfig.OrderDoesNotMatter | apps/api/src/core/sing-box.provider.ts:95-186 | any order of inbounds and assignments gives the same config, canonical text and redacted text |
| RenderConfig.RenderedOnce | apps/api/src/core/sing-box.provider.ts:95-186 | rendering throws exactly if some inbound cannot be rendered; otherwise the arrays `inbounds` and `endpoints` of the config hold the rendering of every inbound exactly once (what that is: `ConfigServes`) |
| RenderedUsers.ConfigServes | apps/api/src/core/sing-box.provider.ts:95-186 | rendering throws exactly if an inbound has a foreign protocol, settings that cannot be rendered or a credential of the wrong kind; otherwise every inbound is served exactly once, in the order of tags and ids, with its settings and one entry per assignment in the order of user ids |
| RenderedUsers.UserAdmits | apps/api/src/core/sing-box.provider.ts:472-632 | the entry of a user holds that user's id and credential under the right keys, `flow` exactly if it is not empty; it is missing exactly if the credential is of the wrong kind |
| RenderedUsers.InboundServes | apps/api/src/core/sing-box.provider.ts:438-642 | a rendered inbound holds its own tag, port, host and secrets and admits exactly its users |
| RenderedUsers.ConfigControls | apps/api/src/core/sing-box.provider.ts:113-171 | statistics name every user once and every tag, in order; the default route is direct and private addresses go to the block outbound, both of which exist; the control interfaces have the settings' addresses and secret |
| CanonicalJson.IndexInjective | apps/api/src/core/core-config-utils.ts:29-33 | array-index keys, which JavaScript enumerates first, are told apart by their value |
| CanonicalJson.SortMeaning | apps/api/src/core/core-config-utils.ts:24-36 | sorting changes no meaning (section 4 of RFC 8259) and puts the keys in order at every depth, index keys included |
| CanonicalJson.CanonicalUnique | apps/api/src/core/core-config-utils.ts:24-36 | a meaning has one sorted tree |
| CanonicalJson.SortDecidesEquality | apps/api/src/core/core-config-utils.ts:24-36 | two values are sorted to one tree if and only if they are equal up to key order |
| CanonicalJson.SortFixesCanonical | apps/api/src/core/core-config-utils.ts:24-36 | sorting leaves exactly the sorted trees alone and is idempotent |
| JsonText.PrintPrefix | apps/api/src/core/core-config-utils.ts:20-22 | the printed text of a tree determines the tree, even with text after it |
| JsonText.CanonicalTextDecidesEquality | apps/api/src/core/core-config-utils.ts:20-22 | two configs have one canonical text if and only if they are equal up to key order |
| JsonRead.ValueIsRead | apps/api/src/core/core-config-utils.ts:20-22 | a reader written from the grammar of RFC 8259 reads every printed tree back, strings with their escapes, numbers and white space included |
| JsonRead.CanonicalTextIsRead | apps/api/src/core/core-config-utils.ts:20-36 | the canonical text of a config is a JSON text that is read back as the sorted tree, a value of the same meaning |
| Redaction.ExceptionsNeverApply | apps/api/src/core/core-config-utils.ts:183-194 | the two exceptions for keys that end in `_key` exclude nothing |
| RedactedPaths.SecretsAreHidden | apps/api/src/core/core-config-utils.ts:4-80 | the thirteen keys, in any letter case, and keys that end in `_password`, `_secret`, `_token` or `_key` have their value replaced by "[REDACTED]", whatever it is; under any other key the value shows, but for URLs |
| RedactedPaths.OpenPathsShow | apps/api/src/core/core-config-utils.ts:42-80 | a path of the config without a sensitive key leads, in the redacted config, to what it led to |
| RedactedPaths.SecretPathsEnd | apps/api/src/core/core-config-utils.ts:42-80 | a path that comes to a sensitive key ends there, at "[REDACTED]" |
| Redaction.RedactedMembers | apps/api/src/core/core-config-utils.ts:49-56 | rebuilding an object keeps its members in their places |
| Redaction.RedactionCommutes | apps/api/src/core/core-config-utils.ts:24-80 | redacting a sorted tree is sorting the redacted tree |
| Redaction.RedactionHidesSecrets | apps/api/src/core/core-config-utils.ts:42-80 | trees that differ only beneath sensitive keys (which: `SecretsAreHidden`) are redacted alike, and without URLs only those |
| Redaction.CanonicalRedactionHidesSecrets | apps/api/src/core/core-config-utils.ts:24-80 | the redacted canonical trees of such configs are the same |
| Redaction.RedactionIsIdempotent | apps/api/src/core/core-config-utils.ts:42-80 | redacting twice is redacting once, without URLs |
| UnifiedDiff.UnifiedDiff | apps/api/src/core/core-config-utils.ts:128-162 | the loop over positions builds the diff text |
| UnifiedDiff.DiffCanBeUndone | apps/api/src/core/core-config-utils.ts:128-162 | read back from the text, ' ' and '-' lines are the old lines, ' ' and '+' lines the new ones; the header names both and `@@ -1,n +1,m @@` counts both |
| UnifiedDiff.SummaryOfDiff | apps/api/src/core/core-config-utils.ts:164-181 | the counts are the changed positions, less lines that look like file headers |
| UnifiedDiff.SummaryIsExact | apps/api/src/core/core-config-utils.ts:164-181 | each count is exact if and only if no such line begins with "++" or "--" |
| UnifiedDiff.SameLines | apps/api/src/core/core-config-utils.ts:196-198 | two texts have the same lines if and only if they are equal or differ in one final newline |
| UnifiedDiff.ChangedMeansDifferent | apps/api/src/core/core-config-utils.ts:164-181 | `changed` is false exactly if all changed lines look like file headers; where none does, exactly for texts that are equal or differ in one final newline |
| UnifiedDiff.FinalNewlineGoesUnseen | apps/api/src/core/core-config-utils.ts:164-198 | two different texts reported as unchanged |
| TrafficCounters.ParseInvertsNames | apps/api/src/core/sing-box.provider.ts:900-913 | the regular expression finds a name if and only if the text is that name with a non-empty one-line key |
| TrafficCounters.NamesAreFound | apps/api/src/core/sing-box.provider.ts:900-913 | the regular expression finds exactly the names `scope>>>key>>>traffic>>>direction`, spelled out, with a key of at least one character on one line |
| TrafficCounters.MapKeyIsInjective | apps/api/src/core/sing-box.provider.ts:919 | the map key never merges two counters |
| TrafficCounters.Aggregate | apps/api/src/core/sing-box.provider.ts:889-941 | strictly sorted, by scope and then by key; one counter for each scope and key with a stat that counts; each direction its last value or zero |
| TrafficCounters.LastValuesDecide | apps/api/src/core/sing-box.provider.ts:889-941 | the result is fixed by the last value of each direction |
| AmneziawgParams.HeaderRoundTrip | packages/shared/src/schemas.ts:1417-1422 | parsing a printed range gives its ends back |
| AmneziawgParams.Refine | packages/shared/src/schemas.ts:1424-1483 | reports exactly the issues there are, and none if and only if the parameters are consistent |
| AmneziawgParams.GenerateHeaderRanges | apps/api/src/inbounds/amneziawg-domain.ts:220-238 | the first four draws that collide with no earlier one: disjoint ranges within 1..2147483647 |
| AmneziawgParams.SomeDrawFits | apps/api/src/inbounds/amneziawg-domain.ts:223-231 | with fewer than four ranges chosen some next draw is admissible |
| AmneziawgParams.Generate | apps/api/src/inbounds/amneziawg-domain.ts:19-64 | whatever is drawn, the validator accepts the generated parameters |
| AmneziawgParams.ResolveObfuscation | apps/api/src/inbounds/amneziawg-domain.ts:160-218 | supplied settings are stored field by field, else the previous parameters are kept, else new ones generated; for accepted settings and a valid previous config the result is accepted if and only if it is not a supplied empty `i1` |
| AmneziawgParams.AllOrNone | packages/shared/src/schemas.ts:1508-1580 | settings are accepted only with all twelve fields or with none of them |
| AmneziawgParams.EmptyPacketSlipsThrough | packages/shared/src/schemas.ts:1508-1580 | settings that are accepted although the stored parameters are not |
| AwgSupervisor.Desired | deploy/amneziawg/supervisor.py:195-214 | the wanted interfaces, each once; nothing if some inbound cannot be rendered |
| AwgSupervisor.Supervisor.RunAwgQuick | deploy/amneziawg/supervisor.py:119-137 | a failed `down` is only logged; a failed `up` and any timeout raise; a command that fails may have taken effect |
| AwgSupervisor.Supervisor.ApplyConfig | deploy/amneziawg/supervisor.py:188-224 | the interfaces, the state file and whether it raises, for every pattern of failing commands |
| AwgSupervisor.SuccessfulApply | deploy/amneziawg/supervisor.py:215-223 | up afterwards: the wanted ones and those no `down` took away; which `up` met an interface that was up |
| AwgSupervisor.TrackedApply | deploy/amneziawg/supervisor.py:188-224 | if what is up is saved, the state file is readable and not lost and the downs of what is up take effect: after a success up, saved and wanted are one set and no `up` met an interface that was up |
| AwgSupervisor.SuccessKeepsTracked | deploy/amneziawg/supervisor.py:215-223 | after a successful apply what is up is saved if and only if every interface no longer wanted was read from the state file and taken down |
| AwgSupervisor.ApplyKeepsTrackedExactly | deploy/amneziawg/supervisor.py:103-224 | exactly when an apply, failed or not, leaves what is up saved, for every pattern of answers, readable or not, and with the file saved, kept or truncated |
| AwgSupervisor.UnreadableStateLeavesStray | deploy/amneziawg/supervisor.py:103-111 | an apply that succeeds without a readable state file and leaves an interface up without naming it, though every command works |
| AwgSupervisor.TruncatedStateLeavesStray | deploy/amneziawg/supervisor.py:114-116 | an apply whose saving breaks off after truncating the file and so forgets an interface that is up |
| AwgSupervisor.RefusedDownLeavesStray | deploy/amneziawg/supervisor.py:119-137 | a successful apply that leaves an interface up without naming it |
| AwgSupervisor.FailedApply | deploy/amneziawg/supervisor.py:188-224 | a failed apply leaves the state file as it was, unless every command passed and saving truncated it, and adds only wanted interfaces |
| AwgSupervisor.AppliesKeepTrackedExactly | deploy/amneziawg/supervisor.py:188-224 | over all applies of a config, failed or not, whose state file is readable and not lost and whose downs of what is up take effect: what is up stays saved in each if and only if the state file already names all the config wants |
| AwgSupervisor.RunFollowsLastSuccess | deploy/amneziawg/supervisor.py:300-345 | over a series of applies whose state file stays readable and is not lost, whose downs take effect and which fail only for configs of known interfaces: saved is what the last success wanted, what is up is among it, and equals it right after a success |
| AwgSupervisor.StrayStays | deploy/amneziawg/supervisor.py:215-223 | an interface up but not saved survives any apply, and a config that wants it fails |
| AwgSupervisor.StrayForever | deploy/amneziawg/supervisor.py:215-223 | and so over every series of applies |
| AwgSupervisor.FailedApplyLeavesStray | deploy/amneziawg/supervisor.py:218-223 | a first apply that leaves such an interface |
| Base64Url.DecodeEncode | apps/api/src/auth/auth-crypto.ts:60-76 | base64url decoding undoes encoding, and an encoding has only letters of the alphabet |
| Base64Url.EncodeDecode | packages/shared/src/schemas.ts:40-45 | encoding undoes decoding if and only if the text is canonical (section 3.5 of RFC 4648) |
| Base64Url.TokensAreEncodings | packages/shared/src/schemas.ts:40-45 | a text is a subscription token if and only if it encodes some 32 bytes |
| SecretEnvelope.DecryptEncrypt | apps/api/src/auth/auth-crypto.ts:60-99 | decrypting gives the plaintext back, except that an empty one is refused |
| SecretEnvelope.DecryptExactly | apps/api/src/auth/auth-crypto.ts:78-99 | `decrypt` opens exactly the envelopes of version 1 with three non-empty parts, where text after an empty fifth part goes unseen, and refuses every other text |
| SecretEnvelope.AppendedTextIsIgnored | apps/api/src/auth/auth-crypto.ts:78-90 | an envelope with "::" and any text behind it is decrypted all the same |
| SecretEnvelope.FrameIsInjective | apps/api/src/auth/auth-crypto.ts:60-76 | an envelope determines its iv, tag and ciphertext |
| SecretEnvelope.DecryptEncryptBytes | apps/api/src/auth/auth-crypto.ts:101-123 | any bytes come back from their OVB1 envelope |
| SecretEnvelope.DecryptBytesExactly | apps/api/src/auth/auth-crypto.ts:112-123 | `decryptBytes` opens exactly "OVB1", 12 bytes of iv, 16 bytes of tag and a ciphertext |

## Left out

- Prisma, Redis, gRPC, HTTP, processes and real files: only the effect of their operations is modelled.
- AES-GCM, argon2, TOTP, JWT, X25519 and randomness: arbitrary functions, answers and draws.
- UTF-8 and UTF-16: texts are sequences of characters; the order of characters outside the basic plane differs from that of code units, and lone surrogates are not modelled.
- ReloadHandshake, DistributedLock and RevisionBookkeeping interleave several processes, so their steps are functions on states and not methods of classes; what one process does is the order of its steps.
- The agent's copy of the handshake (apps/agent/src/core/reload.ts) is the same code and modelled once; the providers of sing-box and MTProxy share the body of `apply` and are modelled once.
- Windows: its rename and directory-sync exceptions are not modelled.
- ReloadHandshake: the heartbeat a requester reads for health is any answer; an unsupervised child counts as running until the supervisor goes down, and that it may hold ports or die earlier is not modelled.
- The polling of the acknowledgement file has no clock: a timeout may come at any moment.
- The supervisors of sing-box, Xray and AmneziaWG in the handshake: shell scripts, or the same loop as MTProxy's; AmneziaWG's does not write its answer atomically.
- RevisionBookkeeping.CleanInboundsAreOnDisk: covers local applies only; `applyViaAgent` and `applySystem` clear flags without comparing revisions (apps/api/src/core/core-apply.service.ts:302-309, 665-670) and do not keep the invariant.
- RevisionBookkeeping.Mutation: an inbound's body changes only with its revision; changes of a user that alter the rendering without touching the inbound, users' own `needsApply`, and updates of the branding alone are not modelled.
- RefreshTokens.NextKeepsInv: a transaction is atomic but for the gap between reading and claiming a token; further anomalies of READ COMMITTED, audit records, access tokens and cascading deletes are not modelled.
- DistributedLock: one key; Redis is one server that never loses data.
- ConfigApply.Disk.AtomicWrite: a temporary file has one name per target instead of a random one; leftovers of failed writes do not pile up.
- ConfigApply.ApplyService.Apply: configs are texts already; how one is serialised is not modelled. `reloadAllKnown` and `probeEngineRunning` are not modelled.
- PlanSync.Sync.SyncUserToInboundIds: after NOT_FOUND the tables are left open, because the caller's transaction is rolled back; the credential of each protocol is an arbitrary draw, and a stored config that cannot be parsed is not modelled.
- The desired revision per proxy server, which the agent's pull compares: plan sync bumps the engine's global row only, so "every change is noticed by pull" is not a theorem.
- RenderConfig.Render: the members of a Hysteria2 or Trojan inbound after its users are given, and a WireGuard assignment with another kind of credential, which the loader rules out, makes rendering throw; the values collected for redacting error texts and the other providers' renderers are not modelled.
- Redaction.RedactionHidesSecrets: what happens inside an http(s) URL is an arbitrary function; keys are lower-cased by ASCII rules.
- JsonText.CanonicalTextDecidesEquality: a number is its shortest decimal text; how a double is printed is not modelled.
- `parseAndRedactJson`, `redactText`: parsing JSON and replacing secrets in log texts.
- TrafficCounters.Aggregate: `BigInt` is an arbitrary partial function.
- AmneziawgParams.Generate: a loop that draws again takes its draws from a finite sequence and gives no result when it ends; `SomeDrawFits` says that an admissible draw always exists.
- AmneziawgParams.Refine: numbers are exact, while JavaScript rounds those above 2^53, which can add overlaps with a header that is out of range anyway; texts are taken as already trimmed; keys, addresses and the storage built around the parameters are not modelled.
- AwgSupervisor.StrayForever: that `awg-quick up` fails for an interface that is up is a hypothesis; statistics and the text of interface files are not modelled.
- SecretEnvelope.DecryptEncrypt: what Node decodes from characters outside the alphabet is left open.
- `uniquifyDisplayNames`, share links, previews, backups, notifications, DTOs, controllers, the environment schema, the web pages and the workers.
- `assertNoListenPortConflicts`, `aggregateError`, `aggregateRollback` and `compositeHash`: each says no more than its body.
