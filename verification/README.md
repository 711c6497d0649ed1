# SecureVOTE: a verified model

SecureVOTE is a voting system in three parts: a backend that keeps elections, devices, sessions,
ballots, result manifests and a hash-chained audit log; a standalone verifier that judges an
exported archive without sharing code with the backend; and the firmware of the voting terminals.
This project models the parts that carry the promises and proves those promises.

`dafny verify dfyconfig.toml` checks the whole project.

## How it is laid out

- `Prelude`, `Sorting`, `Grouping`, `Text`, `Timestamps`: SQL-like selections, stable sorts,
  group-by counts, `|`-joined and decimal texts, ISO timestamps.
- `Records`, `Hashing`: the rows and the four hash encodings. The digest, the JSON texts and the
  signature scheme are parameters (`Primitives`); `Sound()` says that digests are lower-case
  hexadecimal and that a signature verifies under its own key. A digest is collision-free only
  where a lemma says so, and only on the texts that were hashed.
- `AuditChain`, `ChainBinding`: appending to the log, the two chain verifiers, and what a root
  commits to.
- `Verifier`, `VerifierFacts`: `verify_export_data` loop by loop against a declarative report, and
  what the report means for an arbitrary archive.
- `Verdicts`, `Findings`: what its verdict, its twelve checks and its failures say about an
  arbitrary archive, in terms of the archive's own rows and the parameters alone.
- `Export`, `Exports`, `Acceptance`: the archive of a set of rows, column by column, and the exact
  conditions under which the verifier accepts it.
- `Transactions`, `Frames`, `Invariants`, `Runs`: every service call as a step on the tables, what
  it can write, the invariant and its preservation. A failing call leaves the state unchanged.
- `Answers`, `Effects`: a second description of every call in terms of the rows: which requests are
  granted and which error the others get, and what a granted one writes, column by column, with its
  log entry. Both are proved exact for every reachable state.
- `Backend`: the same calls as methods of a class that updates its tables in place, each proved
  against its step.
- `OneVote`, `Lifecycle`, `Freeze`, `Isolation`, `Interference`, `Reconciliation`, `Identifiers`,
  `AuditTrail`, `Completeness`, `Staleness`, `StaleRuns`, `SignedArchives`, `SignedPayloads`,
  `Pinning`: theorems over whole runs. `Configuring`, `Progress`, `Suffrage`: what can always be
  done.
- `Simulator`: the batch producer of elections, against the same verifier.
- `Clocks`, `TamperSwitch`, `Storage`, `Persistence`, `TextCuts`, `PowerCuts`, `StateMachine`,
  `Reachability`: the firmware modules.
- `SerialBridge`, `RateBursts`: chunk buffering and the velocity rule.

## What the proofs found

- The verifier reports failures by code, but an archive with an empty audit log fails the
  audit-root check without any code (`SilentAuditRoot`). Its verdict is right all the same:
  valid means all twelve checks (`ValidMeansAllChecks`).
- A manifest may be generated while voting is open and go stale. It is up to date exactly when the
  election was past the lock at its latest verification and no ballot was recorded since
  (`ManifestFreshness`), and that decides whether an export is accepted (`ReachableExportVerdict`).
  Signing trusts the stored manifest and re-verification keeps an old signature on the row;
  `SignThenReverify` gives the exact condition. `UnsignedStaleRefused` and `SignedStaleRefused` are
  concrete runs that end in a refused export.
- The audit text joins its fields with `|` unescaped. A separator in the event data, which an
  election name can bring in, lets another accepted log with the same root claim another event
  type (`SeparatorWitness`). A root pins every hashed text in any case, and every field exactly
  when no event data holds a separator (`RootPinsHistory`, `AnchorPinsExactly`).
- The verifier does not compare ballots with the log: a receipt pins the ballots of a locked
  election exactly when it has no candidates (`ReceiptPinsBallotsExactly`). The signature is what
  pins the results (`AcceptedKeyPinsResults`), and of the ballots it pins the counts and no more
  (`SealPinsCountsExactly`): session IDs, for one, can be exchanged (`SessionsNotPinned`).
- The signed payload names the audit root, and the verifier never looks at it: the log of an accepted
  archive, signed or not, can be exchanged for any other chain (`LogExchangeableExactly`). A caller
  who looks for the signed root among the entries gets the history up to the signing
  (`SignedRootPinsHistoryExactly`).
- A CREATED election never has two candidates (`CreatedHasFew`), but one can be moved on by hand with
  fewer, even none, and be published (`EveryElectionCanBePublished`).
- The docstring at backend/app/services/device_service.py:42-43 lets devices be registered in
  CONFIGURED or LOCKED; the code also admits OPEN (`RegisterAnswered`), and the model follows the code.
- The debouncer is correct on wrapping time for poll gaps up to 2^32 - 51 ms and for no larger
  bound (`DebounceExactBound`).
- docs/replay-protection.md:44 says that the counter never resets to 0 on reboot or power cycling.
  A reboot between operations changes nothing (`CacheAndEepromAgree`), but the counter is written
  low byte first, and a power loss within an increment can bring it to 0, at 255 for one
  (`CutResetsExactly`). Every cut of an increment is harmless exactly when the old low byte is not
  0xFF (`IncrementIsAtomicExactlyWithoutCarry`). Without formatting, and before the counter wraps,
  runs never return a number twice if increments are cut at some low bytes only, exactly when 0xFF
  is not among these (`NumbersNeverRepeatExactly`). From a counter of 0 the increment after n
  completed ones is safe exactly when n modulo 256 is not 255 (`NextCutHarmlessExactly`). A power
  loss during transmission, which line 54 speaks of, comes after the last byte and is harmless.
- The other multi-byte writes tear as well: a write is atomic under every power loss exactly when at
  most one byte changes (`WriteIsAtomicExactly`), and a cut ID or hash write can show a mixture of
  the old and the new text (`CutDeviceIdShows`, `CutConfigHashShows`).
- `storage_format` writes the magic mark first. A power loss within it is repaired by the restart
  exactly when the mark does not stand yet or nothing is left to write
  (`CutFormatRepairedExactly`), and likewise when the restarts lose power too
  (`RestartsRepairExactly`); an erased EEPROM can restart with counter 2^32 - 1
  (`ErasedCutKeepsGarbage`).
- docs/advisory-anomaly-detection.md:17 and the docstring speak of more than four ballots in five
  seconds; the code reports four, and the model follows the code. The scan of neighbours misses
  no burst even if the clock runs backwards (`NoBurstMissed`), but a single microsecond back is
  enough for a false alarm (`BurstRuleExactly`).
- `cast_vote` never compares the device's election with the session's. They agree all the same, so
  elections do not touch each other's rows (`RunIsolated`). They do share keys: a request can be
  refused because another election took its candidate, device, session, token or ballot ID, and
  that is the only way in which elections affect each other, stored receipts aside, whose
  references are hashes (`NonInterference`).
- docs/architecture.md:56 lists a candidate count in the EEPROM; the code keeps none.

## Model

| member | source | states |
|---|---|---|
| `Completeness.Completeness` | backend/standalone_verifier/verifier.py:165-465 | End-to-end completeness: in any run that verifies an election after it was closed and in which no signing of it is granted before, every later export, whatever requests follow, gets all twelve checks true and no failure, without or with the signer's key, without or with any receipt for a root of that run |
| `Staleness.ReachableExportVerdict` | backend/standalone_verifier/verifier.py:165-465 | For every reachable state: the export is accepted if and only if the election is past the lock; it was never verified, or it was past the lock at its latest verification and no ballot was recorded since; its signature, if any, is over the stored manifest hash and by the expected key; and the receipt, if any, is for a hash in the log |
| `Staleness.ManifestFreshness` | backend/app/services/verification_service.py:222-312 | In every reachable state a stored manifest states the current rows if and only if the election was past the lock at its latest verification and no ballot was recorded since |
| `Staleness.ManifestCurrentExactly` | backend/standalone_verifier/verifier.py:351-406 | A manifest that stated the rows of an earlier state is up to date now if and only if that state was past the lock and has all the ballots |
| `Staleness.ManifestAge` | backend/app/services/verification_service.py:248-302 | A stored manifest states what was current at the latest verification, and without a verification there is none |
| `Staleness.RunKeepsBallots` | backend/app/services/vote_service.py:195-207 | The ballots of an earlier state are a prefix of those of any later one |
| `Verdicts.AcceptedMeans` | backend/standalone_verifier/verifier.py:200-449 | Acceptance of any archive whatsoever, from its own rows alone, both directions: the envelope carries the digest of the body, up to case; the election the digest of its candidates by position; every ballot the digest of its own six fields, and a candidate and device that are there; each device's numbers climb from above zero; the entries, at least one, form a chain from 1; manifest, signature and receipt, where there is one, carry the digest of what the rows call for, verify over this manifest, name the hash of an entry |
| `Verdicts.ChecksMean` | backend/standalone_verifier/verifier.py:203-446 | What each of the twelve checks finds out about an arbitrary archive, both directions, without sorting, recounting or any failure list |
| `Verdicts.AcceptedHashHolds` | backend/standalone_verifier/verifier.py:253-264 | In an accepted archive every ballot's hash is the digest of election, session, candidate, device, number and time of that ballot |
| `Verdicts.KeptHashKeepsFields` | backend/standalone_verifier/verifier.py:253-264 | Two accepted archives that hold a ballot hash in common agree on all six fields of that ballot, absent separators and a collision of the digest on the two texts |
| `Verdicts.LowerMeans` | backend/standalone_verifier/verifier.py:209-213 | Lower-cased texts are equal exactly when the texts are equal up to the case of ASCII letters |
| `Verdicts.ByPositionExactly` | backend/app/utils/hashing.py:88-91 | The sort behind the configuration hash is the one list that is ordered by position and keeps the given order within each position |
| `Verdicts.NumbersMean` | backend/standalone_verifier/verifier.py:279-286 | The replay check passes exactly when any two ballots of a known device, in archive order, have climbing numbers, all positive |
| `Verdicts.TotalsMean` | backend/standalone_verifier/verifier.py:294-308 | The two total checks pass exactly when every ballot names a known candidate, and a known device |
| `Verdicts.ChainMeans` | backend/standalone_verifier/verifier.py:313-342 | The chain check passes exactly when the entries in some order are numbered from 1, linked, and each the digest of its own text |
| `Verdicts.ManifestMeans` | backend/standalone_verifier/verifier.py:351-406 | The manifest check passes exactly when the stored hash is the digest of the data the rows call for, the stated totals being hashed if they are right and one count for every known key otherwise |
| `Verdicts.AnchorMeans` | backend/standalone_verifier/verifier.py:437-446 | The receipt check passes exactly when some entry has the anchored hash, up to case, or no entry has a hash and the anchor is the genesis mark |
| `Findings.FailuresMean` | backend/standalone_verifier/verifier.py:209-446 | Every failure in the report, with its parameters, has its reason in the archive, and every reason is reported |
| `Findings.NumberFaultsMean` | backend/standalone_verifier/verifier.py:281-286 | A number failure names a known device, a ballot's number and the number of the ballot before it on that device, 0 for the first, exactly when the former is not above the latter |
| `Findings.SummaryMeans` | backend/standalone_verifier/verifier.py:451-463 | The summary counts distinct candidates and devices, ballots and entries, and its drift is the number of ballots with an unknown candidate plus those with an unknown device; its root is the hash of an entry with the highest number |
| `Answers.AnsweredExactly` | backend/app/services/vote_service.py:112-192 | Every answer to every request in every reachable state: refused with the first ground there is among the rows, granted if there is none |
| `Answers.CastAnswered` | backend/app/services/vote_service.py:134-192 | A vote is granted exactly when the token has an unused session on this device in an open election, the device is active, the candidate stands in that election, the number is above the device's last and the ballot ID is new; otherwise which error comes first |
| `Answers.AuthorizeAnswered` | backend/app/services/vote_service.py:42-91 | A session is granted exactly in an open election, on an active device of it, to a credential without a session in it, under fresh keys; otherwise which error comes first |
| `Answers.ChangeAnswered` | backend/app/services/election_service.py:177-222 | A state change is granted exactly along the eight moves of the lifecycle, opening from LOCKED only with an active device of the election |
| `Answers.AddAnswered` | backend/app/services/election_service.py:105-132 | Candidates are added exactly to a CREATED election when no ID or position repeats within the batch or against the election's stored candidates and no ID is taken anywhere |
| `Answers.RegisterAnswered` | backend/app/services/device_service.py:43-66 | A device is registered exactly between CONFIGURED and OPEN under an ID no device has |
| `Answers.StatusAnswered` | backend/app/services/device_service.py:105-135 | A device's status is set exactly along the five moves, or to what it is; a device of another election is not found |
| `Answers.SignAnswered` | backend/app/services/signing_service.py:255-292 | A signing is granted exactly for a closed or published election with a reconciled manifest and a configured key |
| `Effects.EffectExactly` | backend/app/services/audit_service.py:27-84 | What every granted request leaves behind in every reachable state, column by column: the rows it writes, nothing else, and its one log entry with event, data, actor, device, time, number, link and digest; a refused request changes nothing |
| `Effects.EntryFollows` | backend/app/services/audit_service.py:45-82 | The appended entry: its actor and device are those of the call, its number and link follow the log, its hash is the digest of its five hashed columns |
| `Effects.VoteEffect` | backend/app/services/vote_service.py:182-245 | A granted vote: one ballot over exactly these fields and its digest, the session used up, the device's number and count and the election's total moved by it, one VOTE_CAST entry |
| `Effects.VerifyEffect` | backend/app/services/verification_service.py:222-312 | A verification stores one entry for every candidate and device with ballots, its count, the digest of all columns, and the signature that was there |
| `Effects.SignEffect` | backend/app/services/signing_service.py:294-331 | A signing stores a signature over the manifest's own columns and the hash of the latest entry, and nothing else changes in the row |
| `Effects.AnchorEffect` | backend/app/services/anchor_service.py:225-275 | An anchoring hands out the hash and number of the latest entry under a reference made of election, hash and anchor ID, and stores it only with the local provider |
| `Effects.ChangeEffect` | backend/app/services/election_service.py:195-222 | A state change moves the state and, only on locking, seals the candidates by position |
| `Configuring.AdditionConfigures` | backend/app/services/election_service.py:141-146 | For any tables: a granted addition leaves the election CONFIGURED if and only if it then has at least two candidates, and otherwise still CREATED |
| `Configuring.CreatedHasFew` | backend/app/services/election_service.py:109-146 | In every reachable state an election that is still CREATED has fewer than two candidates |
| `Progress.EveryElectionCanBePublished` | backend/app/services/election_service.py:32-39 | No election is stuck: from every reachable state at most seven requests publish it |
| `Progress.EveryElectionCanBeCompleted` | backend/app/services/signing_service.py:247-331 | From every reachable state at most nine requests publish, verify and sign an election, after which whoever checks its export against the signing key accepts it, whenever it is exported |
| `Progress.SuspendAndReturn` | backend/app/services/election_service.py:36-37 | From every reachable OPEN state one request suspends the election, and a further one reopens or closes it |
| `Progress.GetDevice` | backend/app/services/device_service.py:33-172 | From CONFIGURED to OPEN two requests give an election one more active device and change nothing else but the log |
| `Suffrage.EveryVoterCanVote` | backend/app/services/vote_service.py:32-258 | From every reachable state with an open election, for each of its candidates and each credential without a session in it, four requests record that vote |
| `SignedPayloads.SignedColumns` | backend/app/services/signing_service.py:299-307 | The seven signed columns over runs: a granted signing names the election, its manifest hash and the hash of the last entry of its log before the signing, and states the ballots and configuration hash of the latest verification, both statuses good; signed by the configured key |
| `SignedPayloads.SignedRootPinsHistoryExactly` | backend/app/services/signing_service.py:176-185 | An accepted archive with a signed payload extends the log as it was before the signing, text by text, if and only if one of its entries carries the signed audit root |
| `SignedPayloads.LogExchangeableExactly` | backend/standalone_verifier/verifier.py:408-446 | The verifier does not make that comparison: in an accepted archive, signed or not, the log can be exchanged for any others that are some entries and form a chain, and for no others |
| `Exports.ExportColumns` | backend/app/routers/elections.py:99-258 | The archive column by column: the election row, candidates by position, devices by ID, every ballot once by device and number, the log entry by entry, the manifest as stored, and the digest of all that |
| `StaleRuns.UnsignedStaleRefused` | backend/app/routers/results.py:15-30 | A concrete run that verifies while open, takes one vote and closes: the export is refused |
| `StaleRuns.SignedStaleRefused` | backend/app/services/signing_service.py:247-331 | The same run, signed after closing and verified again: the export is still refused |
| `Completeness.ReverificationVerdict` | backend/app/services/verification_service.py:248-279 | After re-verifying a closed election the export is accepted if and only if the signature left on the manifest, if any, was made over the hash of the current rows |
| `Completeness.SignThenReverify` | backend/app/services/signing_service.py:247-331 | Signing trusts the stored manifest: signed and then verified again, a closed election is accepted if and only if the manifest was up to date when it was signed |
| `Completeness.VerificationSeals` | backend/app/services/verification_service.py:222-312 | A verification of a closed election leaves a manifest that states the current rows, and seals the election exactly when no stale signature stays on it |
| `Completeness.RunKeepsSealed` | backend/app/services/signing_service.py:265-314 | A sealed election (closed, manifest current, signature over it) stays sealed through any further run |
| `Completeness.SealedAccepted` | backend/standalone_verifier/verifier.py:348-432 | A sealed election's export is accepted in full |
| `Completeness.ReceiptStaysKnown` | backend/app/services/anchor_service.py:225-247 | A receipt for the root of any earlier state of a run is for a hash that still stands in the log |
| `Completeness.NoSigningNoSignature` | backend/app/services/verification_service.py:260-302 | Verification alone never puts a signature on a manifest |
| `Completeness.SignedMeansClosed` | backend/app/services/signing_service.py:247-331 | In every reachable state a signed manifest belongs to a closed or published election |
| `Completeness.ManifestEvolves` | backend/app/services/verification_service.py:248-302 | The only two ways a stored manifest changes: a verification of its election, or a signing of it while closed |
| `AuditTrail.EveryVoteLogged` | backend/app/services/vote_service.py:195-245 | In every reachable state the VOTE_CAST entries of an election's log are exactly its ballots, each once, in recording order, with ID, device, number and hash |
| `AuditTrail.RootPinsBallots` | backend/app/services/audit_service.py:45-82 | Two runs of requests without separators in their identifiers, as the request schemas demand, that end with the same audit root for an election recorded the very same ballots in the same order, all fields included, absent a digest collision |
| `AuditTrail.RootPinsPlainBallots` | backend/app/services/audit_service.py:45-82 | The same for any two runs whose ballot rows hold no separator in their identifiers |
| `Identifiers.ReachableBallotsPlain` | backend/app/schemas.py:46-167 | When the election IDs created, the session IDs, and the candidate and device IDs voted with hold no separator, neither does any identifier of any ballot in any reachable state |
| `Identifiers.JustifiedPlain` | backend/app/services/vote_service.py:182-207 | A recorded ballot takes its election and session from stored rows and the other identifiers from the request |
| `AuditTrail.AnchorPinsArchive` | backend/standalone_verifier/verifier.py:437-446 | Any archive at all that is accepted with the receipt for the root of a reachable state contains that state's exported log as a prefix: text by hashed text in any case, and field by hashed field if no event data of that log holds a separator |
| `AuditTrail.AnchorPinsExactly` | backend/standalone_verifier/verifier.py:437-446 | If the honest export is accepted with the receipt, every archive accepted with it agrees in every hashed field if and only if no event data of the anchored log holds a separator |
| `AuditTrail.EqualRootsSameHistory` | backend/standalone_verifier/verifier.py:313-346 | Two reachable states with the same root export the same history, field by field |
| `SignedArchives.AcceptedKeyPinsResults` | backend/standalone_verifier/verifier.py:408-424 | Verified with the backend's public key: if the one signature in an accepted archive is no forgery, that is, its acceptance by that key means that the run signed its payload, the archive states the results of the signed election as they were at its latest verification before some signing of it: number of ballots, count of every candidate and device, configuration hash |
| `SignedArchives.SignaturePinsResults` | backend/standalone_verifier/verifier.py:420-424 | The same from the payload: an archive accepted with a signature over a payload the backend signed by request i, whatever key is used, states the results of the signed election as they were at its last verification before request i: number of ballots, count of every candidate and device, configuration hash |
| `SignedArchives.SignaturePinsData` | backend/standalone_verifier/verifier.py:388-424 | An accepted archive whose signed payload carries the hash of some manifest data states exactly these data |
| `Pinning.ReceiptPinsBallotsExactly` | backend/standalone_verifier/verifier.py:245-346 | What a receipt says about ballots: every accepted archive with the election row, candidates and log of a locked election has its ballots if and only if the election has no candidates, whatever key and known receipt are used |
| `Pinning.SealPinsCountsExactly` | backend/standalone_verifier/verifier.py:368-424 | What a sealed manifest, signed or not, says about ballots: the archive with any other well-kept ballots in their place is accepted, with the same signature, key and receipt, if and only if every candidate and every device is named equally often, absent a hash collision |
| `Pinning.SessionsNotPinned` | backend/standalone_verifier/verifier.py:245-278 | Every ballot of a sealed election can be exchanged for the same vote under another session ID, hashed again: the archive differs and is accepted |
| `Pinning.BallotsNotPinned` | backend/standalone_verifier/verifier.py:245-346 | A locked election's archive with every ballot left out and no manifest is accepted with any known receipt |
| `Pinning.StatesOthersExactly` | backend/standalone_verifier/verifier.py:368-397 | A manifest that states the rows states them with other ballots if and only if the counts are the same |
| `AuditTrail.CastEffect` | backend/app/services/vote_service.py:195-245 | A granted vote adds one ballot row and one VOTE_CAST entry about it, in the log of its election and no other |
| `AuditTrail.OthersLogNoVote` | backend/app/services/audit_service.py:27-84 | No other request writes a VOTE_CAST entry or more than one entry |
| `ChainBinding.RootPinsHistory` | backend/standalone_verifier/verifier.py:313-346 | For an accepted log with separator-free event types and timestamps: every accepted log with its root, however made, agrees in every hashed field if and only if no event data of it holds a separator |
| `ChainBinding.RootPinsTexts` | backend/standalone_verifier/verifier.py:313-346 | Two accepted logs with the same root have the same numbers, links and hashed texts, entry by entry, whatever their fields hold |
| `ChainBinding.RootPinsSeparated` | backend/standalone_verifier/verifier.py:313-346 | Two accepted logs with the same root and separator-free event types and timestamps, as the backend writes them, agree in every hashed field; event data may hold any text |
| `ChainBinding.SeparatorWitness` | backend/standalone_verifier/verifier.py:102-119 | Two one-entry logs with the same root, both accepted, whose event types differ |
| `ChainBinding.SeparatorCounterexample` | backend/standalone_verifier/verifier.py:102-119 | Every accepted log with a separator in its event data has a twin with the same texts and other fields |
| `ChainBinding.PlainTextsPinFields` | backend/app/utils/hashing.py:40-48 | Entries without separators are read off their texts, whatever the other log holds |
| `ChainBinding.SharedHashPinsPrefix` | backend/standalone_verifier/verifier.py:318-342 | Two accepted logs that share one entry hash share its position and every hashed text up to it |
| `ChainBinding.EqualHashesBind` | backend/app/utils/hashing.py:40-48 | Equal entry hashes in accepted logs mean equal positions, equal texts and equal predecessors |
| `VerifierFacts.AcceptedArchiveExtendsAnchor` | backend/standalone_verifier/verifier.py:437-446 | An archive accepted with a receipt for the root of a valid log contains that log as a prefix, text by text, and field by field if no anchored entry holds a separator |
| `VerifierFacts.AnchoredPrefix` | backend/standalone_verifier/verifier.py:437-446 | The same for a chain on its own |
| `VerifierFacts.SameTextsAccepted` | backend/standalone_verifier/verifier.py:313-346 | The verifier sees of an audit log only its texts: another accepted log with the same texts passes as well |
| `VerifierFacts.AnchorFindsEntry` | backend/standalone_verifier/verifier.py:438-441 | The case-insensitive comparison of the anchor check finds an entry with exactly the anchored hash |
| `Reconciliation.Conservation` | backend/app/services/reconciliation_service.py:48-125 | In every reachable state the stored total, the ballots, the voted sessions, the sum of candidate counts and the sum of the devices' own counters are one number, and every stored device total is the counted one |
| `Reconciliation.Reconcile` | backend/app/services/reconciliation_service.py:24-136 | On arbitrary stored rows: PASSED if and only if the election total and every device total are the counted ones; the totals are the group-by counts; the details list exactly the mismatches; the three sum comparisons never fail |
| `Reconciliation.CheckDevices` | backend/app/services/reconciliation_service.py:105-118 | The device loop reports exactly the devices whose stored total differs from the count |
| `Reconciliation.VerifyTallyIndependently` | backend/app/services/verification_service.py:173-219 | Says yes if and only if the reported totals are the recounted ones for every candidate, zero entries aside |
| `Runs.StoredTotalsAlwaysMatch` | backend/app/services/vote_service.py:213-218 | In every state that keeps the invariant reconciliation passes |
| `Grouping.GroupByTotal` | backend/app/services/reconciliation_service.py:70-98 | The counts of a group-by add up to the number of rows |
| `Grouping.GroupByCounts` | backend/app/services/reconciliation_service.py:48-62 | A group-by read with default zero gives the count of every key |
| `Grouping.SumDict` | backend/app/services/reconciliation_service.py:70-98 | Adding up a dictionary's values in any order gives their sum |
| `Freeze.RunFreezes` | backend/app/services/election_service.py:32-39 | Once an election is closed no run changes its ballots, candidates, device counters, total or configuration hash |
| `Freeze.StepFreezes` | backend/app/services/vote_service.py:134-172 | No single request changes the results of a closed election |
| `Freeze.ManifestFrozen` | backend/app/services/verification_service.py:222-279 | Hence every later verification of a closed election generates the same manifest data and hash |
| `Freeze.RunGrowsLog` | backend/app/services/audit_service.py:27-84 | The log of an earlier state is a prefix of the log of every later state |
| `Interference.NonInterference` | backend/app/services/vote_service.py:69-91 | Over any run: every request about an election gets the answer, and leaves the rows about it, that it would if all requests about other elections were deleted, if and only if no such request that would be granted alone names a candidate, device, session, token or ballot key that another election took; then the rows are in the end those of the election alone |
| `Interference.ServeSame` | backend/app/services/vote_service.py:134-192 | On two states with the same rows about an election, the second without a foreign row under a key the request names, the answers to a request about it are the same if and only if it is refused on the second or names no taken key on the first |
| `Interference.GuardsSame` | backend/app/services/vote_service.py:134-192 | The guards of a vote look at rows of its election only, but for the ballot ID, which comes last |
| `Interference.AddSame` | backend/app/services/election_service.py:96-158 | The same for adding candidates: what can stand in the way is a candidate ID of another election |
| `Interference.AuthorizeSame` | backend/app/services/vote_service.py:42-108 | The same for authorizing a session: a session ID or token of another election |
| `Interference.RegisterSame` | backend/app/services/device_service.py:33-94 | The same for registering a device: a device ID of another election |
| `Isolation.RunIsolated` | backend/app/services/vote_service.py:112-218 | In whatever stage an election is, no run of requests about other elections, granted or not, changes its row, candidates, devices, ballots, log or manifest, and its archive stays the same; a vote counts as about the election of the session its token finds |
| `Isolation.StepIsolated` | backend/app/services/vote_service.py:112-218 | No single request about another election changes what the tables hold about this one, sessions included |
| `Isolation.RecordIsolated` | backend/app/services/vote_service.py:134-218 | The device that cast_vote looks up by ID alone belongs to the session's election, so the vote writes rows of that election only |
| `Frames.StepFrame` | backend/app/services/audit_service.py:27-84 | Every request changes nothing at all, or makes the table writes of its own call, under that call's guards, and appends one entry to the log of its election, a VOTE_CAST entry only for a vote |
| `Frames.Untouched` | backend/app/services/vote_service.py:195-218 | Which calls can write each table at all: ballots only by votes, sessions only by authorizations and votes, and so on |
| `Lifecycle.RunOnward` | backend/app/services/election_service.py:32-39 | Over any run an election never returns to an earlier stage; its candidates are fixed from CONFIGURED on and its configuration hash from LOCKED on |
| `Lifecycle.StepOnward` | backend/app/services/election_service.py:162-257 | No request moves an election back or forward by more than one stage |
| `Lifecycle.BallotsNeedOpening` | backend/app/services/vote_service.py:134-160 | In every reachable state only elections that were opened have ballots |
| `OneVote.OneCredentialOneVote` | backend/app/services/vote_service.py:69-91 | In every reachable state different ballots come from different sessions and no credential voted twice in an election |
| `OneVote.BallotRowsAgree` | backend/app/services/vote_service.py:134-218 | Every ballot's session, device, candidate and election exist and agree with each other, and the session is used up |
| `OneVote.OnlyJustifiedBallots` | backend/app/services/vote_service.py:112-258 | A request adds at most one ballot, and only for an open election, an active device with a number above its last, an unused session of that election on that device, and a candidate of that election, with the hash of its own fields |
| `OneVote.OthersAddNoBallot` | backend/app/services/vote_service.py:195-207 | Only a cast vote writes ballot rows |
| `OneVote.RevokedForever` | backend/app/services/device_service.py:25-30 | Once a device is revoked no run adds a ballot for it and nothing reinstates it |
| `OneVote.DevicesOnlyEvolve` | backend/app/services/device_service.py:97-172 | Device rows are added or rewritten in place under the same ID; a revoked one stays revoked |
| `OneVote.NumbersClimb` | backend/app/services/vote_service.py:172-180 | In every reachable state each device's numbers strictly increase in recording order and its stored counter is their maximum, or zero |
| `OneVote.ConfigurationVerifies` | backend/app/services/election_service.py:272-299 | In every reachable state the stored configuration hash is absent before the lock and afterwards the hash of the candidates in whatever order they are listed |
| `OneVote.PositionsDistinct` | backend/app/services/election_service.py:109-145 | The candidates of an election have distinct IDs and positions |
| `Invariants.LastNumberIsMaximum` | backend/app/services/vote_service.py:172-180 | The last number of a replay-free ballot list is the maximum for its device |
| `Invariants.AddKeepsTables` | backend/app/services/election_service.py:96-158 | Adding candidates keeps every table invariant |
| `Invariants.AuthorizeKeepsTables` | backend/app/services/vote_service.py:32-108 | Authorizing a session keeps every table invariant |
| `Invariants.VoteKeepsTables` | backend/app/services/vote_service.py:195-218 | The writes of a granted vote keep every table invariant: linked rows, fresh numbers, counters, totals |
| `Invariants.UpdateKeepsTables` | backend/app/services/device_service.py:97-172 | A status change keeps every table invariant |
| `Invariants.RegisterKeepsTables` | backend/app/services/device_service.py:33-94 | A registration keeps every table invariant |
| `Invariants.ChangeKeepsTables` | backend/app/services/election_service.py:162-257 | A state change keeps every table invariant, the configuration hash included |
| `Invariants.CreateKeepsTables` | backend/app/services/election_service.py:46-70 | A new election keeps every table invariant |
| `Runs.ReachableInv` | backend/app/database.py:35-45 | Every state a run of requests reaches, granted or rolled back, satisfies the whole invariant: tables, logs, manifests, receipts |
| `Runs.StepKeepsInv` | backend/app/database.py:35-45 | Every request keeps the invariant |
| `Runs.LogEventKeeps` | backend/app/services/audit_service.py:45-82 | Appending an event keeps every election's log valid and every receipt's hash in place |
| `Runs.VerifiedIsCurrent` | backend/app/services/verification_service.py:60-94 | In every state that keeps the invariant a verification states PASSED, INTACT and the current counts |
| `Runs.VerifyKeeps` | backend/app/services/verification_service.py:222-312 | A verification keeps the invariant, the signature that stays on the row included |
| `Runs.SignKeeps` | backend/app/services/signing_service.py:247-331 | A signing keeps the invariant: the stored signature verifies under its own key and names its election |
| `Runs.AnchorKeeps` | backend/app/services/anchor_service.py:211-275 | Anchoring keeps the invariant: every stored receipt is for a hash in its election's log |
| `Runs.RootStands` | backend/app/services/anchor_service.py:225-233 | The root that is anchored is the hash of an entry that stands in the log |
| `Transactions.RunConcat` | backend/app/database.py:35-45 | A run in two parts is the run of the parts one after the other |
| `Transactions.VoteChecks` | backend/app/services/vote_service.py:134-192 | The guards of a vote, in order; a granted vote names a session and a device that exist, match and are ready |
| `Backend.ElectionBackend.constructor` | backend/app/database.py:48-51 | A new backend holds no rows |
| `Backend.ElectionBackend.LogEvent` | backend/app/services/audit_service.py:27-84 | Appends one entry that continues the election's chain and changes nothing else |
| `Backend.ElectionBackend.CreateElection` | backend/app/services/election_service.py:46-70 | Serves the request as specified, or fails and leaves every table alone; returns the row it stored, with these columns |
| `Backend.ElectionBackend.ScanBatch` | backend/app/services/election_service.py:109-132 | The scan with growing ID and position sets accepts a batch if and only if it repeats nothing, within itself or of the stored rows |
| `Backend.ElectionBackend.AddCandidates` | backend/app/services/election_service.py:96-158 | Serves the request as specified, or fails and leaves every table alone; refused exactly on the grounds among the rows, and otherwise CONFIGURED if and only if there are then two candidates |
| `Backend.ElectionBackend.ChangeState` | backend/app/services/election_service.py:162-257 | Serves the request as specified, or fails and leaves every table alone; refused exactly on the grounds among the rows, and otherwise in the requested state |
| `Backend.ElectionBackend.RegisterDevice` | backend/app/services/device_service.py:33-94 | Serves the request as specified, or fails and leaves every table alone; returns the row it stored, with these columns |
| `Backend.ElectionBackend.UpdateDeviceStatus` | backend/app/services/device_service.py:97-172 | Serves the request as specified; an unchanged status is granted without a log entry; returns the device row with the requested status |
| `Backend.ElectionBackend.AuthorizeSession` | backend/app/services/vote_service.py:32-108 | Serves the request as specified, or fails and leaves every table alone; returns the row it stored, with these columns |
| `Backend.ElectionBackend.CheckVote` | backend/app/services/vote_service.py:134-192 | Runs the guards of a vote in the source's order, with the source's error for each |
| `Backend.ElectionBackend.RecordBallot` | backend/app/services/vote_service.py:182-218 | Writes ballot, session, device counters and election total, and nothing else |
| `Backend.ElectionBackend.CastVote` | backend/app/services/vote_service.py:112-258 | Serves the vote as specified, or fails and leaves every table alone; returns the ballot it appended |
| `Backend.ElectionBackend.GenerateManifest` | backend/app/services/verification_service.py:222-312 | Overwrites or creates the manifest row, keeping a signature that is there, and logs it |
| `Backend.ElectionBackend.RunFullVerification` | backend/app/services/verification_service.py:42-170 | Serves the request as specified; each of the five verdicts means what it says about the rows |
| `Backend.ElectionBackend.SignManifest` | backend/app/services/signing_service.py:247-331 | Serves the request as specified, or fails and leaves every table alone; refused exactly on the grounds among the rows, and otherwise the signature is over the manifest's own columns and the latest entry hash |
| `Backend.ElectionBackend.AnchorLocally` | backend/app/services/anchor_service.py:103-131 | Stores the receipt under its reference and changes no other |
| `Backend.ElectionBackend.AnchorElectionRoot` | backend/app/services/anchor_service.py:211-275 | Serves the request as specified; returns the receipt for the current root, entry count and manifest hash, its reference computed locally, taken from the ledger, or NONE |
| `Backend.ElectionBackend.VerifyAnchor` | backend/app/services/anchor_service.py:136-140 | Yes if and only if the receipt is stored and its root is the given one up to case |
| `Backend.ElectionBackend.ExportElection` | backend/app/routers/elections.py:99-258 | The archive of the current rows, or the source's error for an unknown or unfinished election |
| `AuditChain.VerifyChain` | backend/app/services/audit_service.py:135-218 | Reports the length of the longest valid prefix, the first broken entry and its number; intact if and only if the whole log is linked and hashed correctly |
| `AuditChain.VerifiersAgree` | backend/standalone_verifier/verifier.py:314-342 | For any log in sequence order the standalone chain replay passes if and only if the backend's check is intact and the numbers are 1..n |
| `AuditChain.AppendKeepsValid` | backend/app/services/audit_service.py:45-82 | Appending an event to a valid log gives a valid log |
| `AuditChain.ExportedLogSorted` | backend/standalone_verifier/verifier.py:314 | Sorting an exported log by number leaves it as it is |
| `Verifier.VerifyExportData` | backend/standalone_verifier/verifier.py:165-464 | An export without an election object is refused with that failure, no check passed and an empty summary; any other gets the report of its archive, in which the envelope and the ballot checks pass exactly when the digests of the body and of every ballot's own fields are those stored and every candidate and device is there |
| `Verifier.VerifyArchive` | backend/standalone_verifier/verifier.py:200-464 | Computes the twelve checks, the failures in order, the verdict and all counts of the summary as specified on the archive |
| `Reconciliation.FindingsMean` | backend/app/services/reconciliation_service.py:99-118 | The findings are exactly the stored totals that are off, each with what is stored and what was counted |
| `Verifier.TallyBallots` | backend/standalone_verifier/verifier.py:238-277 | The mutating tally loop computes the per-candidate and per-device counts, the number list of every device and the ballot failures in order |
| `Verifier.JudgeBallot` | backend/standalone_verifier/verifier.py:253-277 | The failures one ballot adds: a hash mismatch exactly when the stored hash is not the digest of the ballot's own fields, and the unknown candidate and device |
| `Verifier.ScanSequence` | backend/standalone_verifier/verifier.py:281-286 | One device's number list: the failures against the running last number |
| `Verifier.CheckSequences` | backend/standalone_verifier/verifier.py:279-286 | Passes if and only if every device's numbers strictly increase from above zero |
| `Verifier.NoReplayMeansIncreasing` | backend/standalone_verifier/verifier.py:281-286 | The running comparison succeeds exactly on strictly increasing positive lists |
| `Verifier.ReplayChain` | backend/standalone_verifier/verifier.py:313-342 | The replay accepts exactly the numbered, linked, correctly hashed logs and yields the last non-empty hash as root |
| `Verifier.CheckBallots` | backend/standalone_verifier/verifier.py:233-289 | Both ballot checks together |
| `Verifier.CheckTotals` | backend/standalone_verifier/verifier.py:294-308 | The totals, drift and reconciliation verdicts are those of the ballot list |
| `Verifier.CheckRecords` | backend/standalone_verifier/verifier.py:230-346 | The seven record checks and their failures |
| `Verifier.CheckManifest` | backend/standalone_verifier/verifier.py:351-406 | The manifest verdict is that of the hash rebuilt from the recount |
| `Verifier.RecountAppend` | backend/standalone_verifier/verifier.py:266-274 | One more ballot bumps exactly its own known key |
| `Verifier.SequencesAppend` | backend/standalone_verifier/verifier.py:272-277 | One more ballot extends exactly its known device's list |
| `Verifier.ChainFaultsEmpty` | backend/standalone_verifier/verifier.py:318-340 | No chain failure exactly when every entry is good |
| `VerifierFacts.ValidMeansAllChecks` | backend/standalone_verifier/verifier.py:448-449 | An archive is valid if and only if all twelve checks hold; an empty failure list means the same except for an archive without audit entries |
| `VerifierFacts.SilentAuditRoot` | backend/standalone_verifier/verifier.py:344-345 | An archive with an empty log that reports no failure and is not valid |
| `VerifierFacts.DriftMeaning` | backend/standalone_verifier/verifier.py:294-308 | Drift is the number of ballots with an unknown candidate plus the number with an unknown device, and reconciliation passes exactly when there are none |
| `VerifierFacts.RecountSum` | backend/standalone_verifier/verifier.py:295-301 | The recount misses exactly the ballots with an unknown key |
| `VerifierFacts.ChosenTotalsAgree` | backend/standalone_verifier/verifier.py:368-386 | Whatever a manifest states, the hashed totals agree with the recount up to zero entries; the stated ones are used exactly when they do |
| `Acceptance.AcceptedExactlyWhen` | backend/standalone_verifier/verifier.py:448-449 | The export of well-kept rows is accepted exactly when the configuration is locked, the manifest states the current counts and configuration, its signature is over it and by the expected key, and the receipt is for a hash in the log |
| `Acceptance.ExportVerdicts` | backend/standalone_verifier/verifier.py:203-446 | All twelve verdicts on the export of well-kept rows, in terms of the rows |
| `Acceptance.ManifestHashMeansCurrent` | backend/standalone_verifier/verifier.py:351-406 | The manifest check passes exactly when the manifest states the current rows, absent a collision |
| `Acceptance.RebuiltIsCurrent` | backend/standalone_verifier/verifier.py:368-397 | Manifest data that the verifier rebuilds unchanged are the current ones |
| `Acceptance.RecordsAccepted` | backend/app/routers/elections.py:119-209 | The seven record checks always pass on the export of well-kept rows |
| `Acceptance.ExportKeepsRecordingOrder` | backend/app/routers/elections.py:133-138 | For each device the exported ballot order is the recording order, so the sequence check succeeds |
| `Acceptance.GeneratedManifestIsCurrent` | backend/app/utils/hashing.py:107-132 | Zero omission: a group-by manifest, which lists no zero-vote candidate or device, states the rows and is rebuilt by the verifier to exactly its own data, whenever the export is made |
| `Acceptance.RebuildsCurrent` | backend/standalone_verifier/verifier.py:388-397 | A manifest that states the current counts, with or without zero entries, is rebuilt to its own data |
| `Acceptance.GroupByStatesCounts` | backend/app/services/reconciliation_service.py:48-62 | A group-by over well-kept rows states the counts of all known keys up to zeros |
| `Acceptance.CurrentManifestAccepted` | backend/standalone_verifier/verifier.py:398-400 | A current manifest passes the manifest check |
| `Acceptance.AnchorExported` | backend/standalone_verifier/verifier.py:437-446 | On an exported log the anchor check passes exactly for hashes that stand in it |
| `Hashing.EntryTextBinds` | backend/app/utils/hashing.py:40-48 | The `&#124;`-joined text of an audit entry determines all five fields although event data may itself contain separators |
| `Hashing.EntryTextPlain` | backend/app/utils/hashing.py:40-48 | The text of an entry without any separator belongs to no other entry |
| `Hashing.EntryTextOuter` | backend/app/utils/hashing.py:40-48 | Number and predecessor are read off the text in any case |
| `Hashing.BallotHashBinds` | backend/app/utils/hashing.py:51-75 | Equal ballot hashes mean equal ballots or a digest collision |
| `Hashing.ConfigurationHashCanonical` | backend/app/utils/hashing.py:78-104 | With distinct positions the configuration hash does not depend on the order of the candidates |
| `Text.JoinInjective` | backend/app/utils/hashing.py:40-48 | Joining with `&#124;` is injective on lists of separator-free texts of equal length |
| `Text.JoinFiveInjective` | backend/app/utils/hashing.py:40-48 | Joining five texts is injective when all but the third are separator-free |
| `Text.JoinFivePlain` | backend/app/utils/hashing.py:40-48 | If the five texts on one side are separator-free, those on the other are the same |
| `Text.JoinFiveShift` | backend/app/utils/hashing.py:40-48 | A separator in the third text can be moved into the second without a trace |
| `Text.StrReads` | backend/app/utils/hashing.py:40-48 | A number is written in decimal digits that read as the number, without leading zeros, a minus sign first |
| `Timestamps.IsoReads` | backend/app/utils/hashing.py:12-20 | The text of an instant read column by column: year, month, day, hour, minute, second, the fraction only if it is not zero, and the UTC offset |
| `Timestamps.NaiveIsUtc` | backend/standalone_verifier/verifier.py:47-53 | A text without a zone is taken for UTC, one that ends in Z is left alone |
| `Text.StrInjective` | backend/app/utils/hashing.py:40-48 | Decimal texts of integers determine the integer |
| `Timestamps.IsoCanonical` | backend/standalone_verifier/verifier.py:47-53 | The backend's timestamp text is separator-free and a fixed point of the verifier's normalisation |
| `Timestamps.IsoInjective` | backend/app/utils/hashing.py:12-20 | The timestamp text determines the time to the microsecond |
| `Sorting.SortCanonical` | backend/app/utils/hashing.py:88-91 | Sorting by a key without repetitions depends only on the multiset of rows |
| `Sorting.FilterSort` | backend/app/routers/elections.py:133-138 | Selecting rows commutes with stable sorting |
| `Simulator.RunSimulation` | backend/app/routers/simulation.py:81-300 | For any turnout and any non-empty lists of distinct candidates and devices: the manifest lists every candidate and every device with its ballot count, tallies differ by at most one between candidates and between devices, every device row has cast as many ballots as name it and its counter is that number, reconciliation passes on the rows, the log holds the seven events and one batch entry for every 500 ballots in this order, and the export is accepted in full |
| `Simulator.InStepReconciles` | backend/app/services/reconciliation_service.py:99-118 | Simulated rows in step are rows on which the backend's reconciliation says PASSED |
| `Simulator.CountersStep` | backend/app/routers/simulation.py:221-222 | One more vote keeps a device's counter and its number of cast votes equal to its ballot count, and leaves the other devices alone |
| `Simulator.Simulation.constructor` | backend/app/routers/simulation.py:180-181 | A new simulation has an empty log |
| `Simulator.Simulation.AddAudit` | backend/app/routers/simulation.py:183-205 | The closure appends exactly the entry that continues the chain |
| `Simulator.Simulation.LogOpening` | backend/app/routers/simulation.py:207-211 | The five events from creation to opening, in this order |
| `Simulator.NumberOfTurn` | backend/app/routers/simulation.py:219-221 | The device whose turn it is has the number of full rounds behind it as its counter |
| `Simulator.Simulation.GenerateBallots` | backend/app/routers/simulation.py:213-261 | The batch loop: turnout ballots, correctly hashed, replay-free, with the chain valid, both tallies equal to the counts, and every device's counter and number of cast votes equal to the ballots that name it; ballot i goes to candidate and device i modulo their number, with the device's next number |
| `Simulator.SimulatedAccepted` | backend/app/routers/simulation.py:270-300 | A simulated election with its zero-listing manifest is accepted |
| `Simulator.TurnsStep` | backend/app/routers/simulation.py:218-220 | One more round-robin turn goes to exactly one slot |
| `Simulator.TurnsFair` | backend/app/routers/simulation.py:218-220 | After any number of turns two slots differ by at most one |
| `Simulator.TalliesFair` | backend/app/routers/simulation.py:223-224 | So do two tallies |
| `Simulator.NextBallotReplayFree` | backend/app/routers/simulation.py:221-222 | A ballot numbered one above its device's counter keeps the list replay-free |
| `TamperSwitch.DebounceRefines` | firmware/secureVOTE/tamper.cpp:43-62 | For polls in time order no further apart than 2^32 - 51 ms the debouncer on wrapping 32-bit time shows the value of the latest run of equal readings that lasted more than 50 ms, or the initial value |
| `TamperSwitch.DebounceExactBound` | firmware/secureVOTE/tamper.cpp:43-62 | It does so for all polls with gaps up to a bound if and only if the bound is at most 2^32 - 51 |
| `TamperSwitch.LongGapMisses` | firmware/secureVOTE/tamper.cpp:51 | A gap one millisecond longer can hide a lasting run behind the wrap |
| `TamperSwitch.TracksAlways` | firmware/secureVOTE/tamper.cpp:46-53 | What the three static variables mean after any number of polls |
| `TamperSwitch.PollShows` | firmware/secureVOTE/tamper.cpp:51-58 | A poll that ends a lasting run shows its reading; any other poll changes nothing |
| `TamperSwitch.LastedFromRunStart` | firmware/secureVOTE/config.h:45 | A run has lasted exactly when its first poll is more than 50 ms back |
| `TamperSwitch.Elapsed` | firmware/secureVOTE/tamper.cpp:51 | Unsigned subtraction: the difference, or the difference plus 2^32 |
| `TamperSwitch.ElapsedIsReal` | firmware/secureVOTE/tamper.cpp:51 | Up to 2^32 ms apart, unsigned subtraction of clock readings is the real time between them |
| `TamperSwitch.Switch.constructor` | firmware/secureVOTE/tamper.cpp:10-12 | The static values before initialisation |
| `TamperSwitch.Switch.Init` | firmware/secureVOTE/tamper.cpp:14-27 | Initialisation adopts the current reading |
| `TamperSwitch.Switch.Poll` | firmware/secureVOTE/tamper.cpp:43-62 | One poll moves the state by the specified step and answers the debounced value |
| `Persistence.CacheAndEepromAgree` | firmware/secureVOTE/storage.cpp:93-183 | From any EEPROM contents, after any interleaving of setters, increments, reboots and formats, cache and EEPROM both hold what a machine of independent fields holds, and a reboot restores the very same state |
| `Persistence.SyncedIsRebootInvisible` | firmware/secureVOTE/storage.cpp:93-121 | Cache and EEPROM agree exactly when a power cycle changes nothing |
| `Persistence.UnmappedBytesNeverChange` | firmware/secureVOTE/config.h:81-88 | The admin PIN area and the bytes past the map keep their values through every run |
| `Persistence.CounterCounts` | firmware/secureVOTE/storage.cpp:127-131 | Without formatting the counter is its first value plus the number of increments, modulo 2^32 |
| `PowerCuts.NumbersNeverRepeatExactly` | firmware/secureVOTE/storage.cpp:55-59 | Which cuts are safe: for any set of low bytes, no run of operations other than formatting, reboots, cut increments and cut text writes, from any EEPROM contents, returns a number twice before the counter wraps, provided its increments are cut at such bytes only, if and only if 0xFF is not among them |
| `PowerCuts.NumbersNeverRepeat` | firmware/secureVOTE/storage.cpp:127-131 | In every such run the returned numbers strictly increase |
| `PowerCuts.CutHarmlessExactly` | firmware/secureVOTE/storage.cpp:55-59 | From any start, after n completed increments: the next one cut after k bytes leads to no number being returned twice, however many follow, if and only if n is zero, k is zero, or the k bytes do not all carry |
| `PowerCuts.NextCutHarmlessExactly` | firmware/secureVOTE/storage.cpp:55-59 | From a counter of zero: no cut of the increment after n completed ones makes a number return twice if and only if n modulo 256 is not 255 |
| `PowerCuts.CutAtCarryRepeats` | firmware/secureVOTE/storage.cpp:55-59 | A run that returns a number twice after one cut at 0xFF |
| `PowerCuts.ReturnedAroundCut` | firmware/secureVOTE/storage.cpp:127-131 | What increments before and after one cut return, number by number |
| `PowerCuts.CutResetsExactly` | firmware/secureVOTE/storage.cpp:55-59 | A power loss after k bytes of an increment brings the counter back to zero if and only if the new value is 256 to the k: the case of 255, for one, against the promise that it never resets on power cycling |
| `PowerCuts.CutReads` | firmware/secureVOTE/storage.cpp:55-59 | A cut after k bytes leaves the low k bytes of the new counter under the high bytes of the old one, with cache and EEPROM in agreement |
| `PowerCuts.IncrementIsAtomicExactlyWithoutCarry` | firmware/secureVOTE/storage.cpp:55-59 | An increment leaves the old or the new state at every cut if and only if the old low byte is not 0xFF |
| `PowerCuts.CutIncrementState` | firmware/secureVOTE/storage.cpp:55-59 | A cut write disturbs nothing but the counter |
| `PowerCuts.EventsKeepSync` | firmware/secureVOTE/storage.cpp:93-121 | Whatever power losses cut, increments, device ID and hash writes, and formats alike, cache and EEPROM agree after every restart |
| `PowerCuts.QuietEvent` | firmware/secureVOTE/storage.cpp:137-183 | Flags, texts and reboots, cut or not, leave the counter alone |
| `TextCuts.WriteIsAtomicExactly` | firmware/secureVOTE/storage.cpp:61-83 | A byte-by-byte write leaves the old or the new bytes at every cut if and only if they differ at one position at most |
| `TextCuts.SetDeviceIdIsAtomicExactly` | firmware/secureVOTE/storage.cpp:160-168 | Setting the device ID leaves the old or the new state at every cut if and only if at most one of its eight bytes changes |
| `TextCuts.SetConfigHashIsAtomicExactly` | firmware/secureVOTE/storage.cpp:174-183 | Setting the configuration hash does if and only if at most one of its 65 bytes changes |
| `TextCuts.CutDeviceIdShows` | firmware/secureVOTE/storage.cpp:160-168 | After a power loss within the write the restart shows the new ID once its NUL is written, and before that a beginning of it with the end of the old bytes; with the exact conditions for seeing the new ID and for still seeing the old one |
| `TextCuts.CutConfigHashShows` | firmware/secureVOTE/storage.cpp:174-183 | The same for the configuration hash |
| `TextCuts.CutDeviceIdState` | firmware/secureVOTE/storage.cpp:160-168 | A cut device ID write disturbs nothing but the ID |
| `TextCuts.CutConfigHashState` | firmware/secureVOTE/storage.cpp:174-183 | A cut hash write disturbs nothing but the hash |
| `PowerCuts.CutFormatRepairedExactly` | firmware/secureVOTE/storage.cpp:61-100 | A power loss after k of the 81 writes of a format is repaired by the restart if and only if the magic mark does not stand yet or the remaining writes would change nothing |
| `PowerCuts.RestartsRepairExactly` | firmware/secureVOTE/storage.cpp:61-100 | A format that loses power, followed by any number of restarts that lose power as well, over any EEPROM contents: the first undisturbed restart ends where an undisturbed format would if and only if the first cut at which the magic mark stands, if any, has nothing left to write |
| `PowerCuts.FirstPowerUpsExactly` | firmware/secureVOTE/storage.cpp:93-100 | The same for first power-ups that are cut; a marked EEPROM is not written to at all |
| `PowerCuts.FormatIsAtomicExactlyOverDefaults` | firmware/secureVOTE/storage.cpp:61-100 | Formatting survives every power loss if and only if the EEPROM holds the defaults already, the mark aside |
| `PowerCuts.ErasedCutKeepsGarbage` | firmware/secureVOTE/storage.cpp:61-100 | An erased EEPROM, cut after the mark is written, restarts with counter 2^32 - 1 instead of 0 |
| `PowerCuts.MagicAfterCut` | firmware/secureVOTE/storage.cpp:61-62 | The mark stands after two writes, or earlier when the old bytes match |
| `PowerCuts.WholeFormat` | firmware/secureVOTE/storage.cpp:61-83 | The 81 single-byte writes in their order are the whole format |
| `PowerCuts.FormatAgain` | firmware/secureVOTE/storage.cpp:93-100 | Formatting after a cut format ends where the first would have ended |
| `Persistence.StepKeepsSync` | firmware/secureVOTE/storage.cpp:127-183 | Each operation changes the field it names, as a caller expects, and keeps cache and EEPROM in agreement |
| `Persistence.BootIsSynced` | firmware/secureVOTE/storage.cpp:93-121 | Power-up agrees with the EEPROM, whatever it holds |
| `Persistence.FormatKeepsSync` | firmware/secureVOTE/storage.cpp:61-91 | Formatting writes the defaults and leaves cache and EEPROM in agreement |
| `Persistence.FormattedBytes` | firmware/secureVOTE/storage.cpp:61-83 | Formatting byte by byte at the addresses of the EEPROM map: mark, default ID, zero counter, flags, default hash, everything else untouched |
| `Persistence.BootReads` | firmware/secureVOTE/storage.cpp:93-121 | What a start reads from a marked EEPROM, byte by byte: little-endian counter, flags, ID and hash with a NUL each |
| `Persistence.WrittenBytes` | firmware/secureVOTE/storage.cpp:127-154 | What the flags and the counter write, byte by byte: one byte each, and the four of the next number, wrapping at 2^32 |
| `Persistence.FormattedLayout` | firmware/secureVOTE/config.h:81-88 | Where formatting leaves each field; the fields do not overlap |
| `Persistence.DeviceIdKeepsSync` | firmware/secureVOTE/storage.cpp:160-168 | Setting the device ID stores its first seven characters in both places and touches eight bytes |
| `Persistence.ConfigHashKeepsSync` | firmware/secureVOTE/storage.cpp:174-183 | Setting the configuration hash stores its first 64 characters in both places and touches 65 bytes |
| `Storage.WordRoundTrip` | firmware/secureVOTE/storage.cpp:47-59 | Reading a little-endian word back gives the word written |
| `Storage.CStr` | firmware/secureVOTE/storage.cpp:156-158 | The string a buffer holds ends at its first NUL |
| `Storage.Store.constructor` | firmware/secureVOTE/storage.cpp:30-34 | Power on: zeroed RAM over the given EEPROM contents |
| `Storage.Store.Strncpy` | firmware/secureVOTE/storage.cpp:162 | The library copy: the string's first n characters, padded with zeros |
| `Storage.Store.ReadUint16` | firmware/secureVOTE/storage.cpp:36-40 | The two bytes, least significant first |
| `Storage.Store.ReadUint32` | firmware/secureVOTE/storage.cpp:47-53 | The word of four bytes, least significant first |
| `Storage.Store.WriteUint32` | firmware/secureVOTE/storage.cpp:55-59 | Writes exactly the four bytes of the word |
| `Storage.Store.WriteBytes` | firmware/secureVOTE/storage.cpp:164-166 | A loop of raw writes changes exactly the given range |
| `Storage.Store.ReadBytes` | firmware/secureVOTE/storage.cpp:111-113 | A loop of raw reads fills the front of a buffer |
| `Storage.Store.FormatEeprom` | firmware/secureVOTE/storage.cpp:62-83 | The EEPROM writes of a format, in their order |
| `Storage.Store.Format` | firmware/secureVOTE/storage.cpp:61-91 | Formats as specified, byte by byte |
| `Storage.Store.Init` | firmware/secureVOTE/storage.cpp:93-121 | Restores the cache, or formats when the magic mark is missing |
| `Storage.Store.IncrementSequenceCounter` | firmware/secureVOTE/storage.cpp:127-131 | Cache and EEPROM move to the next counter value, wrapping at 2^32 |
| `Storage.Store.SetTamperFlag` | firmware/secureVOTE/storage.cpp:137-140 | Cache and EEPROM take the flag, nothing else changes |
| `Storage.Store.ClearTamperFlag` | firmware/secureVOTE/storage.cpp:142-145 | Cache and EEPROM take zero, nothing else changes |
| `Storage.Store.SetPauseFlag` | firmware/secureVOTE/storage.cpp:151-154 | Cache and EEPROM take the flag, nothing else changes |
| `Storage.Store.SetDeviceId` | firmware/secureVOTE/storage.cpp:160-168 | Cache and EEPROM take the truncated ID; NULL changes nothing |
| `Storage.Store.SetConfigHash` | firmware/secureVOTE/storage.cpp:174-183 | Cache and EEPROM take the truncated hash; NULL changes nothing |
| `StateMachine.NoVoteAroundTheLock` | firmware/secureVOTE/state_machine.cpp:50-155 | On any run to VOTE_SUBMISSION the last locked state is followed at once by ADMIN_AUTH and then, in this order, by READY, VOTING and CONFIRM |
| `StateMachine.SubmissionsAccounted` | firmware/secureVOTE/state_machine.cpp:84-94 | From power-up, submissions entered are audit commits entered plus those cut by tamper or error plus the one in flight; likewise commits against completions |
| `StateMachine.StageBalance` | firmware/secureVOTE/state_machine.cpp:84-94 | The same balance from any start for a stage with one way in and one way out |
| `StateMachine.TracesFollowMatrix` | firmware/secureVOTE/state_machine.cpp:113-155 | Triggers and recovery bypass the request check, yet no event leaves the transition matrix |
| `StateMachine.MayVoteAroundTheLock` | firmware/secureVOTE/state_machine.cpp:157-165 | On any run the voting query never answers yes while the lock query does, a submission is entered only from a state where it does, and after a lock it answers yes again only once authentication, straight after the lock, and a return to READY lie behind |
| `StateMachine.PathBehind` | firmware/secureVOTE/state_machine.cpp:61-107 | What part of the unlocking path lies behind each state reached after a lock |
| `Reachability.ReachedWithinExactly` | firmware/secureVOTE/state_machine.cpp:61-107 | Over all lists of requests other than emergencies: at most n of them can lead from one state to another if and only if the table of shortest distances has an entry of at most n; every edge is an entry of 1 |
| `Reachability.ReadyAgain` | firmware/secureVOTE/state_machine.cpp:61-107 | From every state at most three requests lead back to READY |
| `Reachability.VoteCycle` | firmware/secureVOTE/state_machine.cpp:76-94 | The six requests of one vote are all granted, from READY to READY |
| `Reachability.MayVoteExactly` | firmware/secureVOTE/state_machine.cpp:157-159 | The voting query answers yes exactly where a submission lies ahead, at most two requests away |
| `Reachability.LockedExactly` | firmware/secureVOTE/state_machine.cpp:161-165 | The lock query answers yes exactly where authentication is the only state an ordinary request leads to |
| `Reachability.RecordsLatestMove` | firmware/secureVOTE/state_machine.cpp:113-155 | After any timed run the machine stands where the trace ends and records the state and the time of its latest accepted event |
| `StateMachine.Machine.constructor` | firmware/secureVOTE/state_machine.cpp:5-7 | Starts in BOOT |
| `StateMachine.Machine.Init` | firmware/secureVOTE/state_machine.cpp:32-36 | Back to BOOT |
| `StateMachine.Machine.TransitionTo` | firmware/secureVOTE/state_machine.cpp:113-122 | Moves exactly when the matrix allows it and reports so, with the state it left and the time; otherwise nothing changes |
| `StateMachine.Machine.TriggerTamper` | firmware/secureVOTE/state_machine.cpp:124-128 | Enters TAMPER_DETECTED from any state, with the state it left and the time |
| `StateMachine.Machine.TriggerError` | firmware/secureVOTE/state_machine.cpp:130-134 | Enters ERROR from any state, with the state it left and the time |
| `StateMachine.Machine.ExecuteRecovery` | firmware/secureVOTE/state_machine.cpp:136-155 | From ADMIN_AUTH only: READY with a valid hash, else ERROR |
| `StateMachine.Machine.CanVote` | firmware/secureVOTE/state_machine.cpp:157-159 | Answers yes exactly in VOTING and CONFIRM |
| `StateMachine.Machine.IsLocked` | firmware/secureVOTE/state_machine.cpp:161-165 | Answers yes exactly in TAMPER_DETECTED, ERROR and PAUSED |
| `SerialBridge.ProcessStream` | firmware/bridge/serial_bridge.py:197-203 | A loop of process_chunk calls on a fresh bridge hands over the lines of the whole stream, collects their answers in order and keeps the rest, in whatever chunks the stream comes |
| `SerialBridge.ChunkingInvisible` | firmware/bridge/serial_bridge.py:64-76 | The step from chunks to the stream: however it is cut, the same lines are handed over in the same order with the same answers, and the same text stays in the buffer |
| `SerialBridge.Bridge.constructor` | firmware/bridge/serial_bridge.py:44-57 | A new bridge has an empty buffer |
| `SerialBridge.Bridge.ProcessChunk` | firmware/bridge/serial_bridge.py:64-76 | Hands over exactly the complete lines, answers in order, keeps the newline-free rest, and terminates on the newline count |
| `SerialBridge.LinesRebuild` | firmware/bridge/serial_bridge.py:71-72 | Lines and buffer rebuild the text |
| `SerialBridge.LinesUnique` | firmware/bridge/serial_bridge.py:71-72 | No other newline-free lines and rest do |
| `SerialBridge.LinesContinue` | firmware/bridge/serial_bridge.py:69-72 | Lines already complete stand, whatever text follows |
| `SerialBridge.PiecesNewlineFree` | firmware/bridge/serial_bridge.py:71-72 | No line and no buffer between calls holds a newline |
| `SerialBridge.NewlinesAfterSplit` | firmware/bridge/serial_bridge.py:71-72 | Each turn of the loop removes exactly one newline |
| `RateBursts.CheckVotingRateBursts` | backend/app/services/anomaly_detection.py:168-220 | The findings are, device by device in dictionary order, the first hit of the four-wide scan over its ballots in number order |
| `RateBursts.GroupByDevice` | backend/app/services/anomaly_detection.py:182-184 | The dictionary holds each device's ballots in scan order, its keys in order of first appearance |
| `RateBursts.ScanDevice` | backend/app/services/anomaly_detection.py:186-219 | The inner loop reports the first hit and stops |
| `RateBursts.NoBurstMissed` | backend/app/services/anomaly_detection.py:182-219 | Whatever the clock did, a device with four ballots within five seconds has exactly one finding, and no device has more |
| `RateBursts.AdjacentWindowsSuffice` | backend/app/services/anomaly_detection.py:188-193 | When a device's times do not decrease in number order it has a finding if and only if some four of its ballots lie within five seconds |
| `RateBursts.BurstRuleExactly` | backend/app/services/anomaly_detection.py:188-193 | For every clock that counts microseconds: the rule is right on all rows the ballot table can hold whose clock ran back by at most some slack if and only if the slack is zero |
| `RateBursts.BackwardClockFalseAlarm` | backend/app/services/anomaly_detection.py:190-193 | Four storable ballots whose clock runs back by one microsecond, not within five seconds, that the scan reports |
| `RateBursts.FindingsReport` | backend/app/services/anomaly_detection.py:186-219 | A finding is reported exactly for the first four neighbours of a device within five seconds, with their first and last number, duration and time |
| `RateBursts.BurstIsHit` | backend/app/services/anomaly_detection.py:188-193 | Among four close positions two agree modulo three, so some window of neighbours is short |

The cited lines of a run theorem are those of the rule it rests on; the steps themselves are the
methods of `Backend.ElectionBackend`.

## Left out

- The dashboard, HTTP routing, tokens, passwords, sockets and broadcasting: input, output and libraries.
- JSON text: archives and manifests are structured values. An export without an election object is modelled; other missing or mistyped JSON fields, and the fallback to an empty dictionary for an unreadable totals text, are not.
- The inside of SHA-256 (FIPS 180-4) and Ed25519 (RFC 8032): a digest parameter and an ideal signature whose verification may answer anything on texts it did not sign. Errors raised while decoding keys and signatures count as a refused signature.
- Clock readings within a request: one reading serves a ballot row and its log entry, and so on; the source takes one for each. No result turns on it.
- The bytes of the serial line: chunks are decoded texts. The live loop decodes each read on its own and replaces a multi-byte character that two reads cut.
- Database concurrency: each request is one transaction. The read-then-write counters support no stronger claim.
- Fresh identifiers: generated IDs and tokens are inputs of the calls, and a collision is an integrity error.
- Unique constraints on (device, number) and on the session of a ballot: they follow from the invariant and are not checked again. A candidate ID already used by another election is an integrity error.
- Session statuses other than AUTHORIZED and VOTED: no code sets them.
- Timestamps of elections, devices, manifests and receipts, descriptions, and human-readable detail texts: nothing that is modelled reads them. Dates admit days and months the calendar does not have; only the shape of the text matters.
- Key fingerprints and key files: a configured key is an input of `SignManifest`.
- The external ledger: only its configured and unconfigured answers.
- `seed_demo_election.py` and the demo-seeding route: they write states directly and are not part of runs.
- Card taps: they reduce to `AuthorizeSession` or to the logged rejection; the card format and its keyed pseudonym are not modelled.
- The simulator's presets, station and voter rows, and its naming of IDs: candidate and device lists are inputs.
- The other anomaly rules, complaints, stations, voters, geography: simple record keeping.
- Firmware display, serial output, PIN entry and vote buttons; the main sketch loop is not part of this model, so nothing is said about how it drives the state machine.
- `storage_set_device_id` and `storage_set_config_hash` with the module's own buffer as argument: strings are passed by value.
- The simple getters and the configuration-hash comparison of the storage module, and `fsm_get_state_duration_ms`.
- The handling of a single serial line: a function from lines to optional answers stands for it.
- Floating-point seconds in the velocity rule: times are whole microseconds.
- AuditTrail.RootPinsBallots: assumes requests with separator-free election, session, candidate and device IDs, as the request schemas and generated IDs are, because the ballot text joins them with `|` unescaped.
- Staleness.ReachableExportVerdict: assumes that the stored manifest hash belongs to no other data the verifier may rebuild and that only the key that signed accepts the stored signature, because digest and signature are ideal here.
- SignedArchives.AcceptedKeyPinsResults: unforgeability enters as a hypothesis about the one payload and signature in the archive.
- SignedArchives.SignaturePinsResults: takes the payload in the archive as one that the run signed.
