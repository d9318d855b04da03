# Verified models of the Sirius proxy

This project models the parts of the proxy that are hardest to get right and proves what they are for:
the legacy cipher, the Master snapshot chain, the asset dispatch ledger and its worker, path and account
health, Git publication, schema reloads, node failover, shared execution, the login limiter and the
response cache. `dafny verify dfyconfig.toml` checks everything.

Files on disk, commands and network exchanges are atomic steps; a crash may fall between any two of them.
Time is a natural number, SHA-256 and JSON are functions the model is given, and other writers and readers
are steps or states that come in between.

- **Cipher** (`GaloisField`, `Rijndael`, `RijndaelLaws`, `RijndaelDecryptor`). The field of section 4.2 of FIPS 197, built up
  from bit-vectors to inverses and back to polynomial remainders; Rijndael with 256-bit blocks and keys as
  the specification of encryption, with laws that spell out its bytes and constants; and the decryptor as
  loops over arrays. Decryption returns a message
  exactly for the CBC encryption of that message with the padding of section 6.3 of RFC 5652.
- **Snapshot chain** (`MasterRegistry`, `MasterHistory`, `MasterPaging`). A directory with CURRENT and a
  retention boundary, changed one rename at a time by publications and retention passes, and read without
  locks; pages are runs of the committed chain, whatever happens meanwhile.
- **Asset dispatch** (`AssetOutbox`, `AssetDispatch`, `AssetCompletion`). The ledger on disk and in memory, the archive, the
  rotating cursor, and the worker as a machine of durable and network steps with crashes and restarts.
- **Health and charges** (`PathHealth`, `AccountCharges`, `ChargeSettlement`). A breaker whose state is a
  function of the trailing faults, and account failures that end up counting exactly what was not the
  path's fault, over any interleaving of attempts and three-step reports.
- **Publication** (`JsonIndent`, `GitPublication`). The re-indenter, and the compare-and-swap protocol over a
  commit graph shared with other writers.
- **Schemas** (`SchemaCompatibility`, `SchemaLoading`). The worklist that decides whether a reload is allowed,
  its exact meaning, the contract a bundle must meet to load, and what runs of reloads leave.
- **Routing** (`SingleFlight`, `PeerExecution`, `NodeRouting`). Shared execution under cancellation, and
  failover that sends an authenticated call at most once.
- **Bounds** (`LoginLimiter`, `ResponseCache`). A sliding day with an exact next instant, and a
  byte-accounted cache under any interleaving of stores and two-phase lookups.

Four properties one might expect do not hold as such. Each has a lemma with an input that shows it, and a
theorem that says, for every input or run, exactly when it does hold.

- `SingleFlight.Overtaken`: a joiner that starts before the registering caller publishes while the entry is
  still in the map, contrary to the module comment (src/single_flight.rs:1-2). `SingleFlight.EarlyExactly` and
  `SingleFlight.LateCaller` say when, and that a later caller then receives the outcome.
- `ChargeSettlement.LateReport`: a report that lands after a later streak was attributed keeps a charge.
  `ChargeSettlement.ChargesExact` holds for every run: failures are the charges of no shared streak plus those
  stranded at three guards (a landing that meets another streak's charges, an attribution whose charges
  are no longer tracked, a settlement whose streak is not the latest attributed one), so the books agree
  exactly when nothing was stranded. `ChargeSettlement.ChargesSettle` gives a condition on the run under which
  nothing is.
- `SchemaLoading.WhoamiLost`: three bundles that load, two allowed reloads, and a result that is not compatible
  with the first. `SchemaCompatibility.ComposesExactly` says when two steps compose and
  `SchemaLoading.ReloadsExactly` when a whole run does; for the Global family it always does.
- `JsonIndent.KindsNotMatched`: brackets of different kinds balance each other, although the comment at
  src/master_git.rs:124-126 speaks of unbalanced input. `JsonIndent.AcceptedExactly` says what is accepted.

## Model

| member | source | states |
|---|---|---|
| GaloisField.Multiply | src/rijndael.rs:6-16 | the eight-step loop computes the field product |
| GaloisField.MulIsRemainder | src/rijndael.rs:6-16 | the product is the polynomial product reduced modulo 0x11b |
| GaloisField.MulAssociates | src/rijndael.rs:6-16 | products associate |
| GaloisField.MulCommutes | src/rijndael.rs:6-16 | products commute |
| GaloisField.MulDistributes | src/rijndael.rs:6-16 | products distribute over exclusive or |
| GaloisField.Power256 | src/rijndael.rs:21-25 | x^256 = x for every byte, the reason x^254 inverts |
| GaloisField.InverseMultiplies | src/rijndael.rs:21-25 | x^254 is the multiplicative inverse of every non-zero byte |
| GaloisField.InverseInvolutive | src/rijndael.rs:21-25 | inverting twice gives the byte back, zero included |
| Rijndael.AffineInverse | src/rijndael.rs:26-27 | the affine step of the S-box and its inverse undo each other |
| Rijndael.AffineBits | src/rijndael.rs:26-27 | the rotations are the bitwise affine map of section 5.1.1 of FIPS 197 |
| Rijndael.SubByteInverse | src/rijndael.rs:17-31 | S-box and inverse S-box undo each other on every byte |
| RijndaelDecryptor.BuildBoxes | src/rijndael.rs:17-31 | the filled tables are the S-box and its inverse |
| RijndaelDecryptor.SubstituteEntry | src/rijndael.rs:20-28 | 254 multiplications and the rotations give one S-box entry |
| RijndaelDecryptor.ExpandKey | src/rijndael.rs:37-59 | the loop over 120 words gives the key schedule, whose bytes `RijndaelLaws.ScheduleLaw` spells out |
| RijndaelDecryptor.NextWord | src/rijndael.rs:44-57 | one word of the schedule, as `RijndaelLaws.ScheduleLaw` spells it out, and the next round constant |
| RijndaelDecryptor.New | src/rijndael.rs:37-59 | a decryptor holds the schedule of its key and the inverse S-box |
| RijndaelLaws.ScheduleLaw | src/rijndael.rs:39-57 | byte by byte: the key; then the word eight back plus the previous one, turned, substituted and with a power of x every eighth word, substituted four later |
| RijndaelLaws.SubByteLaw | src/rijndael.rs:20-29 | 0x63 for zero, else the rotations of the multiplicative inverse |
| RijndaelLaws.ShiftRowsLaw | src/rijndael.rs:70-74 | rows turn by 0, 1, 3 and 4 columns |
| RijndaelLaws.MixColumnsLaw | src/rijndael.rs:77-87 | columns are multiplied by 2, 3, 1, 1, which the source's 14, 11, 13, 9 undo |
| RijndaelLaws.AddRoundKeyLaw | src/rijndael.rs:60-64 | round r takes words 8r to 8r+7, a word to a column |
| RijndaelLaws.RoundsLaw | src/rijndael.rs:65-90 | an initial key, thirteen full rounds, a last one that does not mix |
| RijndaelLaws.ChainingLaw | src/rijndael.rs:100-106 | each block is added to the cipher block before it, the first to the vector |
| RijndaelLaws.PaddingLaw | src/rijndael.rs:107-115 | 1 to 32 bytes, each of them that number, fill the last block |
| Rijndael.ShiftRowsInverse | src/rijndael.rs:69-75 | the row shifts 0, 1, 3, 4 and their inverses cancel both ways |
| Rijndael.SubBytesInverse | src/rijndael.rs:69-75 | byte substitution and its inverse cancel both ways on a state |
| Rijndael.MixByteInverse | src/rijndael.rs:78-86 | the coefficients 14, 11, 13, 9 undo 2, 3, 1, 1 on every column, and conversely |
| Rijndael.MixColumnsInverse | src/rijndael.rs:77-87 | column mixing and its inverse cancel both ways on a state |
| Rijndael.AddRoundKeyTwice | src/rijndael.rs:60-64 | adding a round key twice changes nothing |
| RijndaelDecryptor.Rijndael256.AddKey | src/rijndael.rs:60-64 | the array becomes the state with the round key added |
| RijndaelDecryptor.Rijndael256.ShiftAndSubstitute | src/rijndael.rs:69-75 | the array becomes the state with rows shifted back and bytes substituted back |
| RijndaelDecryptor.Rijndael256.MixColumnBack | src/rijndael.rs:78-86 | one column is mixed back in place, the others stay |
| RijndaelDecryptor.Rijndael256.MixBack | src/rijndael.rs:77-87 | the array becomes the state with every column mixed back |
| RijndaelDecryptor.Rijndael256.Block | src/rijndael.rs:65-90 | the loops compute the inverse cipher on one block |
| Rijndael.DecryptMeetsEncrypt | src/rijndael.rs:65-90 | at every round, decryption of an encrypted block is where encryption was |
| Rijndael.EncryptMeetsDecrypt | src/rijndael.rs:65-90 | at every round, encryption of a decrypted block is where decryption was |
| Rijndael.BlockInverse | src/rijndael.rs:65-90 | block encryption and decryption are inverse, both ways, for every schedule |
| Rijndael.CbcDecryptsEncrypted | src/rijndael.rs:100-106 | chained decryption undoes chained encryption of any blocks |
| Rijndael.CbcEncryptsDecrypted | src/rijndael.rs:100-106 | chained encryption undoes chained decryption of any blocks |
| RijndaelDecryptor.RemovePadding | src/rijndael.rs:107-115 | the strict padding check and truncation |
| Rijndael.UnpadsPadded | src/rijndael.rs:107-115 | unpadding a padded message gives it back |
| Rijndael.PadsUnpadded | src/rijndael.rs:107-115 | whatever unpads to a message is that message padded: padding is unique |
| RijndaelDecryptor.Rijndael256.Decrypt | src/rijndael.rs:96-117 | the method returns the decrypted message or the cipher error |
| Rijndael.DecryptExact | src/rijndael.rs:96-117 | decrypting c gives p exactly when c is the CBC encryption of the padded p |
| MasterRegistry.InstallKeeps | src/master.rs:533-555 | a snapshot renamed into place leaves the committed chain as it was |
| MasterRegistry.SwitchKeeps | src/master.rs:555-563 | switching CURRENT extends the linked chain by that snapshot |
| MasterRegistry.Store.Publish | src/master.rs:533-563 | install, then switch: the two durable states and the chain they leave |
| MasterRegistry.MarkKeeps | src/master_registry.rs:854-857 | recording a newer boundary keeps the directory invariant |
| MasterRegistry.RemoveKeeps | src/master_registry.rs:859-864 | renaming the oldest snapshot behind the boundary away keeps the surviving run gap-free |
| MasterRegistry.Store.FindBoundary | src/master_registry.rs:804-827 | the window walk stops at the keep-th installation or the recorded boundary, whichever is newer; `MasterRegistry.WindowLaw` says which snapshots that keeps |
| MasterRegistry.Store.FindCandidates | src/master_registry.rs:828-850 | the candidates are exactly the surviving chain older than the boundary, a legacy root excepted, or the limit error |
| MasterRegistry.Store.WriteBoundary | src/master_registry.rs:763-775 | the boundary moves to the given snapshot and nothing else changes |
| MasterRegistry.Store.RemoveOldest | src/master_registry.rs:858-873 | the oldest candidates go first; a failed rename leaves the rest contiguous |
| MasterRegistry.Store.Prune | src/master_registry.rs:788-874 | a pass, stopped after any number of renames, leaves exactly the stated directory, and its errors change nothing; `MasterRegistry.PassLaw` and `MasterRegistry.FirstPassLaw` put it in numbers |
| MasterRegistry.PassKeeps | src/master_registry.rs:788-874 | a pass keeps the invariant, the chain and the target window |
| MasterRegistry.WindowReached | src/master_registry.rs:788-874 | below the candidate limit, enough passes leave exactly the target window and a legacy root |
| MasterRegistry.WindowLaw | src/master_registry.rs:822-873 | from no boundary, enough passes leave exactly the newest keep snapshots and a legacy root |
| MasterRegistry.PassLaw | src/master_registry.rs:808-873 | no pass touches the newest keep snapshots, brings one back, or moves a boundary that is newer |
| MasterRegistry.FirstPassLaw | src/master_registry.rs:822-873 | a first pass records the oldest of the newest keep as the boundary and removes the oldest others, as many as the budget allows |
| MasterRegistry.StaysFew | src/master_registry.rs:829-832 | a pass below the candidate limit is followed by passes below it |
| MasterRegistry.CrashSafety | src/master_registry.rs:788-874 | at any durable state of any run: CURRENT through the boundary is installed, survivors are a newest-first run, the boundary never moves back, and only older snapshots went |
| MasterHistory.ChainStep | src/master_registry.rs:597-610 | a step yields the snapshot's own record, or not found only behind the boundary, and no record exactly for a legacy root |
| MasterHistory.MissingIsBehind | src/master_registry.rs:597-633 | a chain snapshot that is gone lies behind the boundary from then on |
| MasterHistory.Crossed | src/master_registry.rs:615-633 | a snapshot lost under the walk ends the page at the boundary crossed, or is not found for a cursor behind it |
| MasterHistory.HistoryWalk | src/master_registry.rs:507-593 | a walk interleaved read by read with any writers returns a gap-free run ending at the limit, the chain end or a boundary in force, marked legacy exactly at a legacy root; it finds nothing only for an empty chain, a cursor outside head to boundary, or a boundary that has passed its head, and gives up only beyond ten thousand snapshots |
| MasterPaging.PageDetermined | src/master_registry.rs:507-593 | with a fixed boundary a page is exactly the next entries below its cursor |
| MasterPaging.NextPage | src/master_registry.rs:464-493 | one page read later, after more was published, continues the same chain |
| MasterPaging.FollowPages | src/master_registry.rs:464-593 | pages concatenate to the chain from the first head to the boundary: no gap, no repeat |
| MasterPaging.OnePassHistory | src/master_registry.rs:477-493 | the one-pass history holds the same names |
| AssetOutbox.TransitionValid | src/asset_outbox.rs:305-390 | every transition keeps states valid and leaves completed ones alone |
| AssetOutbox.TransitionTable | src/asset_outbox.rs:305-390 | every transition, state by state: first attempts stay, only marked entries reopen, whom operators readmit, what completes, and that a failure keeps the job |
| AssetOutbox.WrongArguments | src/asset_outbox.rs:322-376 | malformed jobs, digests and codes are refused |
| AssetOutbox.JobKept | src/asset_outbox.rs:305-390 | over any run of actions an entry with a job keeps it, is never submitted again, and stays completed |
| AssetOutbox.ChangeKeeps | src/asset_outbox.rs:391-400 | a transition keeps what open checks, known identities and completed records |
| AssetOutbox.ObserveKeeps | src/asset_outbox.rs:282-303 | a first observation keeps them too |
| AssetOutbox.ArchiveKeeps | src/asset_outbox.rs:192-248 | the archive copy agrees with the ledger |
| AssetOutbox.ForgetKeeps | src/asset_outbox.rs:192-248 | forgetting an archived entry loses nothing |
| AssetOutbox.Open | src/asset_outbox.rs:104-151 | any ledger is checked: storage error exactly when a check or the write fails, else it is written back |
| AssetOutbox.Outbox.StillOpens | src/asset_outbox.rs:127-142 | what opening checks holds after every operation |
| AssetOutbox.Outbox.Commit | src/asset_outbox.rs:401-411 | memory follows the file, and only when the write succeeded |
| AssetOutbox.Outbox.Change | src/asset_outbox.rs:305-400 | each transition, its refusals, and the storage error that changes nothing |
| AssetOutbox.Outbox.Observe | src/asset_outbox.rs:282-303 | known identities keep their state; new ones become pending once; full, invalid and storage errors, unreadable archive included, exactly when they are due |
| AssetOutbox.Outbox.NextBatch | src/asset_outbox.rs:251-280 | the batch is the rotation's next live entries, and the cursor is durable first |
| AssetOutbox.Select | src/asset_outbox.rs:255-273 | two passes over the map at the cursor select the earliest live entries |
| AssetOutbox.Outbox.ArchiveCompleted | src/asset_outbox.rs:192-248 | archive first, then drop the entry and a cursor on it; invalid exactly without that completed record; every failing read and write |
| AssetOutbox.NothingForgotten | src/asset_outbox.rs:156-248 | between any two durable states, identities stay known and completed records unchanged |
| AssetOutbox.PickFacts | src/asset_outbox.rs:251-280 | a batch has no duplicates, is as large as it can be, and leaves out only later keys |
| AssetOutbox.BatchRotates | src/asset_outbox.rs:255-278 | ascending above the cursor, then ascending up to it, nothing live left out of a short batch, and the cursor moves to the last key |
| AssetOutbox.AheadShrinks | src/asset_outbox.rs:251-280 | an entry left out has at least a batch fewer ahead of it next time |
| AssetOutbox.Fair | src/asset_outbox.rs:251-280 | every entry that stays live is selected within ceil(n/limit) calls |
| AssetDispatch.JudgeFacts | src/asset_dispatch.rs:305-380 | an entry is reopened only for a definite answer to a submission, below the limit |
| AssetDispatch.SubmissionTable | src/asset_dispatch.rs:305-380 | every answer to a submission: reopened for the first nine refusals, and each failure code |
| AssetDispatch.PollTable | src/asset_dispatch.rs:305-380 | every answer to a poll |
| AssetDispatch.SubmissionLeaves | src/asset_dispatch.rs:289-368 | what a submission leaves on disk, in the counters and in the log, answer by answer |
| AssetDispatch.IdleTable | src/asset_dispatch_admin.rs:297-320 | what observations, adoptions and archiving leave |
| AssetDispatch.Worker.Apply | src/asset_outbox.rs:391-411 | a transition is durable before memory moves; an outbox error ends the process |
| AssetDispatch.Worker.Conclude | src/asset_dispatch.rs:305-402 | carrying out a verdict is one step of the machine |
| AssetDispatch.Worker.Submit | src/asset_dispatch.rs:287-294 | marking, one submission and its answer are the machine's steps, or a prefix of them and a crash |
| AssetDispatch.Worker.Hear | src/asset_dispatch.rs:305-380 | the answer to a submission is acted on as the machine does |
| AssetDispatch.Worker.Handle | src/asset_dispatch.rs:279-381 | one queued entry: removed target, submission, ambiguous submission or poll |
| AssetDispatch.Worker.Reconcile | src/asset_dispatch.rs:254-383 | a pass handles each selected entry once, in order, or stops as a crash would |
| AssetDispatch.SelectedQueue | src/asset_dispatch.rs:277-279 | a batch has no key twice and holds the ledger's own entries |
| AssetDispatch.PostKeeps | src/asset_dispatch.rs:289-294 | a submission is always the first, or follows a durable refusal |
| AssetDispatch.AnswerKeeps | src/asset_dispatch.rs:305-380 | every answer keeps the dispatch invariant |
| AssetDispatch.WriteRefusalKeeps | src/asset_dispatch.rs:342-349 | so does the durable refusal |
| AssetDispatch.IdleKeeps | src/asset_dispatch_admin.rs:264-322 | so do observations, adoptions and archiving between passes |
| AssetDispatch.StepKeeps | src/asset_dispatch.rs:273-402 | every step of the machine does, crashes and restarts included |
| AssetDispatch.MarkedBeforeSending | src/asset_dispatch.rs:289-294 | in every run the entry is durably marked before it is sent |
| AssetDispatch.AtMostOnce | src/asset_dispatch.rs:273-383 | in every run two submissions of a key are separated by a definite refusal and then its durable record, and one process submits a key at most ten times |
| AssetCompletion.JudgedFinish | src/asset_dispatch.rs:306-332 | an entry is judged complete only as an answer says that is for its own job, done, and equal in every compared and required point |
| AssetCompletion.VerifiedFinishes | src/asset_dispatch.rs:319-331 | a done answer that meets them all completes the entry, and one that does not fails it |
| AssetCompletion.PollCompletes | src/asset_dispatch.rs:319-328 | a poll that verifies a submitted entry completes it durably in that step |
| AssetCompletion.StepVouched | src/asset_dispatch.rs:273-402 | every step keeps each completed record vouched for by an answer received |
| AssetCompletion.OnlyVerifiedCompletes | src/asset_dispatch.rs:515-529 | in every run, each completed record in ledger or archive stems from a received answer with the identity's region, environment, platform, version and hash, a verified catalog and all that the identity requires |
| PathHealth.Path.Record | src/path_health.rs:89-137 | the fields after an attempt, the streak it attributed and the transition it caused |
| PathHealth.Path.Fault | src/path_health.rs:101-134 | the fault branch on the fields |
| PathHealth.Path.Admit | src/path_health.rs:140-149 | refused exactly while open and not yet due or already probed; a probe holds the only probe ticket |
| PathHealth.Path.Drop | src/path_health.rs:64-70 | dropping the probe's ticket ends the probe |
| PathHealth.Path.Charge | src/path_health.rs:151-160 | the path pays exactly for a shared streak, else the account, under the streak's number |
| PathHealth.Path.Attributed | src/path_health.rs:162-164 | answers for the last shared streak |
| PathHealth.SharedSnoc | src/path_health.rs:108-124 | a streak becomes shared exactly by an anonymous fault, a second account or an SDK path |
| PathHealth.TrailingRunDecides | src/path_health.rs:89-137 | after any attempts the breaker is a function of the trailing faults |
| AccountCharges.AccountHealth.Fail | src/accounts.rs:81-94 | a transient failure, with or without a streak |
| AccountCharges.AccountHealth.Report | src/accounts.rs:703-720 | each call result and error code has its effect on the account: success, denial, path-class fault paid as charged, transient failure or nothing |
| AccountCharges.ReportTable | src/accounts.rs:708-720 | result by result, with statuses 7, 16, 14, 8 and 13: failures, charge, cooldown and disabling |
| AccountCharges.ReportIgnores | src/accounts.rs:703-707 | maintenance and version codes leave the account alone |
| AccountCharges.AccountHealth.PathFault | src/accounts.rs:96-100 | a path-class fault counts against the account exactly when it is charged to it |
| AccountCharges.AccountHealth.CoolDown | src/accounts.rs:340-343 | a signal cooldown is the later of the old and the new one |
| AccountCharges.AccountHealth.Revoke | src/accounts.rs:347-357 | withdrawal of one streak's failures |
| AccountCharges.RevokeTable | src/accounts.rs:347-357 | exactly the tracked failures of the streak go, and the cooldown with them below the threshold |
| AccountCharges.ThresholdKept | src/accounts.rs:69-101 | reports and withdrawals keep the threshold cooldown equivalent to reaching the threshold |
| AccountCharges.Lands | src/accounts.rs:690-721 | a landed report keeps failures balanced against charges, stranded ones included |
| AccountCharges.Withdraws | src/client.rs:738-747 | settling the latest attributed streak withdraws exactly what is left of it |
| AccountCharges.PassesOver | src/path_health.rs:162-164 | settling an older shared streak withdraws nothing, and strands exactly what is left of it |
| AccountCharges.Sweeps | src/client.rs:667-672 | attribution withdraws exactly the streak's tracked charges and strands the others |
| ChargeSettlement.StepKeeps | src/client.rs:659-747 | in every interleaving, attempts, charges, landings and settlements keep every account balanced |
| ChargeSettlement.ReportGoesThrough | src/client.rs:720-747 | an undisturbed report has its effect, less the streak last attributed, and is gone |
| ChargeSettlement.ChargesExact | src/client.rs:659-747 | in every run, once all reports settle, failures are the charges in no shared streak plus the stranded ones; the two agree exactly when nothing was stranded; the cooldown is set exactly at the threshold |
| ChargeSettlement.ChargesSettle | src/client.rs:720-747 | if no streak begins between a report's charge and its settlement, settled failures are exactly the charges since the last success in no shared streak |
| ChargeSettlement.LateReport | src/path_health.rs:162-164 | a report that lands after a later streak was attributed strands one charge |
| JsonIndent.ScanLiteral | src/master_git.rs:139-149 | finds the end of a string literal, escapes included, or none |
| JsonIndent.LiteralReads | src/master_git.rs:139-149 | a literal is read to the first quote that is not escaped |
| JsonIndent.LiteralIs | src/master_git.rs:139-149 | and whatever is read as one is characters and a quote |
| JsonIndent.Open | src/master_git.rs:152-167 | an opening bracket, with the look ahead for an empty pair |
| JsonIndent.Reindent | src/master_git.rs:127-194 | the loop computes the indented form of the tokens, or none |
| JsonIndent.LineIs | src/master_git.rs:128-131 | a new line is a line feed and two spaces for each level |
| JsonIndent.LayoutTable | src/master_git.rs:152-186 | which tokens begin or end a line, at which level, and which are copied |
| JsonIndent.OnlyWhitespaceChanges | src/master_git.rs:124-194 | output and input are equal once whitespace outside literals is deleted |
| JsonIndent.StripDecidesOutput | src/master_git.rs:127-194 | the result depends only on the stripped form |
| JsonIndent.Idempotent | src/master_git.rs:127-194 | re-indenting the output gives it back |
| JsonIndent.EqualOutputs | src/master_git.rs:127-194 | two accepted inputs have equal outputs exactly when their stripped forms are equal |
| JsonIndent.AcceptedExactly | src/master_git.rs:168-191 | accepted exactly when literals end, something is left and brackets of any kind balance |
| JsonIndent.KindsNotMatched | src/master_git.rs:152-173 | a list closed as an object is accepted |
| GitPublication.AncestorTransitive | src/master_git.rs:1006-1018 | ancestry composes |
| GitPublication.BuiltKeeps | src/master_git.rs:707-750 | building reuses the parent or makes a child of it |
| GitPublication.MoveKeeps | src/master_git.rs:812-831 | the compare-and-swap moves the local branch forward |
| GitPublication.PushedKeeps | src/master_git.rs:1053-1071 | a push is a fast-forward of the remote |
| GitPublication.StepKeeps | src/master_git.rs:651-764 | every command of publish and adopt, crashes and other writers keep the protocol invariant |
| GitPublication.OnlyForward | src/master_git.rs:1109-1161 | in every run local values descend from earlier ones, pushes are fast-forwards, and no commit repeats its parent's tree |
| GitPublication.ReceiptsHold | src/master_git.rs:1053-1078 | receipts are for the tree asked for; a verified one saw the remote at that commit |
| GitPublication.Republishing | src/master_git.rs:707-729 | over any publications of the tree the branch has, with crashes and other writers, no commit is made and the branch does not move |
| GitPublication.Progress | src/master_git.rs:651-764 | undisturbed, publishing to a remote that is absent or behind ends with a verified receipt at both branches, and makes a commit exactly for a new tree |
| GitPublication.ChecksPass | src/master_git.rs:992-1020 | the remote check lets exactly such a publication through |
| GitPublication.AdoptionProgress | src/master_git.rs:1139-1153 | undisturbed, a recognized remote that is ahead becomes the local branch |
| GitPublication.AdoptionRefused | src/master_git.rs:1142-1152 | a remote behind, diverged or not recognized changes nothing |
| SchemaCompatibility.CheckEnum | src/protocol.rs:348-363 | the loop over old values decides whether every lookup by name or number, and the default, stays the same |
| SchemaCompatibility.ValuesDecide | src/protocol.rs:354-362 | checking each old value is the same as preserving every lookup |
| SchemaCompatibility.CheckField | src/protocol.rs:326-366 | a field is kept exactly when all its attributes and its kind are |
| SchemaCompatibility.CheckMessage | src/protocol.rs:313-367 | a message passes exactly when fields are kept and no required one is added |
| SchemaCompatibility.Walk | src/protocol.rs:309-368 | the worklist succeeds exactly when every reachable message passes |
| SchemaCompatibility.Check | src/protocol.rs:288-370 | success exactly when contract routes and every message reachable from them are compatible |
| SchemaCompatibility.ContractsAre | src/routes.rs:11-53 | one contract has everything but the login routes, the other everything but Whoami |
| SchemaCompatibility.MessageTransitive | src/protocol.rs:313-367 | the message check composes |
| SchemaCompatibility.TransitiveOver | src/protocol.rs:288-370 | over the same routes, compatibility composes |
| SchemaCompatibility.ComposesExactly | src/protocol.rs:288-296 | two compatible steps compose exactly when the first bundles agree on GetServerList or Whoami is still served |
| SchemaLoading.CheckContract | src/protocol.rs:154-285 | a bundle loads exactly when every route of its family's contract is there, unary, marked for authentication and shaped as the proxy needs |
| SchemaLoading.GlobalHasServerList | src/protocol.rs:158-165 | a loaded Global bundle has GetServerList |
| SchemaLoading.Reload | src/client.rs:435-476 | a candidate becomes active exactly when it loads, is of the right family, differs and is compatible |
| SchemaLoading.ReloadsExactly | src/client.rs:435-476 | after any run of reloads the active bundle is compatible with the first exactly when the first has GetServerList or Whoami is still served as it was |
| SchemaLoading.GlobalStaysCompatible | src/client.rs:435-476 | for the Global family it always is |
| SchemaLoading.AgreeingStayCompatible | src/client.rs:435-476 | so it is among bundles that agree on GetServerList |
| SchemaLoading.WhoamiLost | src/protocol.rs:288-296 | two allowed reloads of loaded bundles whose result is not compatible with the first |
| SingleFlight.ArriveKeeps | src/single_flight.rs:67-83 | joining or registering keeps the sharing invariant |
| SingleFlight.ChangedKeeps | src/single_flight.rs:84-99 | so do running, publishing, reading, releasing and cancelling |
| SingleFlight.OneFetch | src/single_flight.rs:84-99 | in every interleaving at most one fetch runs per cell |
| SingleFlight.EntriesAreRegistrations | src/single_flight.rs:17-45 | map entries and unreleased registrations correspond one to one |
| SingleFlight.PublishedStays | src/single_flight.rs:84-99 | a published outcome is never replaced |
| SingleFlight.SameOutcome | src/single_flight.rs:52-55 | callers of a cell that finish get the same outcome |
| SingleFlight.OnlyEarlierCallers | src/single_flight.rs:89-91 | an outcome published after the release reaches only callers that joined before it |
| SingleFlight.EarlyExactly | src/single_flight.rs:84-98 | it is published before the release exactly by a joiner that overtook the registering caller |
| SingleFlight.LateCaller | src/single_flight.rs:69-70 | and then a later caller does receive it |
| SingleFlight.Overtaken | src/single_flight.rs:84-98 | the order in which that happens |
| SingleFlight.ArrivalLaw | src/single_flight.rs:67-83 | a caller joins a key in flight, or registers a cell of its own |
| SingleFlight.Completes | src/single_flight.rs:84-99 | a waiting caller of a free cell runs, publishes and gets its own outcome, and has left the map |
| SingleFlight.WaitersReceive | src/single_flight.rs:96-98 | whoever waits on a published cell receives its outcome |
| SingleFlight.CancellationFrees | src/single_flight.rs:53-55 | a cancelled run leaves the map and frees its cell for a waiter |
| PeerExecution.RefusalNotSent | src/client.rs:1080-1293 | with the errors each step can give, a typed refusal is decided before the route's RPC is sent |
| PeerExecution.NoBareUpstream | src/client.rs:1290-1293 | a peer never sees an open path but as the typed refusal |
| PeerExecution.SentExactly | src/client.rs:1080-1293 | the route's RPC is sent exactly when no step before it stops the call, and its answer is then the call's |
| PeerExecution.RefusedExactly | src/client.rs:1097-1122 | which refusal a call gets, and exactly when |
| PeerExecution.FailureRoundTrip | src/peer.rs:137-158 | errors survive their wire form, up to class, and exactly the refusals are safe |
| PeerExecution.SafeReplyNotSent | src/peer.rs:180-230 | an HTTP error or a safe typed failure proves the RPC was not sent |
| PeerExecution.ProofHolds | src/peer_transport.rs:55-70 | what the router takes as proof of non-execution is one |
| PeerExecution.NotExecutedExactly | src/node_routing.rs:390-441 | which errors and replies count as not executed, statuses included |
| NodeRouting.Target.Admit | src/node_routing.rs:149-161 | refused exactly while cooling or probed; one probe at a time |
| NodeRouting.Target.Finish | src/node_routing.rs:164-189 | cooling exactly when the trailing failures reach the threshold, and the transition |
| NodeRouting.Target.Drop | src/node_routing.rs:248-256 | dropping the probe's permit ends the probe |
| NodeRouting.AtMostOneSender | src/node_routing.rs:469-486 | targets that passed an authenticated call on did not send it |
| NodeRouting.CallInner | src/node_routing.rs:363-496 | the targets that admit the call are tried in order until one does not pass it on, none is left or the deadline passes; the answer is the first such target's; an authenticated call is sent by at most one; each target tried counts the outcome |
| NodeRouting.FirstAnswerDecides | src/node_routing.rs:382-487 | the call ends with the first target that admits it and does not pass it on |
| NodeRouting.AllFailOver | src/node_routing.rs:382-495 | otherwise every target that admits it was tried |
| NodeRouting.FailsOverExactly | src/node_routing.rs:450-472 | which errors pass a call on |
| NodeRouting.AnonymousMayRepeat | src/node_routing.rs:472-486 | an anonymous call may be sent by several |
| LoginLimiter.PopOld | src/global_account.rs:223-229 | the loop drops what is a day old from the front |
| LoginLimiter.LoginState.Prune | src/global_account.rs:222-237 | the deque holds exactly the attempts of the last day |
| LoginLimiter.LoginState.NextAllowed | src/global_account.rs:239-251 | none exactly when allowed now; else exactly the earliest allowed instant |
| LoginLimiter.LoginState.Attempt | src/client.rs:1549-1590 | an attempt at the instant it was checked for keeps the spacing of all attempts, later prunes in between included |
| LoginLimiter.DailyCap | src/global_account.rs:239-251 | any half-open day holds at most the daily maximum |
| LoginLimiter.AllowedLaw | src/global_account.rs:239-251 | allowed means fewer than the maximum in the day before and the interval since the last, in nanoseconds |
| LoginLimiter.AllowedKeepsSpacing | src/global_account.rs:239-251 | allowed attempts keep the interval and the cap |
| LoginLimiter.LongIntervalForgotten | src/global_account.rs:84-84 | beyond a day the interval would be forgotten |
| ResponseCache.Freshness | src/response_cache.rs:137-147 | returned until retention ends, stale exactly from expiry on |
| ResponseCache.EvictedFacts | src/response_cache.rs:394-401 | eviction takes the front, makes room, takes no more than needed, and keeps the counter the sum |
| ResponseCache.Memory.Evict | src/response_cache.rs:394-401 | the loop evicts as specified, counter included |
| ResponseCache.Memory.Put | src/response_cache.rs:356-404 | a value is stored exactly when its encoding is not too long, as `ResponseCache.PutStoresExactly` says; handles taken earlier stay known |
| ResponseCache.Memory.Take | src/response_cache.rs:269-269 | a handle is that of the value last stored under the key |
| ResponseCache.Memory.Expire | src/response_cache.rs:271-282 | drops exactly the handle that was read, never a newer value, and its bytes |
| ResponseCache.Memory.GetWithState | src/response_cache.rs:265-284 | nothing, or the value last stored, marked stale exactly between expiry and retention end |
| ResponseCache.WithoutCounted | src/response_cache.rs:391-393 | removing an entry never takes the counter below zero |
| ResponseCache.StoredOk | src/response_cache.rs:356-404 | a store keeps counter, limits and known handles; `ResponseCache.PutStoresExactly` says what it stores |
| ResponseCache.PutStoresExactly | src/response_cache.rs:370-404 | a put stores exactly when its encoding fits: the value with its life and retention, replacing nothing but the key's and evicted earlier keys, and none with room to spare |
| ResponseCache.FinishKeeps | src/response_cache.rs:269-283 | a finished lookup takes out only its own expired handle |
| ResponseCache.ExpiredOk | src/response_cache.rs:271-282 | finishing a lookup does too, and removes only the handle it took |
| ResponseCache.AlwaysWithin | src/response_cache.rs:356-404 | in every run of stores and interleaved lookups the counter is the sum of stored lengths and both limits hold |
| ResponseCache.LookupAnswers | src/response_cache.rs:265-284 | a lookup begun at one step and finished at a later one answers exactly by the value last stored under its key when it began, stale from that value's expiry to the end of its retention |
| ResponseCache.LookupReturnsPut | src/response_cache.rs:265-404 | in every run a lookup returns the value of the last fitting put, stale exactly from the end of its life and gone with its stale window |

## Left out

- HTTP, gRPC, TLS, proxy and SDK clients, routing tables, logging: plumbing around what is modelled.
- Real file systems: every durable change is one atomic step, synchronisation is assumed to work, and locks are exclusive ownership.
- Snapshot manifests, tables, provenance, regions and file formats: the chain model keeps names and links only.
- The lookup by content hash (`by_hash_walk`) and its boundary handling: the same walk with another test.
- MasterRegistry.Store.Publish: the fresh random name is assumed to be unused.
- LoginLimiter.LoginState.NextAllowed: a check at an instant before the last prune, which a status read between taking the time and checking could cause, is not covered.
- MasterPaging.FollowPages: retention passes between pages are excluded, since they may remove the cursor.
- AssetOutbox.Outbox.Commit: the file replacement is not followed by a directory synchronisation in the source; the model takes the replacement as durable.
- Dispatch keys are numbers with the order of the digests' fixed-width hexadecimal form; the digest is a function the outbox is given.
- AssetOutbox.Fair: entries that become live again by adoption are excluded, as are archived ones.
- Dispatch status publication and the listing and detail commands of operators: they only read.
- Account selection and rotation, pool reloads, Global session invalidation and SDK session files: the effects of their signals on health are included, their own state is not.
- ResponseCache.LookupReturnsPut: instants up to the end of a retention stay below 2^64 milliseconds, where the source's additions would saturate.
- ChargeSettlement.ChargesExact: fewer than 2^32 charges since the last success, the width of the counters; so for `ChargeSettlement.ChargesSettle`.
- A new Git commit always has a new id, and fetching makes the remote's commits known at once; recognition of an adopted tree is a yes-or-no answer.
- Descriptor pools are well formed by construction of the library that loads them; method options are the authentication mark and the remaining bytes; the digest of a bundle is a string it carries.
- PeerExecution.ProofHolds: no intermediary makes up a status that the executor answers only before dispatch.
- Background refreshes of stale cache entries are calls of their own.
- PostgreSQL and Redis backends, configuration validation (its bounds are preconditions), background loops, the build and the command line.
