# Reference chain, evidence locks and source checks: a verified model

This project models two parts of the CUDA-MCGS repository and proves what they guarantee.

**The reference chain.** Four tools share one store of JSON fixtures and manifests. `initialize-reference-chain`
creates the fixtures of a new version as copies of the historical ones and records the digest of the previous
manifest. `reference-evidence-locks` compares the identities scattered over all fixtures with their producers and, one
source at a time, rewrites them. `pin-reference-chain-selection` records the digests of a clean selection.
`verify-reference-chain-selection` walks the digest chain backwards and checks the selected fixtures. The model follows
them as one state machine: `Repository` is the store, `EvidenceLocks` and `ReferenceChain` say what each tool does to
it, `LockRun` and `Workspace` are the same tools as imperative code over mutable state, proved equal to those
functions, and `Lifecycle` and `Histories` speak about every sequence of tool runs, interruptions, producer runs,
selector edits and version changes.

What each tool compares, writes and reports is also said a second time, by lookup in the files it reads and without its
functions: `Agreement` for the semantic guard, `Provenance`, `Writing` and `Reporting` for the lock tool,
`Verification` for the verifier, `Selecting` for the pin and the initialisation. The two are proved equivalent.

**The text and path checks.** `source-boundary-policy` extracts import specifiers with three regular expressions,
resolves relative ones inside the repository and judges each file; `check-source-boundary` walks the tree and chooses
which texts to read; `check-doc-links` finds relative Markdown links that leave the repository or lead nowhere. `Regex`
gives regular expressions their backtracking meaning; `ImportScan` and `LinkScan` are deterministic scanners proved to
find the same matches; `PosixPath` relates path strings to their segments, and `PolicyRules` and `LinkTheorems` state
the verdicts in segments, for every rule of the policy and from the raw text of every link.

A JSON object is a list of distinct keys with values in JavaScript's property order (array indices first), and deep
equality is equality up to order (`MeaningOf`). Safe integers are numbers; every other number is the name of its value.
The library calls are the fields of `Platform`: digest, parsing, printing, canonical identity, and what a number reads
back as once it is printed are uninterpreted functions. `Faithful` is all that is assumed of the JSON library: a printed
value is read back as `Stored`, in which minus zero has become zero and a number without a JSON form null; what is read
is well formed; line endings between tokens do not matter. Nothing is assumed of the digest: the theorems that need it
name, as their alternative, two texts of the stores at hand that differ and have one digest (`Clash`).
`Assumptions.CodedIsFaithful` shows the assumptions met, and `Witness` plays concrete histories on that platform.

## What turned out to be conditional

- Pinning each link before the next one is initialised does not make the next link acceptable. It is accepted exactly
  when the predecessor is *sealed*: pinned, and no pinned byte changed since (`FreshLinkAccepted`). A lock write after
  the pin breaks the seal, and then the next link is rejected for ever (`WriteAfterPinDooms`); `PinningIsNotEnough` is
  one concrete history in which that happens.
- The lock writer compares meanings in memory and prints afterwards. What a run rewrites is known before it starts: the
  fixtures that are stale for its source, up to the first one that stops it. A fixture keeps its meaning on disk exactly
  when it is none of them or every number its semantic projection keeps prints as itself (`RunKeepsSemantics`; for a
  successful write, when it is not stale or durable, `CleanWriteKeepsSemantics`). A fixture holding `-0` or `1e400`
  fails that without any guard noticing: in the history of `NegativeZeroSlipsThrough` the write and the full check
  succeed, and then both the pin and the next write refuse the fixture. So two sources can be written one after the
  other exactly when no such fixture is stale for both (`StepOkComposes`, `WriteAllSettles`), and a history stays sound
  exactly when it never rewrites such a fixture and links are made over sealed predecessors (`HistoryIsSound`,
  `DurableHistoryIsSound`).
- An interrupted lock write can simply be run again (`RerunCompletes`); an interrupted initialisation cannot. A version
  with a chain and no manifest stays so for ever (`UnfinishedStays`), and no tool ever succeeds on it or, unless later
  manifests already exist, on a later version (`OrphansAreForever`).
- A manifest keeps its link through every history, except that a pin turns a link that is a number without a JSON form
  into null, which is no link (`PinMeans`, `HistoryKeepsLink`).
- Normalised texts of the same lines agree across checkouts exactly when no lone CR is followed by an empty line ended
  by LF (`NormalizeUndoesCheckout`, with the input in `MixedBreaksDiffer`), and chunks normalise separately exactly
  when the cut is not inside a CRLF (`NormalizeConcat`).
- The text filter of the tree check changes no verdict exactly when the policy does not consult the file or its name
  does not end in a backslash (`FilterIsLossless`, with the input in `BackslashScriptIsMissed`).
- A run couples schedules to their composer evidence exactly when they were coupled or the composer field drifts
  (`RewriteCouples`). Nothing else notices: whatever key the schedules of a fixture carry, the full check, the pin and
  the verifier say the same (`CheckIgnoresSchedules`, `PinIgnoresSchedules`, `VerifierIgnoresSchedules`).
- A lock write keeps the meaning of the lock file exactly when every replaced entry held nothing beside its identity
  (`LocksKeepMeaning`; with what printing does to numbers, `LockWriteKeepsMeaning`); no guard looks at the rest.
- The semantic guard of the lock writer never fires because of the rewriting: it rejects a fixture exactly when the
  fixture already disagreed with its historical fixture (`GuardJudgesTheInput`).

## Model

| member | source | states |
|---|---|---|
| LineEndings.NormalizeFixedPoints | tools/pin-reference-chain-selection.mjs:18 | the result has no CR, CR-free texts are exactly the fixed points, and normalising twice is normalising once |
| LineEndings.NormalizeConcat | tools/initialize-reference-chain.mjs:16 | normalisation distributes over a concatenation if and only if the cut is not inside a CRLF |
| LineEndings.NormalizeUndoesCheckout | tools/verify-reference-chain-selection.mjs:17 | lines written with any LF, CRLF or CR breaks, the last one with or without a break, normalise to the LF text if and only if no CR meets an empty LF line |
| LineEndings.MixedBreaksDiffer | tools/verify-reference-chain-selection.mjs:22 | the input on which two checkouts of the same two lines normalise to different texts |
| Listing.Sort | tools/reference-evidence-locks.mjs:156 | the loop returns the one ascending listing of the names, in whatever order they were read |
| Listing.AscendingIsUnique | tools/reference-evidence-locks.mjs:187-188 | two ascending listings of the same names are equal, so the tools do not depend on directory order |
| FieldTheorems.WithIdentityReadsBack | tools/reference-evidence-locks.mjs:64-83 | the identity written is the identity read back; keys, schema and everything but the identity stay |
| FieldTheorems.RewriteFieldSettles | tools/reference-evidence-locks.mjs:134-176 | rewriting a field keeps its owner, removes its own drift and leaves the drift of other sources alone |
| FieldTheorems.RewriteComposes | tools/reference-evidence-locks.mjs:162-176 | rewriting a fixture for one source and then another is rewriting it once for both |
| FieldTheorems.DriftComposes | tools/reference-evidence-locks.mjs:166-174 | something drifts for two sources together exactly when it drifts for the first or still drifts for the second afterwards |
| FieldTheorems.RewriteSoundComposes | tools/reference-evidence-locks.mjs:163-173 | whether a rewrite throws does not depend on an earlier rewrite |
| FixtureTheorems.RewriteKeepsProjection | experiments/search-semantics-reference/src/reference-selection.mjs:25-38 | a rewritten fixture has the same semantic projection as before, property for property |
| FixtureTheorems.UntouchedField | tools/reference-evidence-locks.mjs:95-98 | schema, identities and the descriptor table of a fixture are never rewritten |
| FixtureTheorems.RewriteCouples | tools/reference-evidence-locks.mjs:171-175 | schedules name their composer evidence after a run if and only if they did before or the composer field drifted |
| StepTheorems.GuardJudgesTheInput | tools/reference-evidence-locks.mjs:177-181 | a fixture is written exactly when it can be rewritten and, if anything drifts, agreed with its historical fixture before the run |
| Agreement.AgreeIsMeaning | tools/reference-evidence-locks.mjs:179 | two JSON values have one meaning exactly if they agree property for property, whatever the order of properties |
| Agreement.SemanticsAreAgreement | experiments/search-semantics-reference/src/reference-selection.mjs:25-38 | the semantic guard accepts two texts exactly if both are comparable fixtures that agree on every property but the identity triples of ancestry fields, those of lock entries, and the evidence keys of schedules |
| Meanings.PrintedMeaning | tools/reference-evidence-locks.mjs:178-180 | a fixture printed and read back means what it meant in memory if and only if every number its projection keeps prints as itself |
| StepTheorems.SettledComposes | tools/reference-evidence-locks.mjs:158-182 | settling a file for two sources in a row gives the bytes of settling it once for both |
| StepTheorems.StepOkComposes | tools/reference-evidence-locks.mjs:158-182 | after a run for one source a file can be handled for another exactly when it could before, unless both have to write it and a number it keeps does not print as itself |
| StepTheorems.SettledIsSettled | tools/reference-evidence-locks.mjs:158-182 | a settled file has no drift left |
| LockFileTheorems.LocksSettledComposes | tools/reference-evidence-locks.mjs:184-203 | the lock file settles for two sources in a row exactly as for both at once |
| LockFileTheorems.NoLockChangesMeansNoDrift | tools/reference-evidence-locks.mjs:191-202 | a run over the sorted ids reports nothing exactly when no lock drifts |
| Provenance.CheckIsProvenance | tools/reference-evidence-locks.mjs:85-213 | a check is clean exactly if the history stands and every field and lock it concerns repeats the identity that its owner declares, under the owner's key of the owner's file with an absent or passing status |
| Writing.WriteIsProvenance | tools/reference-evidence-locks.mjs:85-207 | a write succeeds exactly if everything it needs can be read and every stale fixture agrees with its history, and then each field, schedule and lock has exactly the value it has to have, and all else is as it was |
| Reporting.ReportIsExact | tools/reference-evidence-locks.mjs:156-202 | a run that does not throw reports exactly the stale fields and locks it was asked about, each once with its owner, fixtures by name, fields as they stand, locks last by id |
| RunTheorems.PassIsPointwise | tools/reference-evidence-locks.mjs:156-182 | the loop over the fixtures ends, file by file, as if each had been the only one, and fails exactly when one of them does |
| RunTheorems.WriteSettles | tools/reference-evidence-locks.mjs:154-207 | a write succeeds exactly on a known source and manageable files, and then every file of the chain is settled |
| Confluence.RunKeepsPrelude | tools/reference-evidence-locks.mjs:92-98 | no run changes the descriptor table or the identities later runs compare with |
| Confluence.SettleComposes | tools/reference-evidence-locks.mjs:134-203 | after one write run the other is possible exactly when it was before and no file is reopened by a number that does not print as itself; then both end in the state of one run for both sources |
| Confluence.WriteAllSettles | tools/reference-evidence-locks.mjs:91-207 | a sequence of writes succeeds exactly when each source is writable at the start and the sources are compatible, and settles the set of sources |
| Confluence.WriteOrderIsIrrelevant | tools/reference-evidence-locks.mjs:134-203 | writing the same sources in any order and with any repetition reaches one store, or fails in every order |
| Maintenance.CheckIsExact | tools/reference-evidence-locks.mjs:154-213 | a check changes nothing and is clean exactly when every selected identity is up to date and the source is known |
| Maintenance.WriteIsIdle | tools/reference-evidence-locks.mjs:177-203 | a write on an up-to-date store writes no file and reports nothing |
| Maintenance.WriteEstablishesCheck | tools/reference-evidence-locks.mjs:134-207 | after a successful write of a source its check is clean and a second write changes nothing |
| Maintenance.WritingEverythingIsClean | tools/reference-evidence-locks.mjs:189-213 | once every occurring source has been written, the full check is clean |
| Maintenance.WriteMovesStaleBytes | tools/reference-evidence-locks.mjs:169-180 | a successful write changes the normalised text, hence the digested bytes, of every fixture that was stale for the source |
| Resumption.InterruptedFilesAreWhole | tools/reference-evidence-locks.mjs:158-182 | when a write stops between two files, each file is untouched or fully rewritten |
| Resumption.RerunCompletes | tools/reference-evidence-locks.mjs:158-207 | rerunning an interrupted write reaches the state and verdict of the uninterrupted run |
| Resumption.UnknownSourceWritesNothing | tools/reference-evidence-locks.mjs:155-207 | a run with an unknown source throws with the store unchanged, in both modes |
| Resumption.RunFrame | tools/reference-evidence-locks.mjs:177-203 | a run, finished or not, touches nothing but existing files of the selected chain |
| Preservation.RunKeepsSemantics | tools/reference-evidence-locks.mjs:177-181 | over any run, finished or aborted, exactly the stale fixtures up to the first that stops a write change, and a fixture outside the lock file keeps its meaning if and only if it is none of them or every number its projection keeps prints as itself |
| Preservation.CleanWriteKeepsSemantics | tools/reference-evidence-locks.mjs:158-182 | a successful write changes exactly the fixtures stale for its source, and such a fixture keeps its meaning if and only if every number its projection keeps prints as itself |
| Preservation.NegativeZeroIsLost | tools/reference-evidence-locks.mjs:179-180 | a stale fixture that holds a minus zero and that the writer handles means something else after the write |
| Witness.NegativeZeroSlipsThrough | tools/reference-evidence-locks.mjs:177-181 | a concrete repository with a minus zero and its history: the write and the full check succeed, the fixture means something else, and the pin and the next write fail |
| Preservation.RunKeepsCoupling | tools/reference-evidence-locks.mjs:167-176 | schedules that are coupled everywhere stay so through any run |
| Preservation.CheckMissesStaleSchedule | tools/reference-evidence-locks.mjs:162-170 | a field list that the check finds sound and free of drift although a schedule is stale |
| ScheduleTheorems.CheckIgnoresSchedules | tools/reference-evidence-locks.mjs:158-213 | whatever key the schedules of a fixture carry, the full check of the store gives the same verdict |
| ScheduleTheorems.PinIgnoresSchedules | tools/pin-reference-chain-selection.mjs:12-28 | whatever key the schedules of a fixture carry, the pin succeeds or fails alike |
| ScheduleTheorems.VerifierIgnoresSchedules | tools/verify-reference-chain-selection.mjs:35-45 | whatever key the schedules of a fixture carry, the verifier's check of each fixture says the same |
| ScheduleTheorems.RestampedIsStale | tools/reference-evidence-locks.mjs:171-175 | schedules stamped with another key than the composer's are not coupled |
| ScheduleTheorems.HistoryKeepsCoupling | tools/reference-evidence-locks.mjs:167-176 | where all schedules name their composer evidence, they still do after any history, interruptions included |
| Preservation.LocksKeepMeaning | tools/reference-evidence-locks.mjs:191-203 | replacing locks keeps the lock file's projection if and only if every replaced entry was bare |
| Preservation.LockWriteKeepsMeaning | tools/reference-evidence-locks.mjs:191-203 | a written lock file keeps its meaning on disk if and only if nothing drifts, or every replaced entry was bare and every number kept prints as itself |
| LockRun.LockRun.constructor | tools/reference-evidence-locks.mjs:91-132 | a run starts with empty caches, no changes and no sources seen |
| LockRun.LockRun.Load | tools/reference-evidence-locks.mjs:100-132 | the cached identity is always the one the producer gives now, and a failed producer is never cached |
| LockRun.LockRun.HandleField | tools/reference-evidence-locks.mjs:162-176 | one step of the field loop on the fixture in place: exception, assignment of field and schedules, change and source recorded |
| LockRun.LockRun.HandleFixture | tools/reference-evidence-locks.mjs:158-182 | the field loop refines `FixtureStep`: same text, same exceptions, same changes, all owners seen |
| LockRun.LockRun.HandleIds | tools/reference-evidence-locks.mjs:188-202 | the loop over the descriptor ids rewrites exactly the drifting locks and sees every id |
| LockRun.LockRun.HandleLocks | tools/reference-evidence-locks.mjs:184-203 | the lock file part refines `LocksStep` |
| Workspace.Workspace.MaintainFixtures | tools/reference-evidence-locks.mjs:156-182 | writing each file as soon as it is handled refines the pass, and the sources seen are exactly those that occur |
| Workspace.Workspace.MaintainLocks | tools/reference-evidence-locks.mjs:91-215 | the tool on mutable state ends in the state, verdict and changes of `Run`, exceptions included |
| Workspace.Workspace.CopyFixtures | tools/initialize-reference-chain.mjs:14-19 | the copying loop leaves the normalised copies and the digests in name order |
| Workspace.Workspace.InitializeChain | tools/initialize-reference-chain.mjs:9-31 | the tool on mutable state refines `Initialize`, including the copies left behind without a predecessor manifest |
| Workspace.Workspace.DigestSelection | tools/pin-reference-chain-selection.mjs:19-25 | the digest loop succeeds exactly when every pinned fixture kept its meaning, and then returns all digests |
| Workspace.Workspace.PinSelection | tools/pin-reference-chain-selection.mjs:12-28 | the tool on mutable state refines `Pin`; the lock check it runs leaves the store alone |
| Workspace.Workspace.WalkChain | tools/verify-reference-chain-selection.mjs:11-26 | the while loop ends on every store and accepts exactly when `WalkAccepts` does |
| Workspace.Workspace.VerifySelection | tools/verify-reference-chain-selection.mjs:10-46 | the whole verifier accepts exactly when `Verifies` does |
| ReferenceChain.RetainedRankDrops | tools/verify-reference-chain-selection.mjs:12-25 | each step of the walk goes to a strictly older registered version |
| Verification.StepMeans | tools/verify-reference-chain-selection.mjs:12-25 | the walk goes from a manifest to another exactly if the first links to it by registered version and by digest and the second pins the fixtures of its version as they are |
| Verification.WalkMeans | tools/verify-reference-chain-selection.mjs:11-26 | the walk accepts exactly if the manifest heads a chain of manifests, each retaining the next, the last without a link |
| Verification.PayloadMeans | experiments/search-semantics-reference/src/reference-selection.mjs:64-71 | a payload is accepted exactly if the projection without its identity, with the historical composer in the place of its own, has the canonical identity that the history refers to |
| Verification.PayloadIgnoresAncestry | experiments/search-semantics-reference/src/reference-selection.mjs:64-71 | another composer in the producer or another projection identity never changes the verdict on a payload |
| Verification.HistoricalPayloadIsCompared | experiments/search-semantics-reference/src/reference-selection.mjs:64-71 | where the historical composer stands in the projection already, the verdict is whether its canonical identity, its own identity aside, is the referenced one |
| Verification.VerifierMeans | tools/verify-reference-chain-selection.mjs:10-46 | the verifier accepts a repository exactly if the selected manifest heads such a chain, both pin tables stand and name the same files, selector and composer are the recorded ones, and every pinned fixture agrees with its history, names that composer and has a standing owner |
| Verification.VerifierIgnoresOwnerAncestry | tools/verify-reference-chain-selection.mjs:40-45 | replacing the composer or the identity in an owner projection never changes what the verifier says |
| Verification.HistoricalOwnerIsCompared | tools/verify-reference-chain-selection.mjs:40-45 | an owner projection that names the historical composer stands exactly by its own canonical identity |
| Verification.CleanLocksFixAncestry | tools/verify-reference-chain-selection.mjs:39 | after a clean lock check a composer field is the identity declared in the described composer file, and passes the ancestry check exactly if that file has the selected hash |
| Verification.SelectedComposerFixesAncestry | tools/verify-reference-chain-selection.mjs:32-39 | where the cases describe the composer of the build and the verifier accepts that one, no identity-shaped composer field fails the ancestry check after a clean lock check |
| Selecting.PinIsAllowed | tools/pin-reference-chain-selection.mjs:12-25 | a pin succeeds exactly if the history stands, the selection is current for every owner, and every pinned fixture still agrees with its history |
| Selecting.PinWrites | tools/pin-reference-chain-selection.mjs:19-28 | a pin writes the manifest with the two selected properties set, in place or at the end, every other property as it stood, and nothing else |
| Selecting.ChangedScheduleDisagrees | experiments/search-semantics-reference/src/reference-selection.mjs:36 | a schedule property other than the evidence key that differs makes two fixtures disagree |
| Selecting.DisagreementIsNoticed | tools/pin-reference-chain-selection.mjs:23 | a pinned fixture that disagrees with its history can be neither pinned nor verified |
| Selecting.InitializationWrites | tools/initialize-reference-chain.mjs:9-31 | an initialisation starts exactly for a registered version without a chain, copies the history, succeeds exactly if the version before has a manifest, and writes exactly the fresh manifest |
| ManifestTheorems.NewManifestReads | tools/initialize-reference-chain.mjs:20-31 | a fresh manifest read back is unpinned and links to the predecessor's manifest as it is now |
| ManifestTheorems.PinMeans | tools/pin-reference-chain-selection.mjs:19-28 | a pin records exactly the bytes it saw, leaves version, composer and historical pins as they print, and keeps the link unless that is a number that prints as null |
| ChainTheorems.InitializedMatchesHistory | tools/initialize-reference-chain.mjs:14-24 | a fresh link holds every historical fixture without CR, and originals and copies both match the recorded digests |
| ChainTheorems.WalkFrame | tools/verify-reference-chain-selection.mjs:11-26 | the walk depends on nothing but its head's version and link and the older links |
| ChainTheorems.FreshLinkAccepted | tools/initialize-reference-chain.mjs:25-31 | a freshly initialised link is accepted if and only if its predecessor was accepted and sealed |
| ChainTheorems.ChainIsBound | tools/verify-reference-chain-selection.mjs:12-26 | two accepted stores whose heads agree on version and link retain the same versions with the same normalised bytes, unless two texts of one retained link differ and have one digest |
| ChainTheorems.SealLastsAsLongAsBytes | tools/verify-reference-chain-selection.mjs:21-24 | while its manifest stays, a link remains sealed if and only if its pinned bytes stay, unless a pinned fixture before and after differ and have one digest |
| ChainTheorems.UnpinnedIsPermanent | tools/verify-reference-chain-selection.mjs:18-21 | no store at all is accepted from a link made over an unpinned manifest, unless its manifest of that version differs from the unpinned one and has the same digest |
| Lifecycle.ActionIsSound | tools/reference-evidence-locks.mjs:177-181 | a tool run, interruption or outside change keeps the lifecycle invariant if and only if it makes no link over an unsealed predecessor and is going to rewrite no fixture whose numbers print differently |
| Lifecycle.HistoryIsSound | experiments/search-semantics-reference/REFERENCE_SELECTION.md:5-22 | in a history every chain always keeps the historical semantics and the walk always accepts every manifest, if and only if every action is disciplined |
| Lifecycle.DurableHistoryIsSound | experiments/search-semantics-reference/REFERENCE_SELECTION.md:5-22 | over historical fixtures whose numbers print as themselves, a history is always sound if and only if links are only made over sealed predecessors |
| Lifecycle.HistoryIsFrozen | experiments/search-semantics-reference/REFERENCE_SELECTION.md:5-22 | no history whatever changes a historical fixture |
| Histories.OlderLinksAreFrozen | tools/initialize-reference-chain.mjs:11-12 | once the version has moved on, no history changes an older manifest or chain |
| Histories.HistoryKeepsLink | tools/pin-reference-chain-selection.mjs:26-28 | through every history a manifest keeps its version and its link, whatever the link is, unless it is a number that prints as null |
| Histories.AcceptanceIsDecidedAtBirth | tools/verify-reference-chain-selection.mjs:12-26 | through every later history a link is accepted if and only if its predecessor was accepted and sealed when it was made |
| Histories.UnpinnedPredecessorDooms | tools/initialize-reference-chain.mjs:25-30 | a link made over an unpinned predecessor is rejected in every later history |
| Histories.UnfinishedStays | tools/initialize-reference-chain.mjs:12-13 | a version with a chain and no manifest stays so in every history, and while it is selected initialisation, pin and verification fail |
| Histories.FailedInitializationOrphans | tools/initialize-reference-chain.mjs:12-31 | where no manifest of the version or a later one exists, an initialisation that dies, or finds no predecessor manifest, leaves such a version if it changes anything |
| Histories.OrphansAreForever | tools/initialize-reference-chain.mjs:12-31 | where no later manifest exists, no tool ever succeeds on such a version or a later one in any history |
| Histories.WriteAfterPinDooms | tools/reference-evidence-locks.mjs:169-180 | a successful lock write over a pinned stale fixture, without a new pin, makes the next link rejected for ever, unless that fixture before and after have one digest |
| Witness.PinningIsNotEnough | tools/initialize-reference-chain.mjs:25-30 | a concrete repository and history: the first link is pinned and sealed, a producer moves, the locks are written, and the next link is made but rejected |
| Histories.PinSeals | tools/pin-reference-chain-selection.mjs:20-28 | a successful pin seals the current link |
| Histories.PinDischargesVerifier | tools/verify-reference-chain-selection.mjs:27-46 | right after a pin the verifier accepts if and only if the parts the pin does not look at are in order |
| Regex.MatchesAreLeftmost | scripts/source-boundary-policy.mjs:60-63 | a list is the result of the global search exactly when each match is the engine's first choice at the leftmost start behind the previous match, without overlap, and none is left over |
| ImportScan.EngineReachesScan | scripts/source-boundary-policy.mjs:28-32 | the backtracking engine can reach the scanner's match at a position and no other, for all three patterns |
| ImportScan.SearchIsScan | scripts/source-boundary-policy.mjs:58-65 | the global search of the engine and the left-to-right scan return the same matches |
| ImportScan.ScanIsOrdered | scripts/source-boundary-policy.mjs:58-65 | matches advance without overlap and capture non-empty quote-free text |
| ImportScan.SpecifiersAreClean | scripts/source-boundary-policy.mjs:58-65 | every extracted specifier is a non-empty quote-free piece of the text |
| ImportScan.ImportSpecifiers | scripts/source-boundary-policy.mjs:58-65 | the scanning loops return exactly the captures of the three patterns in order |
| PosixPath.NormalizeAbsolute | scripts/source-boundary-policy.mjs:99 | normalising an absolute path is the stack walk of its segments clamped at the root, and is idempotent |
| PosixPath.BasenameIsLast | scripts/source-boundary-policy.mjs:154 | the base name is the last non-empty segment |
| PosixPath.DirnameDropsLast | scripts/source-boundary-policy.mjs:99 | the directory of a rooted path has all segments but the last |
| SourceBoundary.ViolationsForFile | scripts/source-boundary-policy.mjs:151-218 | the policy as it pushes violations gives exactly the list of `Violations`, in order |
| SourceBoundary.InspectImports | scripts/source-boundary-policy.mjs:183-203 | the loop over the specifiers pushes their violations in order and knows whether one was private |
| SourceBoundary.MechanismIsReported | scripts/source-boundary-policy.mjs:208-217 | a mechanism is reported exactly when it was found, unless it is a private path beside a private import |
| BoundaryTheorems.UnderIsContainment | scripts/source-boundary-policy.mjs:38-44 | the string test for roots is containment of path segments |
| BoundaryTheorems.TargetIsWalk | scripts/source-boundary-policy.mjs:96-102 | a relative specifier means the clamped walk of segments from the source's directory, all segments plain; the escape exit is never taken |
| BoundaryTheorems.EvidenceIsReported | scripts/source-boundary-policy.mjs:181-199 | a file violates the evidence rule exactly for each extracted relative specifier of a production script whose clamped walk of segments starts with those of an evidence area |
| PrivateImports.PatternIsTest | scripts/source-boundary-policy.mjs:88 | the engine's search with the package pattern finds what a deterministic test does, with the same captured path |
| PrivateImports.PackageIsMatched | scripts/source-boundary-policy.mjs:88-93 | the string test for a private package path holds exactly when the pattern matches and captures a path through a private directory |
| PrivateImports.PrivateMeans | scripts/source-boundary-policy.mjs:79-94 | a specifier is private exactly if, segment by segment, it is a location through the repository's directory or the package followed by a private directory |
| PrivateImports.PrivateImportIsReported | scripts/source-boundary-policy.mjs:181-195 | a private import is reported exactly for each extracted private specifier of a maintained script |
| PolicyRules.RuleIsReported | scripts/source-boundary-policy.mjs:151-219 | for every rule of the policy, a violation is reported exactly if the file breaks the rule: by its last segment, extension and area, by an extracted specifier, or by a finding of the text |
| PolicyOrder.ViolationsAreListed | scripts/source-boundary-policy.mjs:151-219 | the list of violations of a file holds exactly what is due, each once, ordered by kind of rule, then by finding or specifier, then by rule |
| TextFilter.ConsultedIsRead | scripts/check-source-boundary.mjs:24-32 | every file whose text the policy consults is read, unless its name ends in a backslash |
| TextFilter.FilterIsLossless | scripts/check-source-boundary.mjs:24-32 | the text the tool reads gives the verdict of the full text if and only if the file is not consulted or its name does not end in a backslash |
| PolicyRules.ReadMeans | scripts/check-source-boundary.mjs:24-32 | a text is read exactly when the last name of the raw path, in lower case, has a stem and one of five extensions |
| TextFilter.BackslashScriptIsMissed | scripts/check-source-boundary.mjs:24-32 | the path on which a forbidden import goes unread |
| TreeCheck.WalkTree | scripts/check-source-boundary.mjs:12-22 | the recursive pushing walk returns the files in reading order |
| TreeCheck.WalkIsExact | scripts/check-source-boundary.mjs:12-22 | a path is listed exactly when it names a file and no segment is .git |
| TreeCheck.WalkHasNoRepeats | scripts/check-source-boundary.mjs:12-22 | where names differ within each folder, no path is listed twice |
| Listing.SortListIsSorted | scripts/check-source-boundary.mjs:35 | sorting a list without repetitions gives the listing of its elements |
| TreeVerdict.CheckTree | scripts/check-source-boundary.mjs:34-38 | the main loop concatenates the verdicts file by file, in ascending order where names differ within each folder, and passes exactly when no file of the tree has a violation |
| TreeVerdict.EvidenceVerdict | scripts/check-source-boundary.mjs:12-38 | an evidence violation is reported exactly for each extracted relative specifier, meaning segments in an evidence area, of a production script outside .git whose name does not end in a backslash |
| TreeVerdict.PrivateVerdict | scripts/check-source-boundary.mjs:12-38 | a private import is reported exactly for each extracted private specifier of a maintained script outside .git whose name does not end in a backslash |
| TreeVerdict.RuleVerdict | scripts/check-source-boundary.mjs:12-38 | for every rule, a violation is reported for the tree exactly if some file outside .git breaks it, where no text is seen of a file whose name ends in a backslash |
| LinkScan.EngineReachesLink | scripts/check-doc-links.mjs:9 | the backtracking engine can reach the scanner's link at a position and no other |
| LinkScan.LinkSearchIsScan | scripts/check-doc-links.mjs:42 | the global search for links and the scan return the same matches |
| LinkScan.LinksAreBracketed | scripts/check-doc-links.mjs:42-43 | each captured target is the non-empty text between `](` and the next `)` |
| LinkScan.ExtractLinks | scripts/check-doc-links.mjs:42-43 | the scanning loop returns the captures of all links in order |
| LinkTheorems.FirstWordMeans | scripts/check-doc-links.mjs:44 | trimming and splitting at white space give the first word, empty only for a blank target |
| LinkTheorems.TargetMeans | scripts/check-doc-links.mjs:44-51 | a raw link has a target exactly if its first word without angle brackets at both ends is neither empty nor a web, mail or in-page link, and decodes to something before its first hash, which is the target |
| LinkTheorems.RelativeResolves | scripts/check-doc-links.mjs:53-54 | resolving the computed relative path from the root gives the resolved path back |
| LinkTheorems.EscapeIsExact | scripts/check-doc-links.mjs:55 | a path is reported as escaping exactly when the root's segments are no prefix of its segments |
| LinkTheorems.ResolveMeans | scripts/check-doc-links.mjs:53 | a target resolves to the clamped walk of its segments from the file's directory |
| LinkTheorems.MarkdownIsExact | scripts/check-doc-links.mjs:16-30 | the collection finds exactly the Markdown files outside .git, under their absolute paths |
| LinkTheorems.FilesAscend | scripts/check-doc-links.mjs:40 | where names differ within each folder, the Markdown files are read in ascending order, each once |
| LinkTheorems.LinkVerdict | scripts/check-doc-links.mjs:40-63 | an error is reported exactly for each link of a Markdown file whose target, read from the raw text, means a path outside the root, or a missing path inside it |
| LinkTheorems.ErrorsAreListed | scripts/check-doc-links.mjs:40-69 | the list of errors holds the error of each link that has one, each once, by file in ascending order and then by link in the order of the text |
| DocLinks.CollectMarkdown | scripts/check-doc-links.mjs:16-30 | the recursive pushing collection returns the Markdown files in reading order |
| DocLinks.CheckFile | scripts/check-doc-links.mjs:41-62 | the loop with its skips pushes exactly the errors of the file's links in order |
| DocLinks.CheckLinks | scripts/check-doc-links.mjs:40-63 | the main loop reports the errors of all collected files, in the sorted order of `LinkTheorems.FilesAscend` |

## Left out

- Search Compiler, sessions, graphs, resources and evaluators: the tools only handle the evidence they leave behind; producers are an arbitrary map from path to text.
- SHA-256, JSON text, canonical bytes and the file system: parameters of `Platform` or maps; a write torn inside one file and concurrent runs are not modelled.
- TextFilter.FilterIsLossless: for package.json files the converse presumes that the package inspection finds something in some text, because that inspection is a parameter.
- Wording of exceptions: a run that throws is `Threw`, with the state it leaves, whatever the message.
- Numbers that are not safe integers are names of values: their arithmetic and their decimal digits are not modelled, only what they read back as. Strings with lone surrogates do not occur.
- Workspace.Workspace.WalkChain: a retained pin whose name contains a slash is rejected, and a pin table that is a non-empty array or string is treated as throwing, because the model keeps a chain as a flat map of names; the walk would look for such a file.
- Workspace.Workspace.VerifySelection: inherits these two limits for retained pins.
- The package pattern ignores case; the model lowers the text first and matches lower-case letters.
- A malformed descriptor (an id or path that is no string) makes a run throw at the start; the tool would throw at its first use.
- Manifests are keyed by version instead of by file name, and no producer lies inside a fixture directory.
- Default sorting compares characters, where JavaScript compares UTF-16 units; lower-casing covers ASCII letters only.
- The first sort of the Markdown walk, by locale: the list is sorted again before it is used.
- URL parsing, percent-decoding, the package.json inspection and the keyword patterns for native code: parameters of `Lexicon` and `World`, whose results are passed through in order.
- The path library is modelled by its documented POSIX meaning; Windows separators appear only as the replacement the policy performs.
- Command-line parsing, console output and the process started by the pin tool, which is a call here.
- One-line runner scripts, documentation gates, schema and organisation checks: constant tables that would only add easy members.
