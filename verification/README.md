# Local Store: a verified model of its protocols and parsers

Local Store installs self-hosted apps on a desktop, backs them up, and lets agents act on them under the
owner's grants. This project models the parts of it where a mistake costs data or authority, and proves
what they promise. Run `dafny verify dfyconfig.toml` in this directory.

| part | files | what it is about |
|---|---|---|
| protected snapshots | `Snapshot*.dfy`, `ProjectTree.dfy`, `UnrestorableBackups.dfy` | capture a project's bind directories under budgets, frame, parse, check and replay them; end to end, what was captured is what is restored, and nothing corrupt or outside the reviewed directories is |
| mutation queue | `MutationQueue.dfy`, `MutationRuns.dfy`, `RequestHistory.dfy`, `MutationExecution.dfy`, `StrandedRequests.dfy` | the persisted queue of installs and uninstalls that the owner approves, over every run with failing writes and crashes, and what each stored request tells of it; executions and workers of several processes, interleaved with enrollments and revocations; and the requests they leave behind |
| agent authorization | `AgentPolicy.dfy`, `PolicyHistory.dfy`, `AgentGateway.dfy`, `GatewayHistory.dfy`, `GatewayRaces.dfy`, `GatewayStores.dfy`, `OwnerEnrollments.dfy`, `OwnerHistory.dfy`, `Credentials.dfy`, `AgentContent.dfy`, `ContentRules.dfy`, `ContentRuns.dfy`, `ContentExecution.dfy` | grants, one-use tickets, enrollments and content proposals in separate stores, with every store write one step and other processes in between |
| catalog generation | `CatalogGroups.dfy`, `CatalogComponents.dfy`, `CatalogIds.dfy` | incremental grouping of records and stable identifiers |
| parsers | `LicenseExpressions.dfy`, `Deb822.dfy`, `DebianArchive.dfy`, `NoticeLinks.dfy` | licence expressions (Annex D of the SPDX Specification 2.3), control paragraphs (section 5.1 of the Debian Policy Manual), `ar` framing (deb(5)), links among licence notices |
| sessions and search | `McpSession.dfy`, `McpTools.dfy`, `CatalogSearch.dfy` | the newline JSON-RPC session (section 4.1 of JSON-RPC 2.0, the Lifecycle section of MCP 2025-06-18); ranked, faceted, paged search |
| shared | `Results.dfy`, `Text.dfy`, `SortedNames.dfy`, `StableSort.dfy` | results, byte lengths and identifier alphabets, sorting |

Objects that the source updates in place are classes here, and its loops are loops. Each method is proved
against a function of the old state, and the promises are proved about runs of those functions. Every write
to disk is an argument that says whether it succeeds, so a run covers failed writes and crashes.
Hashes, JSON, Unicode folding and decompression are arguments too: the theorems hold for every such function,
under the laws stated where they are needed (`Codec.Lawful`).

What a function computes is not only what its method computes: the modules whose names end in `History`, `Safety`,
`Rules` or `Tools` say in the terms of the protocol, and without naming those functions, what every answer depends on.

## What the code does that its comments do not say

- On Windows a restore can stop half-way although its admission is complete before the first write
  (src/backup.rs:786-788). A plain file of the target *above* a bind directory makes everything below it look
  absent there, so the path checks (src/backup.rs:162-181) and the vacancy check pass, and the replay fails
  after it has written other entries. Systems that report such a path as an error of its own refuse it in
  time. `SnapshotRestore.RestoreFiles` states that this is the only way and which entries are left, and
  `AdmissionIsNotEnough` gives an input that leaves one.
- A backup can succeed and never be restorable: capture does not look at what `validate_entries` insists on.
  `SnapshotRoundTrip.RestorableExactly` says which backups these are; `UnrestorableBackups.BoundFile` (a bind mount of
  a plain file) and `FoldedNames` (two names that fold together) are such projects.
- `grant_files_for_owner` (src/agent_gateway.rs:53-79) lets go of the credentials before it writes the grant, unlike
  its siblings. A client can be revoked and enrolled anew in between, so a file grant can outlive the
  enrollment it was checked under. `GatewayRaces.CurrentExactlyWithoutRaces` names the two steps that make a run
  lose currency, and shows there are no others; `LateFileGrantHappens` is such a run.
- An execution looks at the credentials before it claims (src/agent_requests.rs:657-662), so a client revoked in
  between still claims. `MutationExecution.ClaimStaleExactly` says that this is the only way, and `LateClaim` that
  it can happen from every state in which the claim is due; `ReadyIsReached` shows such states.
- A call or worker that stops, or whose last write fails, leaves its request running for good
  (src/agent_requests.rs:645-698, src/agent_requests.rs:771-785): nothing expires it and nothing else finishes it.
  `StrandedRequests.StrandedExactly` says that there is no other way, and `RunningShutOut` that eight of them shut
  their client out.
- A submission does not bound the display name that `describe` found (src/agent_requests.rs:484-545), but opening the
  queue does (src/agent_requests.rs:188-189). `MutationRuns.SubmissionValidExactly`: the file can be opened again
  exactly when the target is one that opening admits; `LongNameSpoilsFile` is the other case.
- Deciding and posting content look at the credentials before they act (src/agent_content.rs:862,
  src/agent_content.rs:936-938). An approval is saved, and content is posted, under a revoked credential exactly when
  the revocation falls between the look and the act: `ContentExecution.DecisionStaleExactly` and `PostStaleExactly`,
  with runs in `LateApproval` and `LatePost`.
- `OwnerEnrollments::cancel` checks and revokes in two gateway calls (src/agent_owner.rs:159-169). It removes a newer
  credential exactly when another process last enrolled the client in between:
  `OwnerEnrollments.CancelRemovesNewerExactly`, with a run in `CancelRemovesNewer`.
- Name matching makes grouping depend on the order of the sources (`CatalogGroups.OrderMatters`). The groups are the
  connected components of shared keys exactly when every name join was backed by such a chain
  (`CatalogComponents.ComponentsExactly`).
- A suffixed catalog id is not looked up among those in use (scripts/catalog_pipeline.py:315-317), so two entries can
  get one id, and the next run then refuses. `CatalogIds.DistinctExactly` states the guard that is missing, and
  `SuffixCanRepeat` gives an input.
- The licence parser reads operators in any letter case, ignores tokens it cannot continue with, does not ask for
  closing parentheses, and takes `)`, `AND` and `OR` for licences where it waits for one: `MIT GPL-3.0-only`,
  `MIT OR )` and `MIT or GPL-3.0-only` are answered with yes. `LicenseExpressions.WholeExpressionExactly` tells, by one
  pass with a counter, when the tokens are an expression of the cited annex, whose operators are capitals.

## Model

| member | source | states |
|---|---|---|
| SnapshotPaths.SplitInjective | src/backup.rs:135-160 | two stored paths with the same components are the same text, so comparing texts compares places in the tree |
| SnapshotPaths.SlashesCountDepth | src/backup.rs:808 | the slash count that the replay sorts by is the depth of the path |
| ProjectTree.Project.ReadDir | src/backup.rs:451 | lists exactly the names of the children of a folder, each once |
| ProjectTree.Project.CreateDirAll | src/backup.rs:811-816 | succeeds exactly when no file stands on the way; adds just the missing folders and changes nothing else, also when it fails |
| ProjectTree.Project.CreateNew | src/backup.rs:817-824 | writes a file only where nothing is and its parent is a folder |
| SnapshotCapture.WalkIsSubtree | src/backup.rs:429-491 | the recursion visits exactly the paths at or below its root that exist, if the depth allows |
| SnapshotCapture.WalkDistinct | src/backup.rs:429-491 | no path is visited twice |
| SnapshotCapture.Capture.Collect | src/backup.rs:429-491 | succeeds exactly when all visited nodes fit the depth, 4096 entries, 256 MiB and safe names, then appends exactly their entries in sorted walk order; the running total stays the sum of the captured bytes, so the remaining budget never underflows |
| SnapshotCapture.Capture.CollectChildren | src/backup.rs:451-466 | the same for the sorted children of a folder |
| SnapshotCapture.FitsConcat | src/backup.rs:429-491 | fitting two parts one after the other, from the progress the first leaves, is fitting the whole |
| SnapshotFraming.FrameUnique | src/backup.rs:748-782 | a byte string is the frame of at most one snapshot |
| SnapshotFraming.FramePrefixFree | src/backup.rs:748-782 | no proper prefix and no extension of a frame is a frame |
| SnapshotFraming.EncodingFrames | src/backup.rs:729-747 | encoding a snapshot with true lengths and bounded counts gives a frame of it |
| SnapshotFraming.EncodingSizeNeverExceeds | src/backup.rs:23-27 | with at most 256 MiB of data the final check of the encoded size cannot fire |
| SnapshotFraming.Encode | src/backup.rs:729-747 | fails exactly when the metadata or the whole exceeds its bound, and otherwise returns the encoding |
| SnapshotFraming.LowByteFirst | src/backup.rs:729-747 | the length in front of the metadata has its low byte first |
| SnapshotFraming.TakeBodies | src/backup.rs:758-779 | cuts off one body of each listed length, in order, exactly when there are enough bytes; the subtraction of the offset never underflows |
| SnapshotFraming.DecodePlain | src/backup.rs:748-782 | accepts exactly the frames and returns their snapshot, so it inverts the encoder and accepts nothing else |
| SnapshotContract.FromPlan | src/backup.rs:40-74 | refuses exactly an invalid plan, one that cannot be rendered, or one with an unsafe mount source or two that overlap; otherwise the directories are all its sources, sorted and pairwise disjoint |
| SnapshotContract.InsideSortsAfter | src/backup.rs:56-66 | a directory inside another sorts after it |
| SnapshotContract.LaterCheckSuffices | src/backup.rs:56-66 | comparing each directory only with the later ones finds every overlap |
| SnapshotContract.ValidateEntries | src/backup.rs:594-671 | accepts exactly the snapshots that satisfy the structural contract: safe admitted paths, matching lengths and hashes, no file above another entry, paths distinct after folding, all bind directories present, the budgets |
| SnapshotSafety.AcceptedFilesIntact | src/backup.rs:599-629 | in an accepted snapshot every entry's bytes have the recorded hash, folders have none, no two paths fold together, and 4096 entries and 256 MiB are not exceeded |
| SnapshotSafety.AcceptedVolumesIntact | src/backup.rs:642-659 | every archive has the recorded hash, passes the archive check, is of a volume of the contract and of no other archive's |
| SnapshotSafety.EveryVolumeArchived | src/backup.rs:660-664 | when the contract names each volume once, the volumes are exactly those that have an archive |
| SnapshotSafety.SafeExactly | src/backup.rs:135-160 | a path is safe if and only if it is short and each component is an ordinary name: not empty, without a separator, a colon or a control character, not ending in a dot or a space, and not a device with any extension |
| SnapshotSafety.AcceptedPathsOrdinary | src/backup.rs:611-621 | every component of every accepted path is such a name |
| SnapshotSafety.AddedInside | src/backup.rs:784-827 | what a restore adds is the credentials file, lies in a bind directory, or is a folder leading to one |
| SnapshotRestore.OverlaidStep | src/backup.rs:809-826 | writing one entry extends the overlay of the entries written before by exactly that entry |
| SnapshotRestore.AncestorsComeFirst | src/backup.rs:807-808 | in the replay order nothing comes after something that lies inside it |
| SnapshotRestore.FoldersComeFirst | src/backup.rs:807-808 | at the same depth folders come before files |
| SnapshotRestore.StepOpen | src/backup.rs:809-826 | when no project file is in the way, every entry still to be written can be: no earlier entry blocks it and exclusive creation does not collide |
| SnapshotRestore.Replay | src/backup.rs:807-827 | replays everything exactly when nothing is in the way, never changes what existed, and on a failure leaves exactly the entries before the first that a project file is in the way of |
| SnapshotRestore.RestoreFiles | src/backup.rs:784-827 | refused exactly by the structural check, the admission checks or, other than on Windows, a plain file above a bind directory, and then nothing is written; restored exactly when none of these holds, and then the project is its old self overlaid with the entries, and every restored file has the hash that the snapshot records; interrupted otherwise, with exactly the entries before the first blocked one |
| ProjectTree.Project.Confined | src/backup.rs:162-181 | a path is let through exactly when no plain file stands above it, or when the system does not tell the two apart |
| SnapshotRestore.ConfinedEntries | src/backup.rs:804-806 | the second pass over all entry paths can refuse nothing that the pass over the bind directories let through |
| SnapshotRestore.AdmissionIsNotEnough | src/backup.rs:784-806 | an accepted snapshot and a project that Windows admits, for which every stopped replay has made one folder and not the other |
| SnapshotRoundTrip.CaptureFiles | src/backup.rs:532-540 | the captures of all roots and of the credentials file together fit the budgets or fail |
| SnapshotRoundTrip.RootsFitMeans | src/backup.rs:429-491 | what fits: paths that exist, at most 32 levels below their root, and safe; 4096 of them; 256 MiB |
| SnapshotRoundTrip.CaptureIsComplete | src/backup.rs:429-491 | a capture has an entry for exactly the existing paths under a bind directory and for the credentials file, with the content of the tree |
| SnapshotRoundTrip.PlanCapturedOnce | src/backup.rs:40-74 | under the contract of a plan no path is captured twice |
| SnapshotRoundTrip.CapturedIsAccepted | src/backup.rs:594-671 | what capture produces passes the structural check of restore and can be framed, when its bind roots are folders, nothing lies below the credentials path and no two paths fold together |
| SnapshotRoundTrip.RestorableExactly | src/backup.rs:594-668 | those three conditions are exactly when a successful capture passes the check of restore |
| UnrestorableBackups.BoundFile | src/backup.rs:594-668 | a project with one bind mount, of a plain file, is captured with success and refused by restore |
| UnrestorableBackups.FoldedNames | src/backup.rs:594-668 | the same for a folder with two names that fold together |
| SnapshotRoundTrip.RestoredIsCaptured | src/backup.rs:784-827 | after a restore every covered path is exactly as it was captured, every other path as it was, and the only further additions are folders leading to a bind directory |
| SnapshotRoundTrip.BackUpAndRestore | src/backup.rs:496-576 | capture, encode, decode, check and restore in sequence succeed if and only if the capture is within its limits and restorable, the metadata fits and the target admits it with nothing in the way; then they reproduce the captured project in the target, which keeps whatever it had |
| MutationQueue.ValidateRecords | src/agent_requests.rs:170-217 | accepts exactly the row lists with valid records, distinct ids and at most 256 rows |
| MutationQueue.Queue.Open | src/agent_requests.rs:145-241 | opens exactly valid files, with all lapsed rows expired and that persisted first |
| MutationQueue.Queue.Submit | src/agent_requests.rs:265-326 | adds one pending request within the quotas, evicting the first row that is not active when full; memory and file agree or nothing was written |
| MutationQueue.Queue.Decide | src/agent_requests.rs:327-356 | approves a pending request of the same target and generation for at most ten minutes and not past its expiry, or denies it |
| MutationQueue.Queue.Claim | src/agent_requests.rs:357-381 | turns an approved request into a running one only for the same client, generation and target and before the approval ends |
| MutationQueue.Queue.Cancel | src/agent_requests.rs:382-406 | cancels a waiting request, marks a running install, refuses a running uninstall, leaves finished ones alone |
| MutationQueue.Queue.Finish | src/agent_requests.rs:407-424 | ends a running request in the state its outcome calls for, and no other request |
| MutationQueue.Queue.RecordProgress | src/agent_requests.rs:738-747 | records the stage and nothing else |
| MutationQueue.Queue.Look | src/agent_requests.rs:253-258 | reading a request returns the stored one and changes nothing |
| MutationQueue.Queue.Execute | src/agent_requests.rs:645-698 | claims before it audits, and finishes as failed when the audit is refused, so the operation never starts unaudited and the row is Failed with its reason when that is written; the steps around it are in MutationExecution |
| MutationQueue.ClaimedCanFinish | src/agent_requests.rs:645-698 | a request just claimed can be finished |
| MutationRuns.Serve | src/agent_requests.rs:145-425 | opening the queue object and calling one of its operations does to the file what one step of a run does |
| MutationRuns.QueueFullUnreachable | src/agent_requests.rs:272-299 | the branch that reports a full queue cannot be taken in any state within the quotas, since 256 rows cannot all be active |
| MutationRuns.EvictionIsHarmless | src/agent_requests.rs:272-299 | eviction removes one inactive row, keeps the order of the rest and all counts |
| MutationRuns.RunKeepsInv | src/agent_requests.rs:170-217 | after every run the stored rows pass the validation of the next opening, at most 32 are active and 8 per client, and every row is accounted for by what was durably decided |
| MutationRuns.SubmissionValidExactly | src/agent_requests.rs:265-326 | a saved submission leaves a file that opens again if and only if its target is one that opening admits; otherwise no call changes the file any more |
| MutationRuns.LongNameSpoilsFile | src/agent_requests.rs:484-545 | a first submission with a display name over 256 bytes is saved, and every later call leaves the file as it is |
| MutationRuns.ClaimedAtMostOnce | src/agent_requests.rs:357-381 | no request is claimed twice in any run |
| MutationRuns.ClaimFollowsApproval | src/agent_requests.rs:327-381 | every claim in any run follows the client's submission and an owner approval of the same target and credential generation, and precedes the end of that approval: ten minutes after it, or a day after the submission if that is earlier |
| RequestHistory.RowsTellHistory | src/agent_requests.rs:327-424 | in every run each stored request says what was asked of it and saved: succeeded, failed (with its reason) or denied exactly when that was recorded; a claimed one runs until a finish is recorded and is cancelled exactly by a finish that says so; when and as what operation it was claimed; a cancellation while it ran; the last stage |
| RequestHistory.CallEdge | src/agent_requests.rs:327-424 | the edge of the state machine that each call takes, by its arguments |
| RequestHistory.RefusedExactly | src/agent_requests.rs:327-424 | when a call about a stored request is refused |
| RequestHistory.UnknownRefused | src/agent_requests.rs:253-264 | a call about a request that is not stored finds none |
| RequestHistory.SubmitRefusedExactly | src/agent_requests.rs:265-312 | a submission is refused exactly with 32 active requests, 8 active ones of its client, or no day left on the clock; sizes of sets, not counts of the loop |
| RequestHistory.OpeningExpires | src/agent_requests.rs:227-241 | opening leaves no waiting request whose approval or day has ended, and touches only those |
| RequestHistory.OpenedMeans | src/agent_requests.rs:170-217 | what a file that opens is certain to hold, whoever wrote it |
| MutationRuns.StepMoves | src/agent_requests.rs:227-423 | a row that is there before and after a call keeps its identity and makes at most an expiry and one edge |
| MutationRuns.RunMoves | src/agent_requests.rs:222-423 | between any two moments of a run a stored request keeps its identity and moves only along Pending, Approved, Running and their exits; a final state is never left |
| MutationRuns.ReachesIsEdges | src/agent_requests.rs:62-64 | reachability between states is exactly the composition of single edges |
| MutationExecution.Execute | src/agent_requests.rs:661-678 | opening the file and executing on the real queue object is a claim of a run, or a claim and a finish at the same opening |
| MutationExecution.QueueRuns | src/agent_requests.rs:586-698 | with any number of executions, crashes and owner steps interleaved, the queue goes through one of its own runs, so all that holds of those holds here |
| MutationExecution.ClaimStaleExactly | src/agent_requests.rs:657-662 | a claim is made under a generation that is not its client's present one if and only if the client was revoked between the last look at the credentials and the claim |
| MutationExecution.LateClaim | src/agent_requests.rs:657-662 | from every state in which a claim is due, a revocation in between does not stop it |
| MutationExecution.ReadyIsReached | src/agent_requests.rs:265-356 | every request that can be filed has a run that ends in such a state |
| MutationExecution.StartedOnce | src/agent_requests.rs:645-698 | in every run each worker was started for a claimed request, and none for a request twice |
| StrandedRequests.StrandedExactly | src/agent_requests.rs:645-785 | in every run a request is running with no call or worker left to finish it if and only if the one that was to finish it stopped or its finish was not persisted |
| StrandedRequests.StrandedForever | src/agent_requests.rs:222-424 | such a request is running in every later state |
| StrandedRequests.RunningShutOut | src/agent_requests.rs:265-289 | eight running requests of one client make every further submission of that client fail |
| AgentPolicy.AgentPolicy.Authorize | src/agent_policy.rs:143-185 | allows exactly a live grant with, where approval is needed, its own unexpired ticket; spends the ticket presented either way; records the attempt and drops the oldest beyond 2048 |
| AgentPolicy.AgentPolicy.Approve | src/agent_policy.rs:109-141 | issues one ticket for exactly one client, app and action that needs it |
| AgentPolicy.AgentPolicy.RevokeClient | src/agent_policy.rs:101-107 | drops exactly the grants and tickets of one client |
| AgentPolicy.TicketsConserved | src/agent_policy.rs:81-185 | over every run issued tickets are outstanding, consumed or revoked, exactly one of them; every permit had a grant of its client and app with the action, not run out; one for an install, an uninstall, a content write or a destructive action used a ticket of its own, issued for exactly that and not run out, and any other used none; the audit is the newest 2048 attempts; every grant is valid under its own key |
| PolicyHistory.PermittedExactly | src/agent_policy.rs:81-185 | after any run an attempt is permitted if and only if the owner's last grant for client and app stands, allows the action and has not run out, and, where the action needs one, the ticket presented was issued for exactly this, was neither presented nor revoked since, and has not run out |
| PolicyHistory.HoldsWhatStands | src/agent_policy.rs:81-185 | the policy holds exactly the grants and tickets that nothing ended since they were given |
| AgentPolicy.ContentWriteLeavesNoTicket | src/agent_gateway.rs:153-174 | a self-approved content write is allowed exactly under a live write grant and leaves grants and tickets as they were |
| AgentPolicy.AuthorizeContent | src/agent_gateway.rs:153-174 | both branches leave grants and tickets unchanged and decide by the live grant, up to the last second of the clock |
| AgentGateway.StepKeepsInv | src/agent_gateway.rs:202-405 | every single store write, and every crash, keeps the invariant of the interleaved model |
| AgentGateway.RunKeepsInv | src/agent_gateway.rs:202-405 | whatever the interleaving and wherever calls stop, every grant of an enrolled client was checked under its present enrollment or grants files only, and every pass was given under such a grant; GatewayRaces has exactly when file grants comply too |
| AgentGateway.HalfRevocationDenies | src/agent_gateway.rs:219-223 | the first write of a revocation already takes all authority away while the credential still stands |
| AgentGateway.StepKeepsRetired | src/agent_gateway.rs:525-551 | a secret that is no longer a credential stays so, and nobody newly verifies with it |
| AgentGateway.RetiredForever | src/agent_gateway.rs:525-551 | from the moment a secret is retired no request begins with it, whatever happens; what still passes under it was verified before |
| GatewayHistory.PassIsEarned | src/agent_gateway.rs:483-551 | in every run each request let through was verified under its client's present secret, for this app and action and the client it claimed to be, and after that a grant of that client for that app allowed the action and had not run out |
| GatewayRaces.StaleExactlyByFileGrants | src/agent_gateway.rs:53-79 | one step: a grant comes to outlive the enrollment it was checked under exactly by a late file grant or by an enrollment over one |
| GatewayRaces.CurrentExactlyWithoutRaces | src/agent_gateway.rs:53-79 | whole runs: every grant of an enrolled client stays one of its present enrollment, file grants included, if and only if the run has neither of these two steps |
| GatewayRaces.LateFileGrantHappens | src/agent_gateway.rs:53-79 | a run in which a file grant checked under one enrollment lands in the next |
| GatewayRaces.VerifiedRequestMayFinish | src/agent_gateway.rs:534-536 | a run of the documented exception: a request verified before the revocation is answered after it |
| GatewayStores.Gateway.EnrollClientForOwner | src/agent_gateway.rs:202-218 | clears surviving grants, then writes the credential; a failure in between leaves no grant and no new credential |
| GatewayStores.Gateway.RevokeClientForOwner | src/agent_gateway.rs:219-223 | clears grants before the credential, so a failure in between leaves a credential without authority |
| GatewayStores.Gateway.GrantForOwner | src/agent_gateway.rs:317-393 | grants exactly the actions of the scope for at most its hours to an enrolled client, as one uninterrupted check and write; the grant is live for exactly the actions of its scope, action by action, up to its hours, which are at most 720 for status and 24 otherwise; every other grant stays |
| GatewayStores.Gateway.RevokeStatusForOwner | src/agent_gateway.rs:395-405 | takes away the one grant of a client on an app, whether or not the app is still installed |
| GatewayStores.Gateway.Authenticate | src/agent_gateway.rs:246-253 | finds the client whose current secret this is, or knows there is none |
| GatewayStores.Gateway.Request | src/agent_gateway.rs:483-551 | looks into the registry exactly for the owner of the secret, under its own name, on a live grant of the action whose audit was saved, and allows exactly when the app is there |
| OwnerEnrollments.OwnerEnrollments.Begin | src/agent_owner.rs:72-131 | refuses or adds exactly one pending preview; a rotation that fails to enroll has already removed the old credential |
| OwnerEnrollments.OwnerEnrollments.ExportOnce | src/agent_owner.rs:132-158 | takes the preview out before anything is returned, and returns it only while its secret is current; credentials that cannot be opened leave the preview |
| OwnerEnrollments.OwnerEnrollments.Cancel | src/agent_owner.rs:159-169 | removes the preview and revokes its client when its secret was current at the check; credentials that cannot be opened leave both |
| OwnerEnrollments.RunKeepsInv | src/agent_owner.rs:72-172 | over every run with other processes in between, at most 16 previews are pending and no secret is pending twice or after its export |
| OwnerEnrollments.ExportedAtMostOnce | src/agent_owner.rs:132-158 | every secret is exported at most once in a run |
| OwnerHistory.ExportedExactly | src/agent_owner.rs:132-158 | after any run an export returns a configuration if and only if the owner consents, the preview it names was begun less than ten minutes ago and nothing ended it since, and its secret is its client's present one; and it is that preview's |
| OwnerHistory.PendingExactly | src/agent_owner.rs:72-172 | the previews pending are exactly those begun that were not exported, cancelled, forgotten, rotated away or run out |
| OwnerHistory.BegunExactly | src/agent_owner.rs:72-131 | when a preview is begun |
| OwnerEnrollments.OneExportablePerClient | src/agent_owner.rs:72-158 | of the pending previews of one client at most one can be exported |
| OwnerEnrollments.CancelRemovesNewerExactly | src/agent_owner.rs:159-169 | a cancellation removes a newer credential if and only if another process last enrolled the client between its check and its revocation |
| OwnerEnrollments.CancelRemovesNewer | src/agent_owner.rs:159-169 | a run in which the cancellation takes the newer credential away |
| OwnerEnrollments.OutsideIsGatewayCall | src/agent_gateway.rs:202-223 | what other processes do to the credentials here is what the gateway's own calls do in AgentGateway |
| AgentContent.Retain | src/agent_content.rs:676-742 | keeps exactly the proposals that pass the filter |
| AgentContent.Store.Connect | src/agent_content.rs:676-689 | replaces the connection of an app and drops all its proposals; the scopes are cleared before in ContentExecution |
| AgentContent.Store.Disconnect | src/agent_content.rs:699-706 | removes the connection of an app and all its proposals; the scopes are cleared before in ContentExecution |
| AgentContent.Store.Regrant | src/agent_content.rs:732-740 | drops the proposals of one client for one app, and no others |
| AgentContent.Store.RequestCreate | src/agent_content.rs:791-828 | adds one unapproved proposal bound to the hash of its content and the present connection |
| AgentContent.Store.Decide | src/agent_content.rs:853-878 | approves for at most 120 seconds, or consumes, an unexpired proposal of the present credential |
| AgentContent.Store.Claim | src/agent_content.rs:894-935 | claims exactly an approved, unexpired and unconsumed proposal of this client, generation, operation and connection, and saves the consumption before it returns the token; the authorization in between is in ContentExecution |
| ContentRules.ConnectExactly | src/agent_content.rs:676-689 | connecting replaces the connection of that app alone, drops its proposals and no others, and is refused with 32 other connections |
| ContentRules.DisconnectExactly | src/agent_content.rs:699-706 | disconnecting removes the connection and proposals of that app alone |
| ContentRules.RegrantExactly | src/agent_content.rs:732-740 | a content grant needs the connection, and drops what this client had asked of this app and nothing else |
| ContentRules.RequestExactly | src/agent_content.rs:791-828 | a request needs the connection and fewer than 32 live ones, and adds one with these fields, to end in ten minutes |
| ContentRules.DecideExactly | src/agent_content.rs:853-878 | when a decision is refused; otherwise it approves for two minutes at most, or consumes |
| ContentRules.ClaimExactly | src/agent_content.rs:894-935 | when a claim is let through |
| ContentRuns.RunKeepsInv | src/agent_content.rs:676-940 | over every run of owner steps, client calls and crashes the store stays within its bounds and everything in it is accounted for |
| ContentRuns.PostedAtMostOnce | src/agent_content.rs:879-940 | no proposal is written to its app twice and none is claimed twice |
| ContentRuns.ClaimIsApproved | src/agent_content.rs:894-935 | every claim is of a proposal exactly as asked for, by the client that asked and under the generation it asked under, which is the one the owner's call had looked up before it approved; of the operation and the app identity asked for and approved, with the approved hash, before the approval ends two minutes after it was given, on the connection it was asked under, never refused, and with no connect, disconnect or grant for its scope since it was asked for |
| ContentRuns.PostFollowsClaim | src/agent_content.rs:879-893 | what is written to an app is what was claimed, with the token of that claim; its authorization is in ContentExecution |
| ContentExecution.ContentStoreRuns | src/agent_content.rs:629-940 | with any number of calls, crashes, enrollments, revocations and grants interleaved, the content store goes through one of its own runs, so all that holds of those holds here |
| ContentExecution.PostIsAuthorized | src/agent_content.rs:894-940 | everything posted was, in the same call, first consumed, then its credential verified, and then at one moment the credential was the one it was asked under, a live write grant stood that was given on the connection it was asked under, and that connection was there with the token sent |
| ContentExecution.PostStaleExactly | src/agent_content.rs:879-940 | a post is under a generation that is not its client's present one if and only if the client was revoked between the authorization and the post |
| ContentExecution.LatePost | src/agent_content.rs:879-940 | a run that posts after the revocation, for every client, app, connection and content |
| ContentExecution.DecisionStaleExactly | src/agent_content.rs:853-878 | an approval or a refusal is saved under a generation that is not its client's present one if and only if the client was revoked between the owner's look and the saving |
| ContentExecution.LateApproval | src/agent_content.rs:853-878 | a run that saves an approval after the revocation |
| ContentExecution.GrantsEndWithConnection | src/agent_content.rs:676-743 | in every run, also when calls stop between two writes, whoever may read or write content is enrolled and was granted it on the connection the app has now |
| ContentExecution.WritesGatewayGrant | src/agent_gateway.rs:92-124 | the content grant of this model is the grant that the gateway's owner call writes |
| Credentials.CurrentUntilRevoked | src/agent_gateway.rs:202-223 | a generation stays its client's present one exactly until the client is revoked, since no generation is drawn twice |
| CatalogGroups.Grouping.Add | scripts/catalog_pipeline.py:229-262 | the list of groups and the key index become what adding the record means |
| CatalogGroups.Grouping.MergeInto | scripts/catalog_pipeline.py:252-255 | one group receives another, which is left empty, and its keys follow |
| CatalogGroups.ExtendsKeepsSound | scripts/catalog_pipeline.py:229-262 | the index leads every key of every record to that record's group, and never to an emptied one |
| CatalogGroups.GroupsPartitionRecords | scripts/catalog_pipeline.py:229-262 | grouping loses no record and duplicates none |
| CatalogGroups.KeyChainsTogether | scripts/catalog_pipeline.py:229-262 | records linked by a chain of shared keys are grouped together, in whatever order they come |
| CatalogGroups.TogetherIsChained | scripts/catalog_pipeline.py:229-262 | records grouped together are linked by shared keys, or by a shared name and a common host |
| CatalogGroups.LinkMeans | scripts/catalog_pipeline.py:236-249 | two records are linked by a canonical key of both, or by their name with a host of both |
| CatalogGroups.GroupsConnected | scripts/catalog_pipeline.py:229-262 | every group is connected by those links, inside the group |
| CatalogGroups.GroupsAreComponents | scripts/catalog_pipeline.py:229-262 | while no record joins by name, the groups are exactly the connected components of shared keys |
| CatalogComponents.ComponentsExactly | scripts/catalog_pipeline.py:229-262 | the groups are the connected components of shared keys if and only if every name join joined records that a chain of shared keys connects anyway |
| CatalogGroups.OrderMatters | scripts/catalog_pipeline.py:245-249 | three records that are grouped differently in two orders |
| CatalogIds.AssignIds | scripts/catalog_pipeline.py:303-319 | the loop over the groups yields the ids and the map that the assignment defines, or refuses |
| CatalogIds.SavedIdIsKept | scripts/catalog_pipeline.py:311-314 | a group with a saved key keeps a saved id that no earlier group has, or the run refuses |
| CatalogIds.IdExactly | scripts/catalog_pipeline.py:307-317 | the id of a group: the one saved for its lead key, or for its smallest saved key; or from its curated or given name, or the hash of its lead key, with a suffix when that is in use or saved |
| CatalogIds.NotedExactly | scripts/catalog_pipeline.py:318-319 | an id is saved under the lead key and every key of its group, and no other saved id changes |
| CatalogIds.NextMapsKeys | scripts/catalog_pipeline.py:318-319 | the saved map sends every key of every group to that group's id |
| CatalogIds.DistinctExactly | scripts/catalog_pipeline.py:311-317 | all entries get ids of their own if and only if no suffixed name is in use when it is given |
| CatalogIds.AssignAgain | scripts/catalog_pipeline.py:301-319 | running again with the saved map changes nothing if no suffixed name was in use when it was given, and refuses otherwise |
| CatalogIds.RegenerationIsStable | scripts/catalog_pipeline.py:229-319 | the same for grouping and assignment together |
| CatalogIds.SuffixCanRepeat | scripts/catalog_pipeline.py:315-317 | three entries of which two get one id |
| LicenseExpressions.Parser.ParseOr | scripts/check-licenses.py:58-64 | the loop reads the alternatives from the shared position and leaves the position after them |
| LicenseExpressions.Parser.ParseAnd | scripts/check-licenses.py:66-72 | the same for parts joined by AND |
| LicenseExpressions.Parser.ParseAtom | scripts/check-licenses.py:74-84 | one licence or one group, and the index error past the last token |
| LicenseExpressions.Satisfiable | scripts/check-licenses.py:53-88 | the answer over all tokens |
| LicenseExpressions.HoldsByChoice | scripts/check-licenses.py:8-9 | an expression holds exactly when all licences of some clause of its disjunctive normal form are accepted |
| LicenseExpressions.ParserEvaluates | scripts/check-licenses.py:58-88 | for every expression tree the parser reads all tokens and answers whether some clause lies wholly in the accepted set; AND binds tighter than OR |
| LicenseExpressions.AnswerIsExplained | scripts/check-licenses.py:58-88 | for every token list an answer is the truth of a longest expression at its front, with closing parentheses perhaps missing and any token but an opening one as a licence |
| LicenseExpressions.ParserStopsWithScan | scripts/check-licenses.py:58-88 | the parser fails exactly when a one-counter pass misses an operand, and otherwise stops where the pass stops |
| LicenseExpressions.WholeExpressionExactly | scripts/check-licenses.py:58-88 | the tokens are one well-formed expression if and only if that pass ends at the last token with no group open and has met only names as licences and only AND and OR in capitals as operators |
| LicenseExpressions.AnswerMonotone | scripts/check-licenses.py:53-88 | accepting more licences never turns a yes to a no, and does not change whether the parser fails |
| LicenseExpressions.PermissiveIsAccepted | scripts/check-licenses.py:150-154 | whatever permissive licences satisfy is accepted |
| LicenseExpressions.RestIsIgnored | scripts/check-licenses.py:58-88 | a licence that no operator follows decides the answer, whatever comes after it |
| LicenseExpressions.LenientAnswers | scripts/check-licenses.py:58-88 | five malformed lists that are answered with yes |
| Deb822.ParseFields | scripts/verify-engine-provenance.py:43-57 | the dictionary loop computes what reading the lines one by one means |
| Deb822.SplitJoin | scripts/verify-engine-provenance.py:46 | splitting undoes joining when no line breaks inside and the last is not empty |
| Deb822.PrintThenParse | scripts/verify-engine-provenance.py:43-57 | parsing a printed paragraph gives back its fields |
| Deb822.ParseThenPrint | scripts/verify-engine-provenance.py:43-57 | every accepted text means a valid paragraph, whose printing parses to the same fields |
| Deb822.AcceptsExactly | scripts/verify-engine-provenance.py:46-56 | refused exactly for an orphan continuation, a line that is no field, or a repeated key |
| Deb822.LineMeans | scripts/verify-engine-provenance.py:46-56 | what one more line does: it extends the last field by a line, begins a field with the text after the first colon, or is refused |
| Deb822.StripExactly | scripts/verify-engine-provenance.py:55 | white space at both ends of a value, and nothing else, is taken off |
| Deb822.Paragraphs | scripts/verify-engine-provenance.py:60-69 | the generator yields what the stream of lines means, up to the first refusal |
| Deb822.PrintAllThenParse | scripts/verify-engine-provenance.py:60-69 | a file of paragraphs without blank continuations reads back as exactly these, in order |
| DebianArchive.SplitExactly | scripts/verify-engine-provenance.py:212-217 | splitting bytes into members and writing members are inverse, padding byte included |
| DebianArchive.DebControl | scripts/verify-engine-provenance.py:208-245 | the loop computes the control fields or refuses; every turn advances by at least 60 bytes |
| DebianArchive.ControlExactly | scripts/verify-engine-provenance.py:208-245 | fields are returned for exactly the padded concatenations of valid members with one control member that is not oversized and can be unpacked |
| DebianArchive.ControlIsUnpacked | scripts/verify-engine-provenance.py:208-245 | fields are returned if and only if one member, and no other, is named as the control archive, has at most two mebibytes and unpacks to them, wherever it stands |
| DebianArchive.MemberMeans | scripts/verify-engine-provenance.py:212-217 | what a valid member is, byte by byte |
| NoticeLinks.ResolveNotice | scripts/verify-engine-provenance.py:389-415 | the loop with its visited set computes what following at most seven links means; leaving early changes no answer |
| NoticeLinks.Normalize | scripts/verify-engine-provenance.py:403-410 | the loop over the parts of a link's target computes the normal form, or finds that it leaves the tree |
| NoticeLinks.ClosedNeverEnds | scripts/verify-engine-provenance.py:391-396 | among paths that only lead to each other and are no notices the search never succeeds, so the visited set is not needed for the result |
| NoticeLinks.FollowedExactly | scripts/verify-engine-provenance.py:389-415 | a notice is found if and only if it is the first notice on the way and fewer than eight links lead there |
| NoticeLinks.FoundInside | scripts/verify-engine-provenance.py:403-413 | from a path without parent steps only notices among the documentation, or the path itself, are found, whatever the links |
| NoticeLinks.RelativeLink | scripts/verify-engine-provenance.py:398-413 | a relative target is read from the folder that holds the link: so many folders up, its names, then the rest of the path; it leads nowhere when it leaves the tree or the documentation |
| NoticeLinks.AbsoluteLink | scripts/verify-engine-provenance.py:398-413 | an absolute target is read from the root of the tree |
| McpSession.Server.Handle | src/agent_mcp.rs:128-314 | the imperative handler has exactly the effect of the protocol step: its response, its callback and its flag |
| McpSession.Server.CallTool | src/agent_mcp.rs:201-309 | the nested argument checks call back exactly when the arguments satisfy the advertised schema with an identity of 1 to 128 bytes |
| McpSession.Server.Serve | src/agent_mcp.rs:80-120 | from any bytes exactly the terminated lines of at most 64 KiB at the front are served, in order, and the end is an error exactly when something is left |
| McpSession.ReadsValidLine | src/agent_mcp.rs:90-101 | the bounded read returns the next valid line, or there is none |
| McpSession.OneResponse | src/agent_mcp.rs:128-314 | every request with an identifier gets one response bearing it, notifications get none and change nothing, and at most one callback runs, the one its valid arguments ask for |
| McpTools.ToolMakesCall | src/agent_mcp.rs:201-309 | with the one argument it takes each tool makes its own call: start starts, stop stops, status asks for the status, and each mutation tool passes its name and identity |
| McpTools.ToolRefuses | src/agent_mcp.rs:201-309 | with any other arguments it makes none and is answered -32602 |
| McpTools.ListCalls | src/agent_mcp.rs:262-276 | the listing takes no arguments or an empty object |
| McpTools.ContentCalls | src/agent_mcp.rs:201-309 | a content tool is called with its arguments as given, when its own check lets them through |
| McpTools.UnknownTool | src/agent_mcp.rs:201-309 | no other tool exists |
| McpTools.CallsTellApart | src/agent_mcp.rs:201-309 | different tools and different identities make different calls |
| McpTools.VerbAnswers | src/agent_mcp.rs:128-200 | what initialize, ping, tools/list and unknown verbs are answered before and after the initialization |
| McpTools.CallsWait | src/agent_mcp.rs:310 | no tool is called before the initialization |
| McpTools.OddRequests | src/agent_mcp.rs:128-160 | what is answered to requests without an identifier, a verb or the protocol version |
| McpSession.ResponsesFollowLines | src/agent_mcp.rs:80-120 | over a whole session each line adds its own response and nothing else |
| McpSession.LinesOrderly | src/agent_mcp.rs:80-314 | in every session initialization succeeds at most once and every callback comes after it |
| CatalogSearch.Search | src/catalog_index.rs:159-233 | one loop over the catalog yields the selected entries and the facet counts together; the page is a slice of the ranked whole |
| CatalogSearch.RankedInBuckets | src/catalog_index.rs:198-211 | with a query exact names, then prefixes, then the rest, each in catalog order; nothing is lost or repeated |
| CatalogSearch.BucketsMean | src/catalog_index.rs:198-211 | which entries are in which bucket |
| CatalogSearch.WordsMatch | src/catalog_index.rs:159-190 | without filters the result is every entry that mentions all words of the query |
| CatalogSearch.FiltersNarrow | src/catalog_index.rs:159-190 | a licence, an architecture or the hiding of warnings narrows the result, in its order, to the entries that it names |
| CatalogSearch.CapabilityNarrows | src/catalog_index.rs:159-190 | so does each capability |
| CatalogSearch.CollectionNarrows | src/catalog_index.rs:159-190 | so does a collection, by the terms it stands for; unknown ones show nothing |
| CatalogSearch.CategoryNarrows | src/catalog_index.rs:191-197 | so does a category, after the facets were counted |
| CatalogSearch.PageHolds | src/catalog_index.rs:211-233 | a page holds up to 48 entries from its offset on, and one when none is asked for |
| CatalogSearch.FacetsSumToMatches | src/catalog_index.rs:185-191 | the facets add up to the matches before the category filter |
| CatalogSearch.TotalIsFacet | src/catalog_index.rs:185-192 | the total of a category's page is that category's facet |
| CatalogSearch.FollowShowsRest | src/cli_queries.rs:193-195 | following the next offsets ends and shows the rest of the result from any offset |
| CatalogSearch.FollowShowsEverything | src/cli_queries.rs:193-195 | from the start all pages together are the whole result, without hole or repeat |
| StableSort.SortByStable | src/catalog_index.rs:200-210 | sorting by a key keeps entries of equal key in their order |
| SortedNames.IncreasingUnique | src/backup.rs:42-56 | a set of texts has one increasing listing, so iterating an ordered set is deterministic |
| Text.AppIdExactly | src/model.rs:41-58 | installed app identifiers are exactly the lower-case words joined by single hyphens |
| Text.IdBytes | src/agent_policy.rs:192-199 | identifiers are ASCII, so their length in characters is their length in bytes |
| AgentPolicy.AttemptSpendsTicket | src/agent_policy.rs:143-185 | an attempt that needs approval spends the ticket it presents even when it is refused, and that ticket permits nothing afterwards, for any client, app or action |
| AgentPolicy.RevocationIsComplete | src/agent_policy.rs:94-107 | after a revocation nothing of its scope permits anything, and other clients are not affected |
| AgentPolicy.DiscoveryMatchesStatus | src/agent_policy.rs:69-79 | an app is listed for a client exactly when the client may read its status |
| OwnerEnrollments.ExportIsCurrent | src/agent_owner.rs:132-158 | a call exports nothing but the present credential of its client |
| OwnerEnrollments.UndisturbedCancel | src/agent_owner.rs:159-169 | without interference it removes exactly its own credential, and only while current |

## Left out

- SnapshotCapture.Capture.Collect: does not model links, special files, a file that changes size while it is read, or case-insensitive file systems; the tree holds plain files and folders.
- SnapshotRoundTrip.BackUpAndRestore: takes the archives of named volumes as given and checked; their capture in a container, and the protection of the encoded bytes by the operating system, are not part of this model.
- SnapshotContract.ValidateEntries: the overflow of a 64-bit sum is not modelled; lengths are unbounded and the 256 MiB budget is checked on them.
- MutationExecution.Execute: does not model the look at the app's status before an uninstall, the app's operation lock, the worker's monitor or the runtime operation.
- MutationQueue.Queue.Save: a text above the size limit of the file is one of the ways in which a write fails.
- AgentGateway.RunKeepsInv: the limits on stored grants and clients are ways in which a write fails; audit entries and request tickets are left to the policy part.
- GatewayStores.Gateway.Request: does not model the per-app lock nor the runtime call that follows an allowed request.
- ContentRuns.ClaimIsApproved: says nothing about what the credentials were at the saving of the approval; ContentExecution.DecisionStaleExactly does, where the credentials are a store of their own.
- ContentExecution.PostIsAuthorized: random generations are never drawn twice (Credentials); the bearer's secret stands for the generation it belongs to.
- ContentRuns.PostedAtMostOnce: the requests to the apps, and whether one that was sent arrived, are outside; a write is one step that may never come.
- CatalogGroups.GroupsPartitionRecords: canonical keys, name keys and host families are given with each record; URL parsing and slugs are not modelled.
- LicenseExpressions.Satisfiable: starts from tokens; the regular expressions that drop exceptions and split the text are not modelled.
- Deb822.Paragraphs: starts from decoded lines; UTF-8 and the translation of line ends are not modelled.
- DebianArchive.DebControl: decoding of names and numbers, decompression and the inner tar are functions of the reader.
- McpSession.Server.Serve: the JSON reader and the content tools' argument check are functions; output errors and the environment variable that content tools read again are not modelled.
- CatalogSearch.Search: lower-casing, trimming and word splitting are functions; the lists of all categories, licences and architectures are not modelled.
- Tar reading, signatures and hash tables in scripts/verify-engine-provenance.py: library calls and equality checks on their results.
- NoticeLinks.ResolveNotice: the notices are the names of captured files; their bytes and the licence hints read from them are not modelled.
- Containers, WSL, engine fingerprints, HTTP, DPAPI, sidecars and windows: foreign calls; engines and targets are compared as opaque values.
- Icon fetching, evidence, promotion and release scripts: field-by-field checks and I/O that would only add easy members.
