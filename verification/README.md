# Alfred native agents: a verified model

This project models the parts of Alfred's Rust backend and packaging scripts that keep agent runtimes and
agent accounts in order, and proves what they promise:

- **The managed runtime supervisor** (`managed_runtime.rs`): the byte machines under it (`Framer`,
  `ChunkedBody`, `HttpResponse`, `HttpHeaders`, `StderrTail`, with `Utf8` and `ByteText` below them), the entry that a
  launcher, a monitor thread and the readers share (`RuntimeEntry`) and what its end says (`RuntimeOutcome`), and the tables of live entries and
  profile leases (`Supervisor`).
- **The runtime profile store** (`runtime_profile.rs`): record names (`RecordName`), the scan that makes a
  directory of records one register (`ProfileLog`), the write with its crash points and pruning
  (`ProfileWrite`, with the order of records in `RecordOrder`), any number of callers preserving one profile at
  once (`ProfileRace`), and readers that open file by file meanwhile (`ProfileReader`).
- **The native account service** (`service.rs` over the database and the credential store): the steps of a
  locked session and what they keep (`AccountData`), the operations as the service runs them
  (`AccountService`) and what they come to (`AccountEnds`), the lock map (`AccountLocks`), every interleaving of them (`Accounts`) and how a
  reconnect ends (`AccountOutcomes`). `Authorization` is the registry of one-shot authorization attempts and
  `IdentityKey` the bytes an account identity is hashed from.
- **Package agreement** (`verify.ts`, `manifest.ts`): `PackageIndex`.

A machine that changes fields or buffers in place is a class or a method with loops, specified by a function
of its input; concurrent behaviour is a state machine whose steps are the regions the code executes under a
lock or as one call, cut further wherever another party does not take that lock, and "run" means any sequence of
enabled steps. Methods of a class that are one locked region are specified by the functions the state machines step
with. A failing call is a step of its own:
store writes fail before or after taking effect, file operations fail one by one.

What the proofs turned up, each with a witness and the exact condition under which the promise holds:

- Two overlapping `preserve` calls leave two records of the same generation, and nobody can read the profile
  any more (`ProfileRace.OverlapBreaksTheLog`); it stays readable as long as no two callers are between
  opening and renaming (`ExclusivePreservesStayReadable`). It never becomes active again either way.
- A log of exactly 1024 records reads well, but one more record makes it unreadable until pruning has caught
  up (`ProfileLog.AppendReads`).
- A clean exit can lose a frame: a reader that outlives the drain may send between the last empty poll and the
  drop of the receiver (`RuntimeEntry.CleanExitCanLoseAFrame`, condition in `FailClosedHasNoGap`).
- `preserve` does not take the lease lock, so a launch that has validated a profile can still start on it after
  it was preserved (`Supervisor.LaunchAfterPreserve`), and no other launch can (`LateLaunchExactly`). A purge
  of a preserved profile that fails after deleting its newest record makes the older, active one current again
  (`LaunchAfterFailedPurge`, `OnlyFailedPurgesRevive`). In the same way a read that listed before a rename can
  return the active record after it (`ProfileReader.StaleReadReturnsActive`, `ActiveReadsBeganBefore`).
- A reconnect whose rollback fails ignores a failure to mark the row, so the old key can be gone with nothing
  to show for it (`AccountOutcomes.OldKeyCanBeLostUnmarked`, condition in `PlayLosesKeyExactly` and
  `ReconnectOutcome`).
- The comment at service.rs:669-672 says a waiting connect does not treat a finished account as disposable.
  A connect that prepared the row and does not find it connected at the re-read does, whatever is stored for it
  (`DestroysExactly`): a caller that looked before and prepares after the first one finished, or that prepared
  early and meets the row after a refresh took it off Connected, deletes the other caller's key and account when
  its own write fails
  (`LatePreparationDestroys`, `EarlyPreparationDestroys`).
- The package verifier turns backslashes in file names into slashes before it compares, so on systems where a
  backslash is an ordinary character an undeclared file can hide behind a declared one
  (`PackageIndex.BackslashHides`, exact in `AddedFileAccepted` and `NothingUndeclared`).
- For a health response longer than 8192 bytes the answer can depend on how the bytes arrive
  (`HttpResponse.CutsMatterExactly`).
- The builder accepts a name such as `a..b`, the verifier refuses it (`DotsPassOnlyTheBuilder`,
  `BuiltPackagePasses`).
- The tombstone clearing of the authorization registry and its `Cancelled` answer are unreachable
  (`Authorization.TakeNeverFindsCancelled`, `TrimKeeps`), and a completion under way can be cancelled only
  until the next insertion (`CancelReachesExactly`, `CancelComesTooLate`).

## Model
| member | source | states |
|---|---|---|
| Framer.ConsumeBuffer | src-tauri/src/agents/managed_runtime.rs:1225-1253 | one pass over a read buffer from any point of the stream emits exactly the events the bytes add, and keeps pending bytes and the discard flag in step with the last line |
| Framer.ReadBoundedFrames | src-tauri/src/agents/managed_runtime.rs:1210-1258 | for every cut into reads, end of stream and receiver that hangs up, the events sent are the first ones of a pure function of the whole stream |
| Framer.SentGrows | src-tauri/src/agents/managed_runtime.rs:1210-1258 | more input only appends events |
| Framer.EventsOfLines | src-tauri/src/agents/managed_runtime.rs:1225-1258 | exactly one event per terminated line in order (less one carriage return, or Oversized) and at most one for the rest |
| Framer.EveryStreamIsLines | src-tauri/src/agents/managed_runtime.rs:1210-1258 | every byte string is terminated lines and a rest, so the previous row covers every stream |
| Framer.WrittenFramesReadBack | src-tauri/src/agents/managed_runtime.rs:655-680 | any list of frames the stdin writer accepts is read back unchanged, one event each |
| Utf8.ValidExactly | src-tauri/src/agents/managed_runtime.rs:1188-1191 | the bytes taken as text are exactly those that encode some Unicode text |
| ByteText.FindExtends | src-tauri/src/agents/managed_runtime.rs:944-948 | a match stays the first match whatever is appended |
| ChunkedBody.TakeTurn | src-tauri/src/agents/managed_runtime.rs:909-940 | a turn at a cursor equals the turn at the start of the remaining bytes, with slices in range and sums below the word size |
| ChunkedBody.DecodeCompleteChunkedBody | src-tauri/src/agents/managed_runtime.rs:905-942 | the cursor loop computes the recursive decoding of the whole input |
| ChunkedBody.VerdictIsFinal | src-tauri/src/agents/managed_runtime.rs:905-942 | no extension of the input changes a decoded body or a refusal |
| ChunkedBody.DecodesWhatWasSent | src-tauri/src/agents/managed_runtime.rs:905-942 | every list of non-empty chunks of at most 512 bytes in all decodes to its concatenation, whatever follows |
| ChunkedBody.PrefixesAreIncomplete | src-tauri/src/agents/managed_runtime.rs:905-942 | every proper prefix of what was sent is incomplete, neither accepted nor refused |
| ChunkedBody.AcceptsOnlyWireFormat | src-tauri/src/agents/managed_runtime.rs:905-942 | whatever is decoded was chunks, a zero size line and an empty trailer section |
| ChunkedBody.DecodedExactly | src-tauri/src/agents/managed_runtime.rs:905-942 | an input decodes to a body if and only if it begins with a chunked form of that body |
| ChunkedBody.HexIsASizeLine | src-tauri/src/agents/managed_runtime.rs:912-916 | the plain hexadecimal form of a size is a size line for it |
| ChunkedBody.ExtensionIsIgnored | src-tauri/src/agents/managed_runtime.rs:912-916 | a chunk extension after the size makes no difference |
| HttpResponse.ParseHttpHeaders | src-tauri/src/agents/managed_runtime.rs:870-903 | the header loop with its early refusals gives the framing that the set of field lines declares |
| HttpResponse.ReadFramedHttpBody | src-tauri/src/agents/managed_runtime.rs:829-868 | for every cut into reads of 1 to 1024 bytes the result is that of one function of the bytes that fit the bound |
| HttpResponse.CutsDoNotMatter | src-tauri/src/agents/managed_runtime.rs:829-868 | a stream of at most 8192 bytes has one answer however it is cut |
| HttpResponse.EarlyDecisionIsFinal | src-tauri/src/agents/managed_runtime.rs:829-868 | a longer stream whose first bytes decide has that answer however it is cut |
| HttpResponse.CutsMatterExactly | src-tauri/src/agents/managed_runtime.rs:829-868 | the answer depends on how a stream is cut if and only if it is longer than 8192 bytes, its first 8192 contain a whole body and its first 7169 do not decide |
| HttpResponse.LongHeadersMakeItMatter | src-tauri/src/agents/managed_runtime.rs:829-868 | such is every stream whose Content-Length body ends past byte 7169 and within 8192 with more bytes behind |
| HttpResponse.ResponseVerdictIsFinal | src-tauri/src/agents/managed_runtime.rs:829-868 | more bytes never change a verdict on a response |
| HttpResponse.ReadsLengthBody | src-tauri/src/agents/managed_runtime.rs:841-861 | a Content-Length response yields exactly its body |
| HttpResponse.ReadsChunkedBody | src-tauri/src/agents/managed_runtime.rs:841-861 | a chunked response yields exactly the chunks' concatenation |
| HttpHeaders.FramesLength | src-tauri/src/agents/managed_runtime.rs:870-903 | a block of plain fields, names in any casing and blanks around values, with one Content-Length in plain decimal up to 512 and no encoding frames that many bytes |
| HttpHeaders.FramesChunked | src-tauri/src/agents/managed_runtime.rs:870-903 | a block with a chunked Transfer-Encoding in any casing and no length frames a chunked body |
| HttpHeaders.OtherStatusIsRefused | src-tauri/src/agents/managed_runtime.rs:870-875 | any other first line is refused, whatever follows |
| HttpHeaders.ClashIsRefused | src-tauri/src/agents/managed_runtime.rs:876-903 | two lengths, a length beside an encoding, or another encoding are refused |
| HttpHeaders.LongLengthIsRefused | src-tauri/src/agents/managed_runtime.rs:886-889 | a length above 512 is refused |
| HttpHeaders.WordyLengthIsRefused | src-tauri/src/agents/managed_runtime.rs:886 | a length that is no decimal number is refused |
| HttpHeaders.UnframedIsRefused | src-tauri/src/agents/managed_runtime.rs:898-902 | neither a length nor an encoding is refused |
| HttpHeaders.ReadsPlainLengthResponse | src-tauri/src/agents/managed_runtime.rs:829-903 | a response written with such a block is read as exactly its body |
| HttpHeaders.ReadsPlainChunkedResponse | src-tauri/src/agents/managed_runtime.rs:829-942 | a response written as chunked is read as the concatenation of its chunks |
| StderrTail.BoundedText.PushLine | src-tauri/src/agents/managed_runtime.rs:1180-1197 | the tail becomes the specified cut of text, newline and line, at a character boundary and within the bound |
| StderrTail.FindCut | src-tauri/src/agents/managed_runtime.rs:1188-1194 | the boundary search and the newline search find the specified cut |
| StderrTail.PushedIsValid | src-tauri/src/agents/managed_runtime.rs:1180-1197 | every push leaves valid UTF-8 within the bound |
| StderrTail.TailIsBoundedSuffix | src-tauri/src/agents/managed_runtime.rs:1167-1197 | after any pushes the tail is within its bound, valid UTF-8 and a suffix of the newline-joined log |
| StderrTail.TailIsWholeLines | src-tauri/src/agents/managed_runtime.rs:1167-1197 | if every line is newline-free and fits, the tail is the join of the last k lines, k at least one; and if none is empty, k is all of them or one more would reach the bound |
| RuntimeEntry.RuntimeEntry.Push | src-tauri/src/agents/managed_runtime.rs:1119-1134 | a full queue refuses the frame or drops its oldest one, by policy |
| RuntimeEntry.RuntimeEntry.Pop | src-tauri/src/agents/managed_runtime.rs:1089-1117 | reads come from the front |
| RuntimeEntry.LifeKept | src-tauri/src/agents/managed_runtime.rs:1261-1429 | every step of every thread keeps the lifecycle invariant |
| RuntimeEntry.FrameKept | src-tauri/src/agents/managed_runtime.rs:1431-1478 | every step of every thread, sends until the receiver is dropped included, keeps the account of frames sent, received, accepted and delivered |
| RuntimeEntry.RunInvariants | src-tauri/src/agents/managed_runtime.rs:1261-1429 | both invariants hold in every state of every run |
| RuntimeEntry.FinishedExactlyOnce | src-tauri/src/agents/managed_runtime.rs:1038-1050 | the monitor finishes an entry once; a termination record exists exactly in terminal states, a failure code exactly in Failed, and only listed combinations occur |
| RuntimeOutcome.EndSaysWhatHappened | src-tauri/src/agents/managed_runtime.rs:1356-1415 | in every run a finished entry has one cause (gone by itself, poll error, rejected probe, refused output, stop), and lifecycle, kind, exit code and failure code that follow from it |
| RuntimeOutcome.CleanExitExactly | src-tauri/src/agents/managed_runtime.rs:1357-1399 | a clean exit if and only if the process was polled gone with status 0, the drain refused nothing and the entry was ready; a graceful stop if and only if the first reason was a request and the process was seen gone before the wait was given up |
| RuntimeOutcome.EveryRunIsTold | src-tauri/src/agents/managed_runtime.rs:1261-1429 | every run has steps that tell its story, so the two rows above speak of every run |
| RuntimeOutcome.ReadyExactly | src-tauri/src/agents/managed_runtime.rs:748-778 | a starting entry becomes ready with the expected line where it is looked for or a healthy answer, and with nothing else |
| RuntimeOutcome.LauncherIsTold | src-tauri/src/agents/managed_runtime.rs:1672-1706 | in every run the launcher gets a handle from a ready entry only, and a refusal that names the timeout or the entry's own end |
| RuntimeEntry.VerdictsAreFinal | src-tauri/src/agents/managed_runtime.rs:1020-1064 | terminal states are absorbing and the first stop reason never changes, over whole runs |
| RuntimeEntry.ExitedWasReady | src-tauri/src/agents/managed_runtime.rs:1481-1598 | an entry that exited, or whose launcher has a handle, was Ready at an earlier moment |
| RuntimeEntry.FailClosedHasNoGap | src-tauri/src/agents/managed_runtime.rs:1119-1134 | fail-closed: delivered plus queued frames are all received frames but legacy lines until a failure or stop and at every clean exit; at a clean exit they are all frames ever sent if and only if none was sent after the channel was last seen empty, in particular if the readers were done by then |
| RuntimeEntry.LateIsWhatIsLeft | src-tauri/src/agents/managed_runtime.rs:1600-1633 | once the drain has seen the channel empty, what the channel holds is exactly what the readers sent since |
| RuntimeEntry.CleanExitCanLoseAFrame | src-tauri/src/agents/managed_runtime.rs:1357-1388 | for any two frames, a run in which the second is sent between the last empty poll and the drop of the receiver: a clean exit without it and without the truncation note |
| RuntimeOutcome.LostExactly | src-tauri/src/agents/managed_runtime.rs:1431-1478 | a received frame goes missing with a refusal of the fail-closed policy, or behind one in the same drain, and in no other way |
| RuntimeEntry.DropOldestKeepsASuffix | src-tauri/src/agents/managed_runtime.rs:1119-1134 | drop-oldest: the queue is a contiguous suffix of the accepted frames and reads go forward without repeats |
| RuntimeEntry.BoundsHold | src-tauri/src/agents/managed_runtime.rs:1119-1134 | at most 256 queued frames and 64 events in the channel, nothing lost in the channel |
| Supervisor.LeaseTable.Acquire | src-tauri/src/agent_accounts/runtime_profile.rs:301-315 | a lease is counted only after revalidation and below the word bound |
| Supervisor.LeaseTable.Release | src-tauri/src/agent_accounts/runtime_profile.rs:595-608 | a count goes down and disappears at zero |
| Supervisor.LeaseTable.InUse | src-tauri/src/agent_accounts/runtime_profile.rs:510-517 | the guard of a purge |
| Supervisor.EntryTable.RemoveIfSame | src-tauri/src/agents/managed_runtime.rs:569-578 | only the named entry is removed, all others stay |
| Supervisor.InvKept | src-tauri/src/agents/managed_runtime.rs:456-485 | every step keeps table, holders, lease counts and directories in agreement; validating and counting a lease are two steps, and a preserve may come between |
| Supervisor.NoTwoRunnersShareAKey | src-tauri/src/agents/managed_runtime.rs:465-485 | in every run two admitted or running entries never share a key |
| Supervisor.AdmittedExactly | src-tauri/src/agents/managed_runtime.rs:465-475 | in every run a launch is refused as a duplicate if and only if an unfinished entry holds its key; otherwise the table names it, and exactly the unfinished entries stay |
| Supervisor.LateRemovalSparesOthers | src-tauri/src/agents/managed_runtime.rs:1653-1670 | a late removal by an old monitor or a failed launch takes out its own entry only |
| Supervisor.LeasesAreCounted | src-tauri/src/agent_accounts/runtime_profile.rs:595-608 | a profile's count is the number of entries and terminal sessions still leasing it, never a stored zero, and everything somebody can reach has its lease |
| Supervisor.ProfileOutlivesItsEntries | src-tauri/src/agent_accounts/runtime_profile.rs:501-529 | while an entry or session is alive no purge has removed or damaged its directory and none can start |
| Supervisor.PurgedForever | src-tauri/src/agent_accounts/runtime_profile.rs:501-529 | after a purge that removed a profile or its records no launch ever gets an entry on it |
| Supervisor.RetiredUntilRevived | src-tauri/src/agent_accounts/runtime_profile.rs:301-347 | while a profile stays preserved, damaged or removed, at most one new entry appears on it, and it belongs to the acquisition that had validated it before |
| Supervisor.LateLaunchExactly | src-tauri/src/agent_accounts/runtime_profile.rs:301-347 | for every run ending with a retired profile, one more entry without a revival is possible if and only if an acquisition that validated it is pending and the count has room |
| Supervisor.EntriesWereValidated | src-tauri/src/agent_accounts/runtime_profile.rs:301-315 | every entry belongs to an acquisition that saw its profile active and held the lease table from then on |
| Supervisor.LaunchAfterPreserve | src-tauri/src/agent_accounts/runtime_profile.rs:301-315 | for every key, a run in which a process runs on a profile preserved before its entry was made |
| Supervisor.OnlyFailedPurgesRevive | src-tauri/src/agent_accounts/runtime_profile.rs:521-529 | a step makes a retired profile launchable again if and only if it is a purge that fails after deleting the newest record |
| Supervisor.LaunchAfterFailedPurge | src-tauri/src/agent_accounts/runtime_profile.rs:521-529 | for every key, a run in which that happens |
| RecordName.NameRoundTrip | src-tauri/src/agent_accounts/runtime_profile.rs:622 | formatting any 64-bit generation and nonce and parsing the name returns that generation |
| RecordName.ParsedNamesAreFormatted | src-tauri/src/agent_accounts/runtime_profile.rs:743-756 | every name that parses is the formatted name of its generation and nonce |
| ProfileLog.PickNewest | src-tauri/src/agent_accounts/runtime_profile.rs:717-731 | the maximum and filter loops answer with the one record above all others, and refuse if there is none |
| ProfileLog.ReadProfileRecord | src-tauri/src/agent_accounts/runtime_profile.rs:676-732 | for every listing order, the scan with its early refusals returns the register's value |
| ProfileLog.ReadIgnoresOthers | src-tauri/src/agent_accounts/runtime_profile.rs:676-688 | temporary and foreign files do not exist for a reader |
| ProfileLog.AppendReads | src-tauri/src/agent_accounts/runtime_profile.rs:676-732 | what one more record makes of a readable log, in every case: new record, old record, or unreadable |
| RecordOrder.RankIsIndex | src-tauri/src/agent_accounts/runtime_profile.rs:664 | in the sorted order a record's position is the number of newer records |
| RecordOrder.SortOrders | src-tauri/src/agent_accounts/runtime_profile.rs:664 | sorting distinct names gives a strict newest-first order of the same names |
| RecordOrder.PruneBound | src-tauri/src/agent_accounts/runtime_profile.rs:664-673 | pruning leaves exactly the newest 128, plus the written record only when 128 others are newer |
| ProfileWrite.ProfileDirectory.PruneProfileRecords | src-tauri/src/agent_accounts/runtime_profile.rs:644-674 | success leaves exactly the kept files, and comes whenever the removals work; at every point in between no kept file is missing |
| ProfileWrite.ProfileDirectory.WriteTemporary | src-tauri/src/agent_accounts/runtime_profile.rs:620-633 | no point of writing the temporary file is visible to a reader |
| ProfileWrite.ProfileDirectory.WriteProfileRecord | src-tauri/src/agent_accounts/runtime_profile.rs:615-642 | every point a crash or failure can leave reads the old record and from the rename on the new one; a write whose calls all work succeeds, and success reads the new record with at most 128 left |
| ProfileWrite.WriteReads | src-tauri/src/agent_accounts/runtime_profile.rs:615-642 | the same as a statement about the points alone |
| ProfileWrite.PruningKeepsCurrent | src-tauri/src/agent_accounts/runtime_profile.rs:644-674 | no complete or partial pruning changes what a reader gets |
| ProfileWrite.PruningBounds | src-tauri/src/agent_accounts/runtime_profile.rs:664-673 | pruning around the current record leaves the smaller of 128 and all records |
| ProfileRace.InvKept | src-tauri/src/agent_accounts/runtime_profile.rs:470-499 | every step of any number of overlapping preserves keeps the greatest record ever written in place |
| ProfileRace.PreservedForever | src-tauri/src/agent_accounts/runtime_profile.rs:321-347 | once one preserve has renamed its record in, the directory never again holds an active current record, and no handle revalidates against it |
| ProfileRace.ActiveUntilThen | src-tauri/src/agent_accounts/runtime_profile.rs:321-347 | until then readers get the original record and exactly its handles revalidate |
| ProfileRace.ReadableExactly | src-tauri/src/agent_accounts/runtime_profile.rs:717-731 | the directory as it stands is unreadable exactly when two new records are present or the log overflowed |
| ProfileRace.ExclusivePreservesStayReadable | src-tauri/src/agent_accounts/runtime_profile.rs:470-499 | preserves that do not overlap before their rename keep the log readable: old record, then new |
| ProfileRace.OverlapBreaksTheLog | src-tauri/src/agent_accounts/runtime_profile.rs:470-499 | from every active log with any two nonces, two overlapping preserves reach an unreadable log |
| ProfileReader.ReadWhileChanging | src-tauri/src/agent_accounts/runtime_profile.rs:676-732 | the scan over a directory that changes between its looks: refused if a listed record has vanished, else what the opened files say |
| ProfileReader.ContentStays | src-tauri/src/agent_accounts/runtime_profile.rs:615-674 | a record file there at two moments of a run holds the same both times |
| ProfileReader.ReadTakesEffectAtListing | src-tauri/src/agent_accounts/runtime_profile.rs:676-732 | a read overlapping any number of preserves returns what the register held when it listed; it is refused if and only if the register was unreadable then or a listed record was pruned before its turn |
| ProfileReader.ActiveReadsBeganBefore | src-tauri/src/agent_accounts/runtime_profile.rs:321-347 | whoever reads an active record had listed before the first rename |
| ProfileReader.StaleReadReturnsActive | src-tauri/src/agent_accounts/runtime_profile.rs:321-347 | from every active log, a read that ends after the rename and still returns the active record |
| AccountData.ActKeeps | src-tauri/src/agent_accounts/service.rs:668-769 | every store call of a session, working or failing before or after its effect, keeps every secret findable and what the session relies on |
| AccountData.ActIsLocal | src-tauri/src/agent_accounts/service.rs:668-992 | a call touches only its own row, cleanup record and secret |
| AccountData.LocalKeepsOthers | src-tauri/src/agent_accounts/service.rs:668-992 | so sessions on other accounts keep what they rely on |
| AccountData.DeleteRowKeepsStores | src-tauri/src/db/agent_accounts.rs:554-570 | deleting a row whose secret is gone strands nothing |
| AccountData.EditKeepsSession | src-tauri/src/agent_accounts/service.rs:290-305 | a preparation or expiry mark without the lock breaks no session's assumptions |
| AccountLocks.LockMap.LockAccount | src-tauri/src/agent_accounts/service.rs:1029-1057 | the known lock, a new one after pruning idle entries, or busy |
| AccountLocks.RequestKeepsUsed | src-tauri/src/agent_accounts/service.rs:1029-1057 | a request keeps the map within 64 and drops only locks nobody holds or awaits |
| AccountLocks.BusyExactly | src-tauri/src/agent_accounts/service.rs:1029-1050 | a request is refused as busy if and only if the account has no lock and 64 others are held or awaited |
| AccountLocks.ReleaseKeepsOthers | src-tauri/src/agent_accounts/service.rs:997-1006 | a release drops nothing else; its own pruning branch is never needed |
| AccountService.AccountStores.PutCredential | src-tauri/src/agent_accounts/credential_store.rs:376-411 | the secret is written unless the call fails before writing, and success is reported only then |
| AccountService.AccountStores.DeleteCredential | src-tauri/src/agent_accounts/credential_store.rs:428-447 | the same for deletion |
| AccountService.AccountStores.SetAccountState | src-tauri/src/db/agent_accounts.rs:450-474 | status and code of an existing row change, or the call fails |
| AccountService.AccountStores.DeleteMetadata | src-tauri/src/db/agent_accounts.rs:554-570 | a row goes only if it exists and has no cleanup record |
| AccountService.AccountStores.DrainCredentialCleanup | src-tauri/src/agent_accounts/service.rs:964-993 | the cleanup routine is the draining part of the session, call by call |
| AccountService.AccountStores.UndoConnect | src-tauri/src/agent_accounts/service.rs:695-752 | rollback, marking and disposal after a failed write are the session's steps |
| AccountService.AccountStores.ConnectLocked | src-tauri/src/agent_accounts/service.rs:668-769 | the connect body with its early returns plays the session to its end, for all answers |
| AccountService.AccountStores.DisconnectLocked | src-tauri/src/agent_accounts/service.rs:801-962 | the same for disconnect |
| AccountService.AccountStores.RefreshLocked | src-tauri/src/agent_accounts/service.rs:500-586 | the refresh body plays the session to its end, for all answers |
| AccountService.EveryCallCounts | src-tauri/src/agent_accounts/service.rs:500-993 | every session ends after at most eleven calls |
| AccountService.PlayKeeps | src-tauri/src/agent_accounts/service.rs:500-993 | an uninterrupted operation leaves both stores in order and ends as its outcome says |
| AccountEnds.RefreshSucceedsExactly | src-tauri/src/agent_accounts/service.rs:535-583 | a refresh succeeds if and only if the provider handed out what the row needs and every later call worked; then the store holds the provider's key and the row is connected with the expiry that follows |
| AccountEnds.RefreshFromReRead | src-tauri/src/agent_accounts/service.rs:500-583 | the same from the re-read on: an account that is leaving or has left is not refreshed |
| AccountEnds.DeniedRefresh | src-tauri/src/agent_accounts/service.rs:1082-1102 | a denial touches no secret and is noted as the provider put it |
| AccountEnds.RotatedRefresh | src-tauri/src/agent_accounts/service.rs:557-583 | what a rotated key leaves, call by call |
| AccountEnds.DisconnectEnds | src-tauri/src/agent_accounts/service.rs:801-962 | a disconnect ends with row, secret and left-over secret gone or with the row kept; never gone for an account that has to log out first, which keeps its secret; and it goes through whenever every call works |
| AccountEnds.DrainFailureIsNoted | src-tauri/src/agent_accounts/service.rs:753-826 | clearing up that cannot begin ends the operation, noted as an error of a connect or a disconnect to retry |
| AccountEnds.ConnectSucceeds | src-tauri/src/agent_accounts/service.rs:668-769 | when every call works a connect succeeds, with the presented key stored and the row connected |
| Accounts.InvKept | src-tauri/src/agent_accounts/service.rs:500-1057 | every step of any number of interleaved operations keeps locks, rows and secrets in order |
| Accounts.EverySecretIsFound | src-tauri/src/agent_accounts/service.rs:668-769 | in every run every stored secret is reachable from a row or a cleanup record |
| Accounts.RowsOutliveTheirSecrets | src-tauri/src/agent_accounts/service.rs:925-962 | in every run a row is deleted only when its secret is gone and nothing is left to clean up |
| Accounts.OneSessionPerAccount | src-tauri/src/agent_accounts/service.rs:668-676 | at most one operation per account is past its re-read while the row exists |
| Accounts.LocksInUseStay | src-tauri/src/agent_accounts/service.rs:997-1057 | the map never exceeds 64, and an entry goes only if nobody holds or awaits it or its row is deleted |
| Accounts.DisconnectShowsFirst | src-tauri/src/agent_accounts/service.rs:925-962 | a disconnect deletes secret and row only with the cleanup done and the row shown as revoked first |
| Accounts.ConnectedMeansStored | src-tauri/src/agent_accounts/service.rs:557-583 | a row becomes connected only while the store holds the key the caller presented or the provider handed out |
| Accounts.ConnectsKeepToTheirProduct | src-tauri/src/agent_accounts/service.rs:638-660 | in every run a connect only works on an account of its own product, and only of one that takes API keys |
| AccountOutcomes.ReconnectOutcome | src-tauri/src/agent_accounts/service.rs:695-752 | in every run a reconnect that read the old key ends with the new key, with old key and old row, or after a failed rollback; then the old key is lost unmarked if and only if another key got written, the rollback took no effect, and the mark failed on an unmarked row or has been overwritten without the lock |
| AccountOutcomes.PlayLosesKeyExactly | src-tauri/src/agent_accounts/service.rs:695-752 | left to itself, it loses the old key unmarked if and only if a different key was written, the secret or metadata write failed, the rollback took no effect and marking failed on an unmarked row: an iff over all answers |
| AccountOutcomes.OldKeyCanBeLostUnmarked | src-tauri/src/agent_accounts/service.rs:701-717 | a run that ends with the new key under the old row and no mark |
| AccountOutcomes.DestroysExactly | src-tauri/src/agent_accounts/service.rs:660-677 | for every run, a connect that re-reads its row while a readable key is stored can leave nothing stored there if and only if it prepared the row itself and does not find it connected |
| AccountOutcomes.FoundKeysSurvive | src-tauri/src/agent_accounts/service.rs:677-752 | a connect that treats the account as existing never leaves it without a key, whatever fails and whoever else runs |
| AccountOutcomes.LatePreparationDestroys | src-tauri/src/agent_accounts/service.rs:660-677 | a run in which a late preparation ends in the deletion of a connected account and its key |
| AccountOutcomes.EarlyPreparationDestroys | src-tauri/src/agent_accounts/service.rs:520-533 | the same loss without a late preparation: an early one, and a refresh that took the connected row off that status |
| Authorization.AttemptRegistry.Sweep | src-tauri/src/agent_accounts/authorization.rs:166-184 | exactly the expired and cancelled attempts go, with their flags |
| Authorization.AttemptRegistry.Insert | src-tauri/src/agent_accounts/authorization.rs:140-224 | refusals, sweep, bound, trimming and the shared flag of the new attempt |
| Authorization.AttemptRegistry.Take | src-tauri/src/agent_accounts/authorization.rs:229-279 | the attempt is gone whatever the answer, its flag with every refusal |
| Authorization.AttemptRegistry.Cancel | src-tauri/src/agent_accounts/authorization.rs:281-296 | afterwards no take of the id gets an attempt and it has no flag left, while every other id keeps its attempt and flag; the answer says whether there was a flag |
| Authorization.AttemptRegistry.Finish | src-tauri/src/agent_accounts/authorization.rs:298-302 | the table entry goes |
| Authorization.InvKept | src-tauri/src/agent_accounts/authorization.rs:140-302 | every operation keeps bounds, sharing and distinctness of flags |
| Authorization.TrimKeeps | src-tauri/src/agent_accounts/authorization.rs:188-197 | trimming leaves exactly the stored attempts' flags, so the clear never happens |
| Authorization.TakeNeverFindsCancelled | src-tauri/src/agent_accounts/authorization.rs:229-265 | in every run at most eight attempts and flags, shared flags, and no take that answers Cancelled or StateRequired |
| Authorization.TakeBurnsTheId | src-tauri/src/agent_accounts/authorization.rs:229-247 | any take or cancel uses an id up for the rest of the run |
| Authorization.CompletionMatchesInsertion | src-tauri/src/agent_accounts/authorization.rs:226-279 | a completed attempt was inserted for the same provider, product and harness with exactly the presented state, is in time, and was not cancelled or taken since |
| Authorization.StoredExactly | src-tauri/src/agent_accounts/authorization.rs:140-302 | an inserted attempt is stored, as it was inserted, until a take or cancel of it or an insertion made after it expired, and no longer |
| Authorization.TakeAnswersByHistory | src-tauri/src/agent_accounts/authorization.rs:229-279 | what every take answers, from the insertion and what happened since |
| Authorization.BusyExactly | src-tauri/src/agent_accounts/authorization.rs:166-187 | an insertion is refused as busy if and only if eight earlier ones are unexpired and neither taken nor cancelled |
| Authorization.CancelReachesExactly | src-tauri/src/agent_accounts/authorization.rs:188-302 | after a take that handed out its attempt, a cancel of it finds a flag if and only if no insertion has gone through since and it was neither finished nor cancelled |
| Authorization.FlagRaisedExactly | src-tauri/src/agent_accounts/authorization.rs:281-296 | the flag a completion was handed is raised if and only if a cancel of it came while the table still knew it |
| Authorization.CancelComesTooLate | src-tauri/src/agent_accounts/authorization.rs:188-302 | a run in which a completion under way can no longer be cancelled |
| PackageIndex.KeyTellsPairs | scripts/managed-runtimes/verify.ts:203-211 | a joined path and digest key comes from one pair only, even if the other side contains colons |
| PackageIndex.IndexPathExactly | scripts/managed-runtimes/verify.ts:94 | a path the index may hold is plain segments between single slashes without two dots in a row |
| PackageIndex.VerifyPackageFiles | scripts/managed-runtimes/verify.ts:78-112 | the file-list check accepts if and only if every entry is safe, present with its digest and unique, and the walk finds the same names |
| PackageIndex.CompareManifest | scripts/managed-runtimes/verify.ts:188-211 | the count and the one-way key inclusion accept if and only if the manifest lists the executable and every other file exactly once |
| PackageIndex.VerifyPrepared | scripts/managed-runtimes/verify.ts:187-211 | both together |
| PackageIndex.SameMembers | scripts/managed-runtimes/verify.ts:201-211 | the pigeonhole step: equal counts and one inclusion give equality without repetition |
| PackageIndex.AcceptedMeansSame | scripts/managed-runtimes/verify.ts:84-211 | after acceptance index and manifest hold the same path and digest pairs, all on disk, no resource twice, and every file called executable has the bit |
| PackageIndex.NothingUndeclared | scripts/managed-runtimes/verify.ts:106-109 | nothing else is on disk if and only if no file name contains a backslash |
| PackageIndex.AddedFileAccepted | scripts/managed-runtimes/verify.ts:106-109 | one more file leaves an accepted package accepted if and only if its name, backslashes read as slashes, is a declared one and the walk has room |
| PackageIndex.BackslashHides | scripts/managed-runtimes/verify.ts:106-109 | for every accepted package and every slash in a declared path, a file with a backslash there is accepted by both comparisons and declared by none |
| PackageIndex.SafePathInIndex | scripts/managed-runtimes/manifest.ts:134-148 | a path the builder accepts passes the index check if and only if it has no two dots in a row |
| PackageIndex.DotsPassOnlyTheBuilder | scripts/managed-runtimes/manifest.ts:134-148 | such a path |
| PackageIndex.BuiltPackagePasses | scripts/managed-runtimes/manifest.ts:352-382 | every package built from 1 to 128 distinct safe files with executable, license and notice passes if and only if no name has two dots in a row |
| IdentityKey.HashInput | src-tauri/src/agent_accounts/models.rs:699-709 | the loop over the fields feeds the hash the length-prefixed encoding |
| IdentityKey.EncodingInjective | src-tauri/src/agent_accounts/models.rs:699-709 | equally many fields with the same encoding are the same fields |
| IdentityKey.SameInputSameIdentity | src-tauri/src/agent_accounts/models.rs:692-711 | two identities are hashed from the same bytes if and only if they agree, an absent workspace counting as an empty one |

## Left out
- Process control (spawning, signals, groups, job objects): a process is still running, gone with a status, or in error.
- Clocks, condition variables and sockets: timeouts are steps that may happen at any time, a stream is a sequence of reads and an end.
- Redaction of secrets in diagnostics, zeroizing and the generation of passwords and random ids; a new id or lock is one never used before.
- Words are 64 bits wide where the width matters (`usize` sums in the chunked decoder, lease counts, generations).
- Poisoned mutexes, panicked or abandoned blocking tasks, and futures dropped in the middle of an operation.
- File permissions, symbolic links and canonical paths of profile directories; a directory listing is one step, and a crash is one of the process, not of the machine.
- The checks of a profile record that look at that record alone (formats, product table) are one flag of the record.
- complete_authorization and persist_runtime_managed_account: they take no account lock and are not interleaved with the locked operations; a caller-supplied account id is one already given out or never used.
- JSON, SQLite, the keychain and SHA-256: decoding either gives a value or fails, database calls happen or fail as a whole, digests are compared as text.
- Credential envelopes (`is_valid`, `decode_envelope`): a stored secret is a readable key or an unreadable one.
- Provider calls in refresh and disconnect: their answers are arbitrary; the error codes they lead to are told apart only where the code depends on it.
- The shape checks of the JSON documents in `verify.ts`, publisher evidence and the remaining fields of the runtime manifest.
- The CLI adapters, tray, windows and the React and Swift front ends.
