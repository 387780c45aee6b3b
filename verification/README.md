# Zync: protocols, codecs and file handling

Zync is a desktop SSH client. Behind its windows stand several protocols and codecs: concurrent
connect, cancel and reconnect calls over shared tables; a forwarded SSH agent that asks for consent;
files that must survive a crash; exporters with importers; shell commands built from paths; the
batching of terminal output; recursive work on remote trees; and the settings with their
last-known-good backup. This project models them in Dafny and proves what they promise. Nothing was
executed: the results are about the model, which follows the cited lines branch by branch.

The modules, by component:

| component | modules |
|---|---|
| connect, cancel, disconnect, reconnect | ConnectTables, AppStateModel, ConnectProtocol, ConnectSafety, ConnectHandles, ConnectSharing, ConnectAnswers, ConnectGeneration, ConnectProgress, ConnectCommands |
| forwarded agent | WireCodec, Utf8, AgentRequests, ConsentProtocol, ConsentSafety, ConsentOutcomes, ConsentCommands |
| known hosts | Text, Numbers, KnownHosts |
| crash-safe replacement | DiskModel, AtomicReplace, ReplaceOutcome, CrashSafety, CrashFrame, CrashRuns |
| identity migration | FileTree, IdentityMigration |
| remote trees | FileTree, RemoteSize, RemoteCopy, CopyOutcome, RemoteTransfer, RemoteDelete, BatchCopy |
| CSV export and import | Text, Numbers, Csv, CsvConnections, CsvColumns, CsvRoundTrip |
| OpenSSH configuration export and import | Text, Numbers, SshConfig, SshConfigComments, SshConfigLines, SshConfigBlocks, SshConfigExport, SshAliases, SshConfigRoundTrip |
| shell commands | ShellLexer, ShellCommands, UtilityArguments |
| terminal output | PtyOutput, LocalOutput |
| settings | Json, SettingsSchema, SettingsStore |
| key paths, icons | LexicalPath, IcoFrames, IcoFiles |

How the pieces fit together:

- Where the source changes something in place, a class or a method does, and its contract equates the
  new state with a function of the old one or states the promise outright. The lemmas are about those
  functions, or about whole runs.
- Concurrent code is a state machine. Every lock-held block is one step; between two steps any other
  call may take any number of its own.
- What the operating system, the network or a library answers is an argument or an arbitrary choice,
  so every pattern of failures is covered. Time is a choice as well: a timer may fire and a timeout may
  strike whenever it is armed.

Results a maintainer may want to know about:

- `durable_replace` first removes the `.bak` sibling of its target, whoever it belongs to: writing `known_hosts`
  deletes `known_hosts.bak` (`CrashRuns.LegacyIsDeleted`). A target whose own name ends in `.bak` is that
  sibling, and a crash or a failure after the removal loses it (`CrashSafety.SafeExactlyWhenLegacyIsAnotherFile`).
- A marker for the identity migration cannot be written when the old directory has a directory of the
  marker's name or of its `.bak` name; such a directory is never migrated
  (`IdentityMigration.MigrateDefaultDir`).
- Deleting a remote path that is a link to a directory empties the directory it leads to and then fails
  (`RemoteDelete.DeletesOnlyItsOwnSubtree`).
- A server-to-server copy ignores it when a directory cannot be created. Every file and every directory with a
  file below it arrives in any case; a new directory without one can be missing after a copy that succeeds
  (`RemoteCopy.SuccessMeansAllDirectories`).
- A local terminal stops at the first report of an end, and its two writers are not ordered: output is lost when
  the exit code overtakes it, and the exit code is lost when the end of the output comes first
  (`LocalOutput.OutputIsWholeExactly`).
- A sign request that has looked for a session approval just before one is stored is put to the user all the
  same (`ConsentSafety.ApprovalCanComeTooLate`).
- None of the shell commands has a `--` before its paths, so a path that begins with `-` is taken for an option
  (`UtilityArguments.RemovesThePaths` and the lemmas beside it say when).
- Rewriting `known_hosts` loses a blank line when that line is all that is kept, and a carriage return at the end
  of a line (`KnownHosts.RewrittenTextReadsBack`).
- Two exported connections written under the same alias make jump references resolve to the first of
  them (`SshConfigRoundTrip.JumpsResolve`).

## Model

| member | source | states |
|---|---|---|
| AppStateModel.AppState.RegisterAttempt | src-tauri/src/commands.rs:978-992 | A new attempt takes the slot whatever was in it, and exactly a connecting predecessor's task is aborted |
| AppStateModel.AppState.FailPrepare | src-tauri/src/commands.rs:1027-1045 | A failed preparation removes only its own slot in preparation, and the answer tells cancelled, failed and superseded apart |
| AppStateModel.AppState.CheckPrepared | src-tauri/src/commands.rs:1047-1063 | The check before spawning goes on only with the own, uncancelled slot, and drops a cancelled one |
| AppStateModel.AppState.PublishTask | src-tauri/src/commands.rs:1071-1098 | The check after spawning turns the own, uncancelled slot into a connecting one, drops a cancelled one and leaves a foreign one alone |
| AppStateModel.AppState.TakeOwnership | src-tauri/src/commands.rs:1133-1146 | A call owns its attempt exactly when the slot is connecting under its id, and then removes it |
| AppStateModel.AppState.CancelConnect | src-tauri/src/commands.rs:1199-1241 | A matching cancel flags a slot in preparation and removes a connecting one, whose task is then aborted; any other cancel changes nothing |
| AppStateModel.AppState.Install | src-tauri/src/commands.rs:1178-1183 | An install replaces the entry, raises its generation by one modulo 2^64 or starts at 0, and brings its own lock object |
| AppStateModel.AppState.ReplaceIfUnchanged | src-tauri/src/commands.rs:2960-2976 | A reconnect replaces the entry only at the expected generation, keeps its lock object, and reports which of the three cases it met |
| ConnectSafety.InvariantHolds | src-tauri/src/commands.rs:962-1241 | In every state of every run, slots, call phases, handles and reconnect locks agree |
| ConnectSafety.RevokedExactly | src-tauri/src/commands.rs:978-992 | An attempt counts as revoked exactly if some earlier step was a matching cancel or a newer call taking its slot |
| ConnectSafety.RevokedNeverInstalls | src-tauri/src/commands.rs:1133-1197 | In every interleaving an attempt that a cancel matched, or whose slot a newer attempt took, never installs a handle, before or after |
| ConnectSafety.PreparationChecksAreExact | src-tauri/src/commands.rs:1047-1098 | Both checks during preparation let a call go on if and only if it has not been revoked so far |
| ConnectSafety.OwnershipIsExact | src-tauri/src/commands.rs:1133-1183 | A call with a delivered handle goes on to install it if and only if it has not been revoked so far, and otherwise disconnects it |
| ConnectSafety.NoSlotLeft | src-tauri/src/commands.rs:1133-1146 | Past the ownership check nothing can cancel or supersede a call any more |
| ConnectSafety.HandleConserved | src-tauri/src/commands.rs:1099-1197 | Once a call has returned, a handle its task delivered was installed or disconnected, exactly one of the two |
| ConnectSafety.QuiescentTableIsEmpty | src-tauri/src/commands.rs:1027-1146 | Every slot belongs to a call in flight; with none in flight the slot table is empty |
| ConnectSafety.CallReturns | src-tauri/src/commands.rs:962-1197 | A call in flight is never blocked by others: its own next step is enabled and brings it nearer to returning, and no step of others takes it further away |
| ConnectHandles.InstallLeavesTheDelivered | src-tauri/src/commands.rs:1178-1183 | After an install the entry has the handle that the call's own task delivered, a lock of its own, and generation 0 in a new entry or one more than before; no other entry changes |
| ConnectHandles.ReplaceLeavesTheDialed | src-tauri/src/commands.rs:2960-2976 | After a reconnect's final check the entry has the dialed handle under the lock held, if the generation was the one read, and nothing changes otherwise; a missing and a changed entry are told apart |
| ConnectHandles.EntryIsTheLatest | src-tauri/src/commands.rs:1178-1183 | In every state of every run a connection is in the table exactly if a handle was put into its entry after it was last removed, and the handle there is the last one put |
| ConnectSharing.NothingIsShared | src-tauri/src/commands.rs:1178-1183 | In every state of every run no two connections have the same session or the same lock, none has the session a reconnect has just dialed, and no reconnect holds or waits for the lock of another connection |
| ConnectHandles.ReconnectTakesWhatItFinds | src-tauri/src/commands.rs:2904-2923 | A reconnect waits for the lock of the entry it finds and then reads the generation that stands there |
| ConnectAnswers.AbortedExactly | src-tauri/src/commands.rs:978-1241 | A task is asked to end exactly when its connecting slot is taken over or cancelled, or its call finds the slot lost at the second check; no other task is |
| ConnectAnswers.PreparationAnswers | src-tauri/src/commands.rs:1027-1098 | A call in preparation is told that it was superseded exactly when a newer call has taken its slot, and cancelled exactly when a cancel has matched it otherwise or made the preparation fail |
| ConnectAnswers.OutsideIsTakenOver | src-tauri/src/commands.rs:999-1131 | A call takes over what resolving came to and how its task ended |
| ConnectProgress.CommandsAreTaken | src-tauri/src/commands.rs:962-1241 | Connects with a new identifier, cancels, disconnects and reconnects can begin at any time |
| ConnectProgress.ReconnectIsNeverStuck | src-tauri/src/commands.rs:2904-2976 | A reconnect can take its next step, or waits for a lock whose holder can |
| ConnectProgress.ReconnectStepsEnd | src-tauri/src/commands.rs:2904-2976 | Each of its steps brings it nearer to its end, and no step of others touches it |
| ConnectGeneration.GenerationCountsInstalls | src-tauri/src/commands.rs:1178-1183 | While a connection is not removed, its generation is the starting one plus the number of installs, modulo 2^64, and nothing else changes the entry |
| ConnectGeneration.GenerationStrictlyRises | src-tauri/src/commands.rs:1178-1183 | While the starting generation plus the installs stays below 2^64, the generation of a connection that is not removed strictly rises with every install |
| ConnectGeneration.ReconnectIsCompareAndSwap | src-tauri/src/commands.rs:2915-2976 | The final check of a reconnect succeeds if and only if the number of handles installed since its read is a multiple of 2^64 |
| ConnectGeneration.ReconnectReplacesWhatItRead | src-tauri/src/commands.rs:2904-2976 | Below 2^64 installs a reconnect never overwrites a handle installed after its read, whatever lock object it holds |
| ConnectGeneration.SameLockExcludes | src-tauri/src/commands.rs:2904-2923 | Two reconnects past reading their generation never hold the same lock object |
| ConnectCommands.TakeStep | src-tauri/src/commands.rs:962-1241 | Each step of the protocol is one of the blocks above called on the shared tables, going on as the block answers |
| ConnectCommands.Execute | src-tauri/src/commands.rs:962-2976 | So the tables, after any schedule of the commands, are those of a run: no revoked attempt was installed, with no call in flight the slot table is empty, and every connection has the handle last put into its entry |
| WireCodec.TakeU32Exact | src-tauri/src/ssh.rs:314-318 | A length is read off exactly where its four big-endian bytes stand |
| WireCodec.TakeStringExact | src-tauri/src/ssh.rs:320-330 | A string is read off exactly where its encoding, as it is written, stands |
| WireCodec.Cursor.ReadU32 | src-tauri/src/ssh.rs:314-318 | Reading advances the cursor past four bytes, or fails on fewer |
| WireCodec.Cursor.ReadString | src-tauri/src/ssh.rs:320-325 | Reading advances the cursor past a length and that many bytes, or fails |
| WireCodec.DecodeExact | src-tauri/src/ssh.rs:332-369 | Data decodes to a request if and only if it is the full encoding of that request (RFC 4252 section 7), plain or host-bound; the decoding is unique and no trailing byte is accepted |
| WireCodec.RequestLayout | src-tauri/src/ssh.rs:332-369 | The encoding, field by field, with the constants of RFC 4252 section 7 and of the host-bound extension |
| Utf8.ValidUtf8Exactly | src-tauri/src/ssh.rs:343-343 | A user name is accepted if and only if it encodes some text in UTF-8 (RFC 3629 section 3) |
| WireCodec.RequestedUserExact | src-tauri/src/ssh.rs:332-369 | The user is returned if and only if the data is such an encoding for this user, key and algorithm |
| WireCodec.ParseUserauthSignatureRequest | src-tauri/src/ssh.rs:332-369 | The cursor-based parser returns exactly that user |
| AgentRequests.SignDispositionExact | src-tauri/src/ssh.rs:425-445 | The agent considers signing if and only if the payload is exactly a sign request for its key, with flags that select the signing key and data that this user's authentication signs |
| AgentRequests.SelectedAlgorithm | src-tauri/src/ssh.rs:371-386 | With the flags that select an RSA key it signs with SHA-256 or, for flag 4, with SHA-512, under the names of RFC 8332 section 3; other keys sign under their own name |
| AgentRequests.DisposeOfPayload | src-tauri/src/ssh.rs:412-445 | Payloads of type 11 ask for the identities; of all others exactly such sign requests, of type 13, reach the consent question, and the rest is refused |
| AgentRequests.DisposeOfSignRequest | src-tauri/src/ssh.rs:425-445 | The cursor-based reading of a sign request decides as specified |
| AgentRequests.IdentitiesReplyNamesTheKey | src-tauri/src/ssh.rs:418-424 | A client reads exactly the forwarded key out of the identities reply |
| AgentRequests.SignatureReplyReads | src-tauri/src/ssh.rs:388-410 | A client reads the algorithm and the signature back out of the reply, with nothing left over |
| ConsentProtocol.AgentConsentBroker.TryEnterGate | src-tauri/src/ssh.rs:106-106 | The gate is entered only when free |
| ConsentProtocol.AgentConsentBroker.InsertPending | src-tauri/src/ssh.rs:126-126 | A prompt becomes pending, and nothing else changes |
| ConsentProtocol.AgentConsentBroker.RemovePending | src-tauri/src/ssh.rs:150-150 | A prompt stops being pending, and nothing else changes |
| ConsentProtocol.AgentConsentBroker.Answer | src-tauri/src/ssh.rs:158-162 | An answer reaches a pending prompt and removes it; any other answer is dropped |
| ConsentSafety.InvariantHolds | src-tauri/src/ssh.rs:98-162 | In every state of every run, gate, pending prompts, answers and request phases agree |
| ConsentSafety.AnswersAreGiven | src-tauri/src/ssh.rs:146-162 | A recorded answer is exactly one that was given while the prompt was pending |
| ConsentSafety.SessionsAreAllowed | src-tauri/src/ssh.rs:446-465 | An agent signs for the session only if some prompt of this agent was answered so |
| ConsentSafety.SignatureIsJustified | src-tauri/src/ssh.rs:412-475 | Every signature follows an allow-once for that same request or an earlier allow-session for that agent, also across the window in which the flag is stored after the gate is released |
| ConsentSafety.SignsAtMostOnce | src-tauri/src/ssh.rs:446-475 | A request is signed at most once, so an allow-once justifies at most one signature |
| ConsentSafety.DeniedNeverSigns | src-tauri/src/ssh.rs:446-472 | A denied request never reaches signing, before or after |
| ConsentSafety.RefusedNeverSigns | src-tauri/src/ssh.rs:446-472 | Nor does one that was refused or expired |
| ConsentSafety.OnePromptAtATime | src-tauri/src/ssh.rs:106-156 | At most one prompt is pending at any time |
| ConsentSafety.SessionApprovalSticks | src-tauri/src/ssh.rs:107-109 | Once the flag is set, no request of that agent is put to the user that has not yet looked at the flag under the gate, whether it arrives later, waits for the gate or has just entered it |
| ConsentSafety.SeenTooEarlyIsPrompted | src-tauri/src/ssh.rs:107-126 | A request that has looked before the flag was set is put to the user |
| ConsentSafety.ApprovalCanComeTooLate | src-tauri/src/ssh.rs:446-465 | There is such a run: the user allows an agent for the session and is asked for it once more |
| ConsentSafety.NeverStuck | src-tauri/src/ssh.rs:98-162 | A request that has not been answered can always move on, itself or through the one that holds the gate |
| ConsentOutcomes.ReplyIsExplained | src-tauri/src/ssh.rs:446-475 | A reply is a signature exactly if one was made, a failure exactly if signing failed or the user's denial was received, and left out exactly if the prompt ran out or could not be shown |
| ConsentOutcomes.AllowedIsSigned | src-tauri/src/ssh.rs:446-472 | A request whose approval was received is on its way to signing or a signature was attempted |
| ConsentOutcomes.DecisionIsCarriedOut | src-tauri/src/ssh.rs:446-465 | Acting on an approval leads to signing, on a denial to a failure, on an expired prompt to no reply; exactly an allow-session sets the agent's flag |
| ConsentOutcomes.AllowedAgentIsNotAsked | src-tauri/src/ssh.rs:107-109 | A request of an allowed agent goes to signing at once, or gives the gate back without a prompt |
| ConsentOutcomes.StepsLeadToTheReply | src-tauri/src/ssh.rs:98-162 | Each step of a request brings it nearer to its reply, and no step of others takes it further away |
| ConsentCommands.TakeStep | src-tauri/src/ssh.rs:98-162 | Each step of the protocol is taken by calling the broker, and releases the gate where the guard goes out of scope |
| ConsentCommands.Execute | src-tauri/src/ssh.rs:98-475 | So on the broker, after any schedule of requests, answers and time-outs, at most one prompt is pending, every signature was allowed, every reply has its reason, and an allowed request goes on to signing |
| Text.LineEndings | src-tauri/src/ssh.rs:577-577 | A line ends at a line feed, alone or after a carriage return, and what follows the last one is a line as it stands |
| KnownHosts.FilterLines | src-tauri/src/ssh.rs:575-591 | The line filter with its counter keeps exactly the lines outside the match set, in order |
| KnownHosts.KeptLineSurvives | src-tauri/src/ssh.rs:577-590 | Every comment and every line outside the match set survives in its place |
| KnownHosts.KeptLineIsUndropped | src-tauri/src/ssh.rs:577-590 | And nothing else does |
| KnownHosts.ReplaceKnownHostKeys | src-tauri/src/ssh.rs:566-606 | The rewritten text is the kept lines and one entry for the host, with its port off the standard one, and the accepted key |
| KnownHosts.RewrittenTextReadsBack | src-tauri/src/ssh.rs:575-606 | It reads back as the kept lines and the entry if and only if the kept lines are not a single blank one and none ends in a carriage return |
| KnownHosts.HostHasExactlyTheNewKey | src-tauri/src/ssh.rs:566-609 | With a look-up that numbers lines the same way, in the rewritten file the host has exactly the new key, if and only if no kept line becomes one of the host by losing a carriage return at its end |
| KnownHosts.OtherHostsAreUnaffected | src-tauri/src/ssh.rs:566-609 | In the rewritten file a host the entry does not name and that shares no dropped line keeps its keys, as long as no lost carriage return changes what is read for it |
| KnownHosts.EntryFields | src-tauri/src/ssh.rs:596-605 | The fields of the written entry read back as the host and the key |
| KnownHosts.HostFieldNamesOneHost | src-tauri/src/ssh.rs:596-600 | The host is written as it is on port 22 and in brackets with its port otherwise, and no two hosts or ports share an entry |
| KnownHosts.VerifyServerKey | src-tauri/src/ssh.rs:518-564 | A key is accepted exactly when known or approved by this fingerprint and this kind of change, and the file is written only with that approval |
| AtomicReplace.WriteTempDurable | src-tauri/src/atomic_io.rs:51-60 | The file system passes exactly through create, write and sync of the temporary file, up to the first failure |
| AtomicReplace.FinalizeDurable | src-tauri/src/atomic_io.rs:105-138 | Then through the sync of the target and, but on Windows, of its directory |
| AtomicReplace.DoDurableReplace | src-tauri/src/atomic_io.rs:24-49 | The call passes through exactly the disks the specification lists, for every pattern of answers |
| AtomicReplace.DoReplaceWithBackup | src-tauri/src/atomic_io.rs:62-103 | So does staging the target aside with its retry and roll-back |
| AtomicReplace.DoSaveDiskCache | src-tauri/src/shell_icons.rs:132-193 | So does the icon cache writer |
| AtomicReplace.DoWriteAtomicFile | src-tauri/src/commands.rs:164-234 | So does the settings writer, on Windows and elsewhere |
| ReplaceOutcome.DurableReplaceSucceedsExactly | src-tauri/src/atomic_io.rs:24-138 | `durable_replace` returns `Ok` if and only if directory, temporary file, legacy backup, rename or staged retry, and syncs all work; then the target holds the new content; and what stands under target, temporary and backup name otherwise |
| ReplaceOutcome.SaveDiskCacheSucceedsExactly | src-tauri/src/shell_icons.rs:132-193 | The same for the icon cache writer |
| ReplaceOutcome.WriteAtomicFileSucceedsExactly | src-tauri/src/commands.rs:164-234 | The same for the settings writer |
| CrashSafety.DurableReplaceIsSafe | src-tauri/src/atomic_io.rs:24-108 | Over a disk that may still fall back to any directory since the last sync: at every disk passed, under every pattern of failures, the target is whole, new or an earlier content, or an earlier content is whole in a backup; `Ok` means the new content is in place; the target is missing on `Err` only when the restoring rename failed too |
| CrashSafety.DurableReplaceSurvivesCrashes | src-tauri/src/atomic_io.rs:24-108 | So whatever files a crash at any point leaves, nothing is lost; after `Ok` the new content is there for good where the directory is synced |
| CrashSafety.SafeExactlyWhenLegacyIsAnotherFile | src-tauri/src/atomic_io.rs:34-35 | Over an existing target this holds under every pattern of failures if and only if the target's name is not its own legacy backup name |
| CrashSafety.LegacyRemovalLosesTarget | src-tauri/src/atomic_io.rs:34-35 | For such a name even a call in which every answer is good passes through a disk at which a crash loses the file |
| CrashSafety.SaveDiskCacheIsSafe | src-tauri/src/shell_icons.rs:132-193 | The icon cache writer, which syncs no directory, never loses what was written either |
| CrashSafety.WriteAtomicFileIsSafe | src-tauri/src/commands.rs:164-234 | Nor does the settings writer |
| CrashFrame.DurableReplaceIsAround | src-tauri/src/atomic_io.rs:24-108 | At every disk passed, and in every directory a crash may bring back, only the given names have changed, no file but the temporary one, and a leftover temporary file is under no other name |
| CrashRuns.CallTouchesOnlyItsNames | src-tauri/src/atomic_io.rs:24-108 | Whichever writer is at work and wherever it is cut off, every name but its target, temporary file, backup and, for `durable_replace`, legacy backup is left as a crash before the call could have left it |
| CrashRuns.LegacyIsDeleted | src-tauri/src/atomic_io.rs:34-35 | A successful `durable_replace` has deleted the `.bak` sibling |
| CrashRuns.CallSettles | src-tauri/src/atomic_io.rs:24-49 | After a call, however it ended and with or without a sync of the directory, the next one may start |
| CrashRuns.RunSurvivesCrashes | src-tauri/src/commands.rs:164-234 | Over any number of calls of any of the three writers on one target, whatever the answers, a crash at any point leaves the target whole, as at first or as one of the calls so far wrote it, or a backup with such a content |
| CrashRuns.SyncedWriteStays | src-tauri/src/atomic_io.rs:105-138 | And once a `durable_replace` that synced the directory has returned `Ok`, nothing older comes back |
| IdentityMigration.CopyPath | src-tauri/src/identity_migration.rs:208-232 | A finished copy adds exactly the directories and regular files of the source; at every moment only the staging directory changes |
| IdentityMigration.CopyDirContents | src-tauri/src/identity_migration.rs:159-168 | So does copying the whole directory |
| IdentityMigration.WriteMarker | src-tauri/src/identity_migration.rs:234-248 | The marker is added, its legacy backup removed; it fails only if a call fails or a directory is in its way |
| IdentityMigration.Stage | src-tauri/src/identity_migration.rs:68-69 | Copy and marker together give a complete directory, or change nothing but the staging directory; without failing calls they succeed if and only if the marker fits |
| IdentityMigration.IsDirEffectivelyEmpty | src-tauri/src/identity_migration.rs:123-136 | A missing or empty directory is effectively empty; the answer is no where it cannot be told |
| IdentityMigration.FindSource | src-tauri/src/identity_migration.rs:58-63 | The first candidate that is a nonempty directory is found |
| IdentityMigration.SourceIsTheFirst | src-tauri/src/identity_migration.rs:58-63 | That source is the first candidate other than the target that has something in it, and there is none exactly if no candidate has |
| IdentityMigration.MarkerFitsExactly | src-tauri/src/identity_migration.rs:234-248 | The marker fits if and only if the source has no directory of its name or of its backup's |
| IdentityMigration.InstallStagedDir | src-tauri/src/identity_migration.rs:179-206 | At every moment the target is effectively empty or is the staged directory |
| IdentityMigration.MigrateDefaultDir | src-tauri/src/identity_migration.rs:53-84 | Started in any state that earlier starts, killed or not, may have left: at every moment the target is as it was, or empty, or a complete copy with its marker, and no other directory changes; without failing calls it ends complete if and only if it was or the marker fits, and an empty target becomes the copy of the first nonempty candidate |
| IdentityMigration.RestartsKeepThePromise | src-tauri/src/identity_migration.rs:53-84 | Over any number of kills and restarts the same holds between the first state and the last |
| RemoteSize.GetRemoteSize | src-tauri/src/commands.rs:6005-6047 | The worklist computes the recursive sum over what can be looked up and listed |
| RemoteSize.CountsAtMostAll | src-tauri/src/commands.rs:6005-6047 | Errors only make the sum smaller; without errors it is the size of all files |
| RemoteSize.CountsTheReached | src-tauri/src/commands.rs:6005-6047 | It is the sum over exactly the files that are reached by listing every directory above them and looking up everything on the way |
| RemoteCopy.CopyIsConfined | src-tauri/src/commands.rs:5729-5873 | Whatever the servers answer, only places of the source tree change; a finished copy has moved exactly all bytes and every file has arrived whole |
| RemoteCopy.CopyGranted | src-tauri/src/commands.rs:5729-5873 | When everything is granted and nothing of another kind is in the way, the destination is the source tree laid over what was there |
| RemoteCopy.DirectoriesOfFilesArrive | src-tauri/src/commands.rs:5753-5754 | Although failures to create directories are ignored, a copy that succeeds has every directory with a file below it |
| RemoteCopy.EmptyDirectoryCanBeMissing | src-tauri/src/commands.rs:5753-5754 | Any new directory without a file below it is missing after a copy that succeeds, when only its creation is refused |
| RemoteCopy.SuccessMeansAllDirectories | src-tauri/src/commands.rs:5729-5873 | Success means, under all answers, that every directory is there, if and only if each was there before or has a file below it |
| CopyOutcome.CopySucceedsExactly | src-tauri/src/commands.rs:5729-5873 | A copy succeeds if and only if it gets started at every place of the tree, every directory is listed, and every file is opened and written to its end, no directory standing in its place and one around it, there before or made on the way |
| FileTree.ListedExactly | src-tauri/src/commands.rs:5762-5764 | Of a listing everything is taken but `.` and `..` |
| RemoteTransfer.Transfer.CopyFile | src-tauri/src/commands.rs:5791-5870 | The chunk loop moves exactly the file's bytes, and its progress reports never go back nor ahead of the counter |
| RemoteTransfer.Transfer.CreateDirectory | src-tauri/src/commands.rs:5753-5754 | Creating a directory adds it where nothing is and there is a parent, and its failure is ignored |
| RemoteTransfer.Transfer.CopyRecursive | src-tauri/src/commands.rs:5729-5873 | The recursion with its running counter and reports leaves the store, the count and the result that the specification gives for the same answers |
| RemoteCopy.OverlayIsUnion | src-tauri/src/commands.rs:5753-5754 | The overlay is the source tree itself if and only if no directory of it finds something else in its place |
| RemoteTransfer.CopyToServer | src-tauri/src/commands.rs:5626-5665 | Measured without errors, no report runs ahead of the announced total, and a finished copy has moved exactly that |
| RemoteDelete.DeleteEntry | src-tauri/src/fs.rs:352-392 | Deleting a directory leaves nothing at it or below it and touches nothing else, links being removed themselves; every directory is removed when it is empty |
| RemoteDelete.DeleteListing | src-tauri/src/fs.rs:357-386 | The loop over a listing removes everything below the directory and nothing else, and stops at the first failure |
| RemoteDelete.DeleteRemote | src-tauri/src/fs.rs:334-392 | Where nothing is refused it succeeds exactly on a directory, a file, or a link to something else than a directory or a link; then of a directory exactly the subtree goes and otherwise exactly the entry; one that fails has removed only what a finished one removes |
| RemoteDelete.DeletesOnlyItsOwnSubtree | src-tauri/src/fs.rs:334-350 | Deleting touches nothing outside the path if and only if the path is no link to a directory with something in it |
| BatchCopy.CopyItems | src-tauri/src/commands.rs:4515-4571 | Success means that every item was copied exactly once and in order; the batch stops only at a failed or late copy, without a new session, or when the session closes once more than the retries allow |
| Csv.SplitCsvRow | src-tauri/src/commands.rs:2427-2457 | The scanner with its look-ahead splits a row as specified |
| Csv.RowReadsBack | src-tauri/src/commands.rs:2295-2301 | Splitting joined escaped fields gives back the fields, trimmed, whatever they contain (quoting as in RFC 4180 section 2) |
| Csv.QuotedExactly | src-tauri/src/commands.rs:2295-2301 | A field is quoted if and only if it has a comma, a quote, a line feed or a carriage return |
| CsvConnections.ListReadsBack | src-tauri/src/commands.rs:2311-2316 | A list that went through one field comes back as its trimmed nonempty pieces |
| CsvConnections.ParseCsvConnections | src-tauri/src/commands.rs:2467-2595 | The importer's loop over the rows does what is specified, with the column named by its error |
| CsvColumns.ImportNeedsItsColumns | src-tauri/src/commands.rs:2467-2487 | A file is imported exactly if it is blank or has, under either name, the columns for name, host and user; the error names a missing one |
| CsvColumns.OtherColumnsAreFound | src-tauri/src/commands.rs:2477-2505 | The other columns are the first under their name, or else under the alternative one |
| CsvColumns.BlankLinesDoNotCount | src-tauri/src/commands.rs:2468-2471 | A line counts exactly if it is not blank |
| CsvColumns.RowsAreReadAlone | src-tauri/src/commands.rs:2500-2595 | Every row is read on its own and what it stands for is in its place |
| CsvColumns.RowIsSkipped | src-tauri/src/commands.rs:2507-2511 | A row is skipped exactly without host or user |
| CsvColumns.RowNamesItsHost | src-tauri/src/commands.rs:2513-2537 | Otherwise an empty name becomes the host, an empty identifier a new one, and a port that is no number below 65536 becomes 22 |
| CsvColumns.RowKeepsItsTexts | src-tauri/src/commands.rs:2507-2591 | Texts and lists come from their columns, empty ones being left out |
| CsvColumns.RowKeepsItsNumbers | src-tauri/src/commands.rs:2562-2583 | So do the numbers and the flag, with the words that stand for yes and no |
| CsvRoundTrip.RowIsNormal | src-tauri/src/commands.rs:2318-2343 | The fields of an exported row make the normal form of the connection, or nothing without host or user |
| CsvRoundTrip.ImportOfExport | src-tauri/src/commands.rs:2720-2726 | Importing an exported file gives the normal form of every connection, as long as no text holds a line feed |
| CsvRoundTrip.RoundTripExactly | src-tauri/src/commands.rs:2467-2595 | It gives the exported list itself if and only if every connection is trimmed, has no empty text and no semicolon in a list |
| Numbers.DecimalReadsBack | src-tauri/src/commands.rs:2515-2515 | A printed number is parsed back if it is in range, and rejected otherwise |
| Numbers.ParsesExactly | src-tauri/src/commands.rs:2515-2515 | A text is parsed as a number exactly if it is its decimal form, with any zeros and one plus sign in front allowed, and in range |
| SshConfig.StripInlineComments | src-tauri/src/ssh_config.rs:161-190 | The scan with its quote and its escape cuts the line at the first unquoted comment |
| SshConfigComments.CommentIsFirstUnquoted | src-tauri/src/ssh_config.rs:161-190 | The cut is at the first number sign that is not escaped and not inside quotes of either kind, and there is none exactly if nothing is cut |
| SshConfigLines.NothingIsRead | src-tauri/src/ssh_config.rs:49-58 | A line says nothing exactly if it is blank once its comment is cut off |
| SshConfigLines.SettingIsRead | src-tauri/src/ssh_config.rs:60-72 | However margins and delimiters are written, the keyword is what stands before the first white space or equals sign and the value what stands after them, without one pair of quotes |
| SshConfigLines.QuotesAreStripped | src-tauri/src/ssh_config.rs:23-33 | One pair of quotes of either kind around a value is taken off, and nothing else |
| SshConfig.CollectAliases | src-tauri/src/ssh_config.rs:140-148 | The alias map holds for every alias the first host that has it |
| SshConfig.ReadHosts | src-tauri/src/ssh_config.rs:45-137 | The line loop with its current block reads the hosts as specified |
| SshConfigBlocks.HostsAreTheBlocks | src-tauri/src/ssh_config.rs:45-137 | There is one host for every block whose name has neither `*` nor `?`, once and in order: the first word is its name and host, all words its aliases, port 22 and the current user where nothing else is said, and the last setting of a kind decides |
| SshConfigBlocks.NoPatternIsImported | src-tauri/src/ssh_config.rs:74-159 | No imported host has `*` or `?` in its name, and the second pass changes nothing but the resolved reference |
| SshConfig.ParseConfig | src-tauri/src/ssh_config.rs:44-159 | The line loop and the second pass give the hosts as specified |
| SshConfigExport.WriteSshConfig | src-tauri/src/commands.rs:2597-2627 | The exporter appends block after block as specified |
| SshConfigRoundTrip.ValueIsKept | src-tauri/src/ssh_config.rs:50-72 | A value comes back as it was if and only if it is plain: no unquoted comment, no margin, no leading equals sign, no wrapping quotes |
| SshConfigRoundTrip.ImportOfExport | src-tauri/src/commands.rs:2597-2627 | Reading an exported file gives one host for every connection, in order |
| SshConfigRoundTrip.ConnectionsComeBack | src-tauri/src/ssh_config.rs:74-137 | Every connection comes back at its place with its alias and port; host and user are the same if and only if plain, and a key path if and only if it is plain and no tilde in it is expanded |
| SshConfigRoundTrip.JumpsResolve | src-tauri/src/ssh_config.rs:140-156 | A jump reference resolves to the record of its jump host if and only if no earlier connection is written under the same alias |
| SshConfigRoundTrip.JumpsAreDropped | src-tauri/src/commands.rs:2619-2623 | A reference to a connection that is not exported is dropped |
| SshConfigRoundTrip.MadeAliasesAreWords | src-tauri/src/commands.rs:2354-2384 | An alias made of the name or the host is always one word to the parser and no pattern |
| SshAliases.AliasIsTheMiddle | src-tauri/src/commands.rs:2354-2382 | The alias made of a text is the trimmed text with other characters than letters, digits, hyphens, full stops and underscores replaced, without the hyphens around it |
| SshAliases.AliasIsOfNameOrHost | src-tauri/src/commands.rs:2354-2384 | It is made of the name, or else of the host, or else is the identifier |
| ShellCommands.QuoteIsLiteral | src-tauri/src/commands.rs:6983-6985 | Wherever it stands, a quoted string adds exactly its own characters, all quoted, to the word being read |
| ShellCommands.ShellQuoteIsOneWord | src-tauri/src/commands.rs:6983-6985 | A quoted string is one word and one argument, for every string |
| ShellCommands.RemoveCommandLexes | src-tauri/src/commands.rs:4204-4210 | The delete command is `rm`, `-rf` and the paths, each one word |
| ShellCommands.CopyChainLexes | src-tauri/src/commands.rs:4466-4470 | The copy command is a chain of `cp -r` with two arguments each |
| ShellCommands.SplitRejoins | src-tauri/src/commands.rs:7048-7065 | A path is left out exactly when it is nothing but slashes; otherwise parent and name join to the path, and the name is one component |
| ShellCommands.NoPathIsLost | src-tauri/src/commands.rs:7047-7075 | Every path but one of slashes is archived, once and in order |
| ShellCommands.BuildTarCommand | src-tauri/src/commands.rs:7047-7075 | The loop appends the arguments as specified, and there is no command without arguments |
| ShellCommands.TarCommandLexes | src-tauri/src/commands.rs:7047-7075 | The archive command is `tar -czf -` and `-C`, parent, name for every kept path, each one word |
| ShellCommands.CdPathIsOneWord | src-tauri/src/pty.rs:118-154 | Whatever the path, `cd` gets one word |
| ShellCommands.CdGoesToDestination | src-tauri/src/pty.rs:118-154 | That word becomes the home directory the tilde asks for with the rest below it, or the trimmed path literally |
| UtilityArguments.RemovesThePaths | src-tauri/src/commands.rs:4204-4210 | `rm` gets the paths as its arguments, and they are its operands if and only if none of them is taken for an option (POSIX section 12.2), with or without permuting |
| UtilityArguments.CopiesThePath | src-tauri/src/commands.rs:4466-4470 | The same for source and destination of each `cp` |
| UtilityArguments.ArchivesTheEntries | src-tauri/src/commands.rs:7047-7075 | `tar` archives exactly the entries meant, each from its own directory, if and only if no entry name is taken for an option |
| UtilityArguments.CdReachesDestination | src-tauri/src/pty.rs:118-154 | `cd` goes where the user means to go if and only if the trimmed path does not begin with `-` |
| PtyOutput.FrameReadsBack | src/lib/terminal/terminalOutputStream.ts:41-49 | The window reads generation and output back out of a frame |
| PtyOutput.BufferKeeps | src-tauri/src/pty.rs:325-344 | Buffering keeps: frames and pending output are all that was received, less than the threshold is held back, and held-back output has a deadline |
| PtyOutput.BufferBatches | src-tauri/src/pty.rs:325-344 | Below 4096 bytes output is held back with the timer set and nothing is sent; from there on all of it is sent |
| PtyOutput.TimerKeeps | src-tauri/src/pty.rs:937-944 | The flush timer keeps the same, and after it everything received has been sent |
| PtyOutput.PaneTask.BufferWaitOutput | src-tauri/src/pty.rs:325-344 | Buffering a message adds its bytes to what was received, and holds back or sends as above |
| PtyOutput.PaneTask.TakeTurn | src-tauri/src/pty.rs:906-967 | One turn of the loop ends the pane exactly when specified and loses nothing; ordinary and extended data are received, and after a fired timer everything received has been sent |
| PtyOutput.PaneTask.RunRemote | src-tauri/src/pty.rs:898-982 | A remote pane ends at its first ending turn; before its one event, and after any turns that end in a fired timer, everything received has been sent in frames of its generation |
| PtyOutput.EndsOnlyFor | src-tauri/src/pty.rs:301-323 | Only an exit status, an exit signal, a close, a vanished channel or failed input end a pane, the last two as a lost transport; the end of the input stream alone does not |
| PtyOutput.RunLocal | src-tauri/src/pty.rs:675-729 | A local pane sends everything received before its one exit event and whenever its timer fires; when its queue closes without a report, what is held back is dropped without an event |
| LocalOutput.QueueRead | src-tauri/src/pty.rs:635-668 | Of a queue with the exit code at any place, the pane gets the chunks before it and ends with whichever end comes first |
| LocalOutput.OutputIsWholeExactly | src-tauri/src/pty.rs:635-729 | A local pane shows all output if and only if the exit code does not come before a chunk, and reports the exit code if and only if it comes before the end of the output, unless there is none |
| PtyOutput.OtherGenerationsShowNothing | src/lib/terminal/terminalOutputStream.ts:94-97 | A window of another generation shows nothing of the frames |
| Json.MergeAt | src-tauri/src/commands.rs:105-120 | At every path the overlay decides where it holds something, objects being merged in turn, and the base is kept elsewhere unless the overlay put something else on the way |
| Json.MergeTwice | src-tauri/src/commands.rs:105-120 | Applying an overlay twice is applying it once |
| Json.MergeOfTwo | src-tauri/src/commands.rs:105-120 | Two objects merge into one with the keys of both; anything else is replaced by the overlay |
| Json.MergeIsNotAssociative | src-tauri/src/commands.rs:105-120 | Overlays cannot in general be merged beforehand |
| SettingsSchema.ScrubKeepsSchema | src-tauri/src/commands.rs:444-465 | Removing stored keys keeps settings acceptable |
| SettingsSchema.FieldsAreCheckedAlone | src-tauri/src/commands.rs:255-338 | Settings are accepted exactly if they are an object and each field, taken alone, has an accepted value; unknown fields may have any |
| SettingsSchema.ScrubsExactly | src-tauri/src/commands.rs:444-465 | It removes the providers' keys and no other, and counts as a change exactly when it is one |
| SettingsStore.Store.ReadEffective | src-tauri/src/commands.rs:362-385 | The effective settings are those of the file, of the older one in its absence, or empty; unless a file is refused they are read exactly if they meet the schema, and an older file is moved over where there is still none and the lock is free |
| SettingsStore.Store.BackUpManaged | src-tauri/src/commands.rs:395-415 | Existing settings that are an object are backed up if they meet the schema and stop the write if not; anything else is not backed up |
| SettingsStore.Store.PersistSettings | src-tauri/src/commands.rs:387-420 | Persisting writes the settings given, and makes the overwritten ones the backup as above; unless a file is refused it succeeds exactly if the new settings meet the schema and the old ones are no object or meet it too |
| SettingsStore.Store.ScrubBackup | src-tauri/src/commands.rs:437-465 | The backup loses the providers' keys, and is not touched if it has none |
| SettingsStore.Store.SetSettings | src-tauri/src/commands.rs:5122-5133 | A set writes the merge of what it read and the overlay; the backup becomes the settings it overwrites if they are an object, which then must meet the schema, and is untouched otherwise; unless a file is refused nothing else stops it |
| SettingsStore.Store.WriteRawSettings | src-tauri/src/commands.rs:5178-5277 | Unless a file is refused, a raw write succeeds exactly if the content meets the schema, the stamp is the expected one at both checks, and the content at the re-check still the one first read; only good settings become the backup |
| SettingsStore.Store.RestoreLastKnownGood | src-tauri/src/commands.rs:5281-5315 | A restore writes the backup byte for byte, and unless a file is refused it succeeds exactly if there is one |
| SettingsStore.Store.MoveSecretsOut | src-tauri/src/commands.rs:423-465 | After the stored keys were moved out, the settings are the scrubbed ones and the backup holds none of the keys; unless a file is refused this succeeds exactly on settings that meet the schema |
| SettingsStore.SetThenRestore | src-tauri/src/commands.rs:387-420 | Restoring right after a successful set gives back the overwritten settings byte for byte |
| SettingsStore.RunCommands | src-tauri/src/commands.rs:5117-5315 | Over any sequence of commands, whatever fails and whatever other programs do to the settings file, the backup is a schema-valid object |
| LexicalPath.NormalizeLexically | src-tauri/src/ssh_key_passphrase_cache.rs:9-30 | The loop over the components does what is specified |
| LexicalPath.NormalizeIsNormal | src-tauri/src/ssh_key_passphrase_cache.rs:9-30 | The result has no current directory, and parent directories only at the start of a path that is not rooted |
| LexicalPath.NormalizeTwice | src-tauri/src/ssh_key_passphrase_cache.rs:9-30 | Normalising twice is normalising once |
| LexicalPath.NormalizeKeepsMeaning | src-tauri/src/ssh_key_passphrase_cache.rs:9-30 | From any base, the result leads where the path leads in a tree without links |
| LexicalPath.NormalizeKeepsResolving | src-tauri/src/ssh_key_passphrase_cache.rs:9-30 | Where the path can be walked, the result can be walked |
| LexicalPath.NormalFormIsCanonical | src-tauri/src/ssh_key_passphrase_cache.rs:9-30 | Two paths have the same result if and only if they lead to the same place from every base |
| IcoFrames.ExtractPngFromIco | src-tauri/src/shell_icons.rs:289-339 | The first of the largest PNG frames inside the file is returned, and none exactly when there is none |
| IcoFiles.LargestIsExtracted | src-tauri/src/shell_icons.rs:289-339 | Of an icon file laid out by its format from any pictures, the data of the first of the largest PNG pictures comes out, and nothing only if there is none |

## Left out

- Connect attempts: their ids are taken to be distinct; a caller may send ids of its own, and two calls with the same id are not covered.
- Connect protocol: the generation restarts at 0 when a connection is removed, so nothing is claimed across a removal; handles of a reconnect whose final check fails are dropped by the source without a disconnect and are not counted as disconnected.
- Connect protocol: `ssh_disconnect_vault_backed` is the same removal step for several ids; closing terminals and stopping tunnels before it are left out.
- SSH library, SFTP, keyring, key decoding and signing: outcomes are arbitrary, keys and signatures opaque.
- KnownHosts.HostHasExactlyTheNewKey: takes the library's look-up as a parameter that numbers lines as the filter does; the matching of host patterns is the library's.
- DiskModel: directory changes reach the medium in the order in which they were made, a failed call changes nothing but a partly written file, and creating the parent directory is left out. Other programs do not write to the names in use.
- IdentityMigration.MigrateDefaultDir: covers killed processes, not power failures, because the copied files are not synced; random identifiers are taken to be unused, and the clock and the text of the marker are arbitrary.
- IdentityMigration: which legacy directories are candidates, and their de-duplication by path key, are left out; two places are two different directories.
- RemoteSize.GetRemoteSize: sizes are unbounded, so a 64-bit overflow of the sum is not modelled.
- RemoteTransfer.Transfer.CopyRecursive: the source has no links and no devices and does not change meanwhile; links at the destination are left out, and so is a source that is its own destination.
- RemoteTransfer: downloads, uploads and the copy within one server repeat the same recursion and are left out.
- RemoteDelete.DeleteRemote: a chain of links is taken as one link to its end, and the tree does not change meanwhile but through the deletion.
- BatchCopy.CopyItems: the shell shortcut before the loop is covered by its command line only.
- CsvRoundTrip.ImportOfExport: texts with line feeds are outside, because the importer splits the file into lines before it looks at quotes; icon, auth reference and agent key are not exported.
- SshConfigRoundTrip.ConnectionsComeBack: values with line feeds are outside, and for key paths so is a home directory that begins with white space, `=`, `#`, `~` or a quote; keywords are lowered in ASCII, which decides the same keywords; reading the file and including other files are left out.
- ShellLexer: expansions, patterns, comments, redirections and operators other than `&&` have no meaning, so nothing is claimed about words that need them; a path with a NUL character cannot be a command line and is not told apart.
- ShellCommands: commands for Windows shells are left out.
- UtilityArguments: what a utility does with an argument taken for an option is left out, and so are options with arguments but `-C` of `tar`. For `cd`, home directories are absolute.
- LocalOutput: both writers are taken to queue all they have; that the queue is bounded and that they stop once the pane has ended makes no difference to what is read before.
- PtyOutput: sending a frame is taken to succeed; the source prints an error and drops the frame otherwise. Resizing and starting a terminal are left out.
- SettingsStore: the move of stored keys does not take the settings lock in the source; it is not interleaved within another command here. Reading settings of other versions and the cache of the data directory are left out.
- SettingsStore.Store.SetSettings: the new file is known to be good only if the overlay is not nested deeper than the library reads; of floating-point numbers it is only asked that reading them back keeps accepted settings accepted, not that the digits are kept. `SettingsStore.LawfulCodecExists` shows that what is asked can be met.
- Json: numbers are integers or quotients of integers; the order of keys in an object is not kept apart.
- LexicalPath: splitting a path string into components is the standard library's, and Windows prefixes are left out.
- Vault, sync, tunnels, plugins, snippets, AI agents, session files and the user interface: plumbing or parts whose behaviour rests on libraries that are not part of this model.
- Exports in the application's own formats, the folders they take along, and the counter that looks for an unused name before a remote copy would only add easy members.
- `ssh_parser.rs`: rests on regular expressions and is left out.
