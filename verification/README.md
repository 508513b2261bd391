# Clawrium: verified models of its protocols, streams and demo compiler

Clawrium manages agents on remote hosts from one controller. Most of it is command line and
Ansible plumbing, but it rests on a number of small machines whose guarantees are not visible
in any single function: registries that several processes edit at once, an identity that
several processes create at once, streams that arrive in arbitrary pieces, chat sessions that
survive some failures and not others, and a compiler that keeps a clock of its own. This
project models those machines and proves what they keep.

Each file is one module and follows one part of the source.

| file | part of Clawrium |
|---|---|
| `AgentKeypair.dfy` | exclusive creation of an agent's SSH identity by any number of callers |
| `HostsRegistry.dfy` | `hosts.json`: load and its normalisers, lock, load, modify, replace; crashes and unlocked readers |
| `AddressBook.dfy` | the addresses of a host and the three updaters of them |
| `PiCredential.dfy` | Codex-backed Pi starts, from exec and chat, against writers of the credential record |
| `PiWait.dfy` | waiting for a Pi runner that can be cancelled, and removing its work directory |
| `AgentIntegrations.dfy` | attaching integrations, with a type that may be attached once |
| `CrashSafety.dfy` | records, credentials and attachments of channels and integrations, with crashes |
| `ConfigPath.dfy` | the walk that creates or refuses the configuration directory |
| `DemoTape.dfy` | the demo compiler and an interpreter for its tapes |
| `DemoScript.dfy` | what a recording shows and says, written out from the demo description alone |
| `OpenClawDemux.dfy` | responses and events multiplexed on one gateway socket |
| `ChunkedLines.dfy` | the browser's incremental line splitter |
| `SseDecoder.dfy` | the event-stream decoder of the Hermes and Ethos backends |
| `ChatHistory.dfy` | the capped history of the Hermes and Ethos backends |
| `CodexStream.dfy` | the recogniser of a Codex turn |
| `ChatSessions.dfy` | which conversation a Claude, Codex or Pi turn continues |
| `Text.dfy`, `Prelude.dfy` | strings as Python strips and joins them; options and results |

Two forms are used throughout. Code that updates objects or runs loops is a class or a method,
proved against a function of its inputs or of its old state. Processes that interleave are a
state with a program counter per process, a total step function and a run over an arbitrary
schedule; a process that stops is one that is no longer scheduled, or crashes by an action of
its own. Theorems about a run hold for every schedule. Python's clocks, random identifiers,
parsers, remote runs and network frames are parameters.

## Where the code and what is said about it differ

- `ensure_agent_keypair` says that a loser of the creation race validates and retains the
  winner's pair, and that files are linked into place once both are written. The code creates
  the final paths directly, and a loser that looks between the two creates is refused
  (`AgentKeypair.LoserMayBeRefused`). `AgentKeypair.RefusedExactlyWhileUnfinished` says when.
- `add_agent_integration` says that its locked check closes the window on singleton types. It
  does for names that are registered when the call looks them up; a name attached before it is
  registered is never checked (`AgentIntegrations.UnregisteredNameEscapes`).
  `AgentIntegrations.SafeForeverIff` and `AgentIntegrations.AttachSafeIff` give the exact
  conditions, for a list and for a call.
- `remove_integration` says that checking for users inside its lock prevents a concurrent
  assignment. Attaching takes another lock, so it does not (`CrashSafety.RacedAttachmentDangles`);
  the same gap leaves credentials behind (`CrashSafety.RacedCredentialsAreOrphaned`).
  `CrashSafety.DanglesIff` and `CrashSafety.OrphanedIff` say exactly when.
- `run_pi_chat` means to leave a live runner its directory. If the cleaner thread cannot be
  started, the blanket handler removes it (`PiWait.LiveRunnerKeepsDirectoryIff`).
- The Pi lock excludes starts during a revocation, not runners: a chat turn that gave up has
  dropped the lock (`PiCredential.RevocationCanOverlapAbandonedRunner`, and
  `PiCredential.RevocationAloneIff` for the exact condition).
- The comment in the Claude backend explains that a cancelled first turn must not reuse its
  UUID with `--session-id`. A first turn that merely fails does reuse it
  (`ChatSessions.RetryAsksAgain`); `ChatSessions.FreshIdRepeatsIff` shows that nothing else does.
- `fit_hold` skips a blank narration, but a blank narration still gets a clip, and a recorded
  duration for it is then not fitted (`DemoTape.CardClipFits`).
- The event-stream decoder strips all leading spaces of a value where section 9.2.6 of the
  WHATWG HTML standard strips one, ignores a bare `data` line, and dispatches an unterminated
  last event (`SseDecoder.ValueAgreesIff`, `SseDecoder.AgreesWithStandardIff`, `SseDecoder.RoundTrip`).
- `save_hosts` writes a list loaded before the lock was taken, and can undo an acknowledged
  change (`HostsRegistry.SaveHostsLosesAnUpdate`, `HostsRegistry.SaveHostsKeepsIff`).

## Model

| member | source | states |
|---|---|---|
| AgentKeypair.Agreement | src/clawrium/core/keys.py:260-315 | in every schedule of any number of callers, any two that return hold the same key pair, it matches, and it is the one on disk |
| AgentKeypair.FilesSettle | src/clawrium/core/keys.py:260-315 | neither file changes after the first return, whatever is scheduled next |
| AgentKeypair.CleanupUnreachable | src/clawrium/core/keys.py:299-311 | from a clean start no caller reaches the branch that unlinks both files because the public one already exists |
| AgentKeypair.StepKeepsInv | src/clawrium/core/keys.py:274-315 | the inductive invariant: empty, then one creator with a torn or whole private file, then its finished pair; the phase only moves forward |
| AgentKeypair.AssuredReturns | src/clawrium/core/keys.py:288-315 | the creator, and every caller not refused by the time the pair is whole, returns within seven steps of its own under any interference |
| AgentKeypair.EstablishedPairIsKept | src/clawrium/core/keys.py:260-276 | once both files are whole, every caller not yet refused returns exactly that pair after five more steps |
| AgentKeypair.RefusedExactlyWhileUnfinished | src/clawrium/core/keys.py:227-242 | a step refuses exactly when it tests for a public file that is missing or reads one that is unfinished |
| AgentKeypair.LoserMayBeRefused | src/clawrium/core/keys.py:287-293 | a schedule in which one caller is refused although the other returns the key it made |
| AgentKeypair.KeyDirectory.Validate | src/clawrium/core/keys.py:227-242 | succeeds exactly when neither path is a link and the private file is a whole Ed25519 key with its own public line, and names that key |
| AgentKeypair.KeyDirectory.GetPrivateKey | src/clawrium/core/keys.py:245-251 | absent exactly when both files are, a key exactly when they match and are no links, otherwise an error |
| AgentKeypair.KeyDirectory.EnsureKeypair | src/clawrium/core/keys.py:260-315 | alone, it creates a matching pair where there was nothing; a dangling link in place of the public file is cleaned up with the private one; otherwise it changes nothing and validates |
| AgentKeypair.SoloRunAgrees | src/clawrium/core/keys.py:260-315 | the interleaved machine with one caller ends, on any two files that are no links, exactly as the sequential method says |
| HostsRegistry.NoLostUpdates | src/clawrium/core/hosts.py:95-112 | in any interleaving with any crashes, the file is the initial list with the logged changes applied in lock order; acknowledged changes are logged exactly once and declined ones never; every unlocked reading is such a list |
| HostsRegistry.LockExcludes | src/clawrium/core/hosts.py:95-112 | at most one process is between taking and releasing the lock |
| HostsRegistry.SwapKeepsInv | src/clawrium/core/hosts.py:169-184 | replacing the file keeps the invariant because the staged list is still the transaction's outcome on the current file |
| HostsRegistry.RunKeepsInv | src/clawrium/core/hosts.py:147-186 | every run of additions, removals, updates, readings and crashes keeps it |
| HostsRegistry.TransactMeaning | src/clawrium/core/hosts.py:334-412 | when an addition, a removal and an update commit; an addition commits the normalised list with its record at the end, a removal the normalised list without the records of its name, an update one that differs from the normalised list in the first record of its name |
| HostsRegistry.UpdateMeaning | src/clawrium/core/hosts.py:147-186 | an update is refused exactly when the updater raises on the first record of the name, and otherwise replaces that record by what the updater returns |
| HostsRegistry.UndisturbedCompletes | src/clawrium/core/hosts.py:95-186 | a process that meets a free lock and is not disturbed commits what its operation makes of the file, logs it and frees the lock, or leaves the file as it is |
| HostsRegistry.SaveHostsLosesAnUpdate | src/clawrium/core/hosts.py:115-144 | `save_hosts` writes a list loaded outside the lock: a run in which an acknowledged addition disappears |
| HostsRegistry.SaveHostsKeepsIff | src/clawrium/core/hosts.py:115-144 | a save keeps the no-lost-update invariant if and only if the list it writes is the one on file |
| HostsRegistry.CurrentSavesLoseNothing | src/clawrium/core/hosts.py:115-144 | every run whose saves all write the list on file loses no update |
| HostsRegistry.LoadIdempotent | src/clawrium/core/hosts.py:47-92 | loading a loaded list changes nothing, whatever the later clock: stamps are invented once |
| HostsRegistry.NormalisePreserves | src/clawrium/core/hosts.py:255-331 | only the mirror keys `provider`, `providers` and `channels` of an agent's configuration are dropped; names, key, stamp, existing addresses and family, every agent, its attachments and its other entries stay; a missing family is `linux` |
| HostsRegistry.AddressesInvented | src/clawrium/core/hosts.py:255-283 | missing addresses become the hostname alone, primary and without a tag, stamped with the time the host was added or the time of loading; none without a hostname |
| HostsRegistry.WithoutKeeps | src/clawrium/core/hosts.py:376-412 | removal leaves no record of the name and shortens the list exactly when there was one |
| HostsRegistry.WithoutConcat | src/clawrium/core/hosts.py:376-412 | removal keeps all other records in their order |
| HostsRegistry.WithoutOne | src/clawrium/core/hosts.py:390-403 | one record is dropped exactly when it carries the name; with the distribution over concatenation this determines the filter |
| HostsRegistry.WithoutMeaning | src/clawrium/core/hosts.py:390-403 | a record with another hostname occurs as often as before, one with the name not at all |
| HostsRegistry.HostsFile.LoadHosts | src/clawrium/core/hosts.py:47-92 | a file that does not parse as a list of objects, or holds a record of the old schema, is an error, any other the normalised list |
| HostsRegistry.HostsFile.AddHost | src/clawrium/core/hosts.py:334-373 | succeeds exactly on a good file without the hostname, and then writes the normalised list with the completed record at the end; otherwise the file stays |
| HostsRegistry.HostsFile.RemoveHost | src/clawrium/core/hosts.py:376-412 | succeeds exactly on a good file with the hostname, and then writes the normalised list without its records and with all others; otherwise the file stays |
| HostsRegistry.HostsFile.UpdateHost | src/clawrium/core/hosts.py:147-186 | the search and the in-place edit settle the file as the transaction says: the first record of the name is edited and nothing else; a raising updater leaves the file |
| AddressBook.BooksStayWellFormed | src/clawrium/core/hosts.py:638-774 | any number of processes adding, removing and promoting addresses, beside others adding and removing hosts, with crashes and stale host names: on file and in every unlocked reading the addresses of every host stay distinct, exactly one is primary, and it is the hostname |
| AddressBook.AddressUpdatesAreBookOps | src/clawrium/core/hosts.py:658-771 | the closure of each address operation, as a registry update, keeps every well-formed record well-formed |
| AddressBook.ExactlyOnePrimary | src/clawrium/core/hosts.py:728-774 | what well-formed means: one primary address and no other |
| AddressBook.ApplyKeepsWellFormed | src/clawrium/core/hosts.py:658-771 | each accepted updater keeps a well-formed host well-formed |
| AddressBook.ApplyMeaning | src/clawrium/core/hosts.py:638-774 | exactly when each operation is refused, and which addresses are listed afterwards |
| AddressBook.ApplyExactly | src/clawrium/core/hosts.py:658-771 | what an accepted operation leaves: the new entry last, secondary, with its tag and stamp; or the book without the first entry of the address; or the same entries in order with the mark on the new primary; the rest of the record is kept |
| AddressBook.TransactKeepsWellFormed | src/clawrium/core/hosts.py:147-186 | a whole transaction, normalisers included, keeps every host of the file well-formed |
| AddressBook.HostRecord.Add | src/clawrium/core/hosts.py:658-681 | the closure, statement by statement, is the address operation of the model: it appends a secondary address or refuses |
| AddressBook.HostRecord.Remove | src/clawrium/core/hosts.py:701-722 | likewise: it takes out exactly the first entry of that address, and refuses the primary and an unknown one |
| AddressBook.HostRecord.SetPrimary | src/clawrium/core/hosts.py:749-771 | likewise: the search and the marking loop move the primary mark and the hostname together, or refuse |
| AddressBook.ResolveHost | src/clawrium/core/hosts.py:415-437 | the hostname of the first record on file that answers to a hostname, alias or key id |
| AddressBook.ResolvedMeaning | src/clawrium/core/hosts.py:415-437 | what that is: a record answers, carries the hostname, and no earlier one answers |
| AddressBook.ChangeAddress | src/clawrium/core/hosts.py:638-774 | succeeds exactly when the file is good, the address accepted, the identifier resolved and the operation applicable to the first record of that hostname, and then edits exactly that record; any error leaves the file as it was |
| PiCredential.CodexStartsAuthorised | src/clawrium/core/agent_exec.py:545-573 | in every run each Codex start, from exec or chat, is made by the holder of the credential lock with the record at that moment on Codex and no recovery pending |
| PiCredential.WriterExcludesStarts | src/clawrium/core/chat_pi.py:323-346 | while a writer is inside the lock nobody is authorised for, launching or waiting on a Codex start; a Codex runner still alive was abandoned |
| PiCredential.ReentersAtMostOnce | src/clawrium/core/agent_exec.py:545-568 | exec prepares in the same way on entry and on re-entry, and the lock-held flag alone makes the re-entrant call happen at most once |
| PiCredential.NoStartWhilePending | src/clawrium/core/chat_pi.py:262-295 | while every writer leaves recovery pending no Codex start is recorded |
| PiCredential.RevocationCanOverlapAbandonedRunner | src/clawrium/core/chat_pi.py:186-204 | a run in which a revocation is inside the lock while the runner of a turn that gave up is alive |
| PiCredential.RevocationAloneIff | src/clawrium/core/chat_pi.py:186-204 | in every run a writer inside the lock meets no live Codex runner if and only if no caller gives up on its runner or is killed |
| PiCredential.RunKeepsInv | src/clawrium/core/agent_exec.py:387-463 | the lock and authorisation invariant over every run |
| PiCredential.ClearRequestStarts | src/clawrium/core/agent_exec.py:545-573 | an exec or chat request that meets a free lock and a clear Codex record is started within four of its own steps, and then owns the lock |
| PiCredential.PendingRequestFails | src/clawrium/core/agent_exec.py:387-463 | one that meets a pending recovery fails without a start and without the lock |
| PiCredential.OtherProviderRequest | src/clawrium/core/chat_pi.py:262-295 | under another provider exec starts without the lock, and chat fails |
| PiCredential.ExitedRunnerIsLeft | src/clawrium/core/chat_pi.py:323-346 | once its runner has exited a caller leaves in two steps, with the lock free |
| PiWait.Wait | src/clawrium/core/chat_pi.py:184-204 | the loop ends, after at most one pass per join timeout, at exactly the first pass that finds the thread dead, the deadline past, or a seen cancellation older than its grace; it gives up exactly when the thread was alive there |
| PiWait.LeavesInTime | src/clawrium/core/chat_pi.py:184-204 | the last clock reading is within one pass of the deadline and of the grace counted from any pass that saw the cancellation |
| PiWait.LeavesAfterRealCancel | src/clawrium/core/chat_pi.py:186-194 | counted from the real cancellation it is within the grace and two passes |
| PiWait.OnePassIsNotEnough | src/clawrium/core/chat_pi.py:186-194 | a timing in which one pass after the real cancellation and grace is too early |
| PiWait.RemovedExactlyOnce | src/clawrium/core/chat_pi.py:194-215 | in every schedule the directory is removed at most once: by the `finally` block exactly when nothing was handed over, else by the cleaner |
| PiWait.CleanerGetsThere | src/clawrium/core/chat_pi.py:196-202 | a directory handed over stays until the runner is dead, and is removed by the cleaner then |
| PiWait.LiveRunnerKeepsDirectoryIff | src/clawrium/core/chat_pi.py:200-215 | no schedule removes the directory under a live runner if and only if the cleaner thread can be started |
| PiWait.RunKeepsSafe | src/clawrium/core/chat_pi.py:174-215 | the invariant behind it, over every run in which threads can be started |
| AgentIntegrations.AttachmentsStayValid | src/clawrium/core/integrations.py:740-822 | in every interleaving of registrations, attachments and detachments the lists are duplicate-free, and two attachments of the singleton type need one whose call found no record |
| AgentIntegrations.SingletonHolds | src/clawrium/core/integrations.py:767-811 | at most one attachment of the singleton type per agent in every interleaving in which each looked-up name was registered |
| AgentIntegrations.UnregisteredNameEscapes | src/clawrium/core/integrations.py:770-776 | a run, from a valid state, that ends with two attachments of the singleton type |
| AgentIntegrations.SafeForeverIff | src/clawrium/core/integrations.py:796-806 | a list survives every later registration if and only if no two of its names are each of the singleton type or unregistered |
| AgentIntegrations.AttachSafeIff | src/clawrium/core/integrations.py:770-811 | on any list that survives every later registration an undisturbed call leaves such a list if and only if the name is registered under another type, or no listed name is of the singleton type or unregistered, or the call is refused as a conflict |
| AgentIntegrations.AttachMeaning | src/clawrium/core/integrations.py:791-811 | what attaching does to any list: listed names change nothing, a second name of the singleton type is refused in favour of the first listed one, every other name is appended |
| AgentIntegrations.UndisturbedAttach | src/clawrium/core/integrations.py:764-822 | an attachment nobody disturbs, lookup and update, ends with exactly that result and list |
| AgentIntegrations.UndisturbedRest | src/clawrium/core/integrations.py:825-875 | a detachment or registration ends with its first step: removed or not attached, registered or duplicate |
| AgentIntegrations.ReturnsTell | src/clawrium/core/integrations.py:764-822 | over every run a call reports an attachment exactly when its own step appended, once, and the lists are the initial ones with those changes applied in order |
| AgentIntegrations.StepKeepsInv | src/clawrium/core/integrations.py:778-811 | each step keeps distinctness, registration of all but strays, and the singleton rule; the registry only grows |
| AgentIntegrations.WithoutFirstMeaning | src/clawrium/core/integrations.py:869-872 | detaching takes out the first occurrence and keeps the others in order |
| AgentIntegrations.AgentRecord.Attach | src/clawrium/core/integrations.py:778-811 | the closure with its loop: nothing on a listed name, a refusal naming the first listed name of the singleton type exactly when the type is that one and such a name is listed, otherwise the name appended |
| AgentIntegrations.AgentRecord.Detach | src/clawrium/core/integrations.py:851-872 | the closure reports removal exactly when the name was attached |
| CrashSafety.DanglesIff | src/clawrium/core/channels.py:356-404 | in every interleaving with crashes anywhere, an attachment ends up without its record if and only if it was committed after the record was gone, or a deletion finished while it stood, and neither a detachment nor a new record came since |
| CrashSafety.OrphanedIff | src/clawrium/core/channels.py:284-289 | credentials end up without their record if and only if they were stored after it was gone, or a deletion finished while they were there, and neither a new record nor another clearing came since |
| CrashSafety.DanglesStepIff | src/clawrium/core/channels.py:480-496 | exactly which steps leave an attachment without its record, and which mend it |
| CrashSafety.OrphanedStepIff | src/clawrium/core/channels.py:379-404 | exactly which steps leave credentials without their record, and which mend it |
| CrashSafety.DanglingOnlyIfRaced | src/clawrium/core/channels.py:356-404 | either needs a deletion in flight together with a creation or attachment of that name, or for an attachment a forced deletion |
| CrashSafety.SerialRunsAreSafe | src/clawrium/core/integrations.py:608-660 | in serial runs with a crash at any point stored credentials imply their record, and without forced deletions so do attachments |
| CrashSafety.RunKeepsInv | src/clawrium/core/channels.py:284-312 | the invariant over every interleaving, among it that the list a lock holder has read is still the file |
| CrashSafety.DeleteKeepsInv | src/clawrium/core/channels.py:356-404 | each step of a deletion keeps it: check, load, credentials, then record |
| CrashSafety.CreateKeepsInv | src/clawrium/core/channels.py:284-312 | each step of a creation keeps it: the token goes in after the record |
| CrashSafety.DeletionAlone | src/clawrium/core/channels.py:379-404 | a deletion that dies after any number of steps leaves everything, a record without credentials, or nothing, never credentials without a record |
| CrashSafety.RerunCompletes | src/clawrium/core/channels.py:383-402 | a second deletion after one that died before its save removes record and credentials, and nothing else |
| CrashSafety.DeletionCompletes | src/clawrium/core/channels.py:356-404 | an undisturbed deletion of a registered name that is unused or forced removes record and credentials in five steps, and nothing else |
| CrashSafety.CreationSteps | src/clawrium/core/channels.py:300-312 | an undisturbed creation of a new name saves its record in three steps and frees the lock, credentials still to come |
| CrashSafety.AttachmentSteps | src/clawrium/core/integrations.py:764-811 | an undisturbed attachment of a registered name adds that link and nothing else |
| CrashSafety.DetachmentStep | src/clawrium/core/integrations.py:851-875 | a detachment takes out that link and nothing else |
| CrashSafety.WithoutSnoc | src/clawrium/core/channels.py:383-402 | the filter of a deletion drops a record exactly when it carries the name and keeps the others in order |
| CrashSafety.RacedAttachmentDangles | src/clawrium/core/integrations.py:628-640 | for every name and agent, a run without forcing that leaves an attachment without its record |
| CrashSafety.RacedCredentialsAreOrphaned | src/clawrium/core/channels.py:287-289 | for every name, a run without forcing that leaves credentials without their record |
| CrashSafety.ChannelFiles.AddChannel | src/clawrium/core/channels.py:300-312 | refuses a taken name, else appends; the files are those of the machine's solo run |
| CrashSafety.ChannelFiles.RemoveChannel | src/clawrium/core/channels.py:356-404 | in use, absent, or removed with its credentials; the files are those of the machine's solo run |
| ConfigPath.FileSystem.InitConfigDir | src/clawrium/core/config.py:96-171 | succeeds exactly on an acceptable path and leaves a determined filesystem, whatever the umask; otherwise reports the first objection and has only created missing components above it |
| ConfigPath.FileSystem.Descend | src/clawrium/core/config.py:117-168 | the loop over the components, against objections stated on the filesystem it started from |
| ConfigPath.FileSystem.Enter | src/clawrium/core/config.py:120-165 | one component: made private if missing, opened, judged, and whether it shelters what lies below |
| ConfigPath.Validate | src/clawrium/core/config.py:47-93 | accepts exactly when a leaf is the caller's and a directory that was there is the caller's or root's and, if others may write, is sticky or a sheltered leaf |
| ConfigPath.SuccessIsSafe | src/clawrium/core/config.py:96-171 | after success the leaf is the caller's and 0700, every ancestor is the caller's or root's, those that were there are unchanged and sticky where others may write, new ones are 0700, and nothing off the path changed |
| ConfigPath.AcceptableIff | src/clawrium/core/config.py:47-168 | in owners, modes and shelter: the walk succeeds if and only if every component is missing and can be made private, or is a directory the caller may open, owned by the caller or, above the leaf, by root, and where others may write sticky, or as leaf below a closed or new directory |
| ConfigPath.RefusalMeaning | src/clawrium/core/config.py:47-93 | each reason for refusing an existing component, as an if-and-only-if on its owner, mode and place |
| ConfigPath.MadeMeaning | src/clawrium/core/config.py:120-136 | a walk that stops anywhere has changed no mode or owner that was there; whatever is new is one of the components and private |
| ConfigPath.SecondWalkIsIdle | src/clawrium/core/config.py:96-171 | a second undisturbed call succeeds and changes nothing |
| ConfigPath.RefusalIsStable | src/clawrium/core/config.py:96-171 | a refused call is refused again at the same component for the same reason and changes nothing more |
| DemoTape.TapeTakesComputedTime | docs/demos/lib/compile.py:319-456 | interpreting the emitted tape takes exactly the duration the compiler computed, for every demo |
| DemoTape.OutputClockIsComputed | docs/demos/lib/compile.py:412-424 | at every card and scene the tape clock when its output shows, and when its hold ends, is the compiler's |
| DemoTape.OutputInTape | docs/demos/lib/compile.py:327-449 | the prefixes at which those clocks are read really are prefixes of the tape |
| DemoTape.BeatPlacement | docs/demos/lib/compile.py:416-423 | every scene beat starts at the tape clock of its scene's output plus its offset and is in the manifest within half a millisecond of that, however many scenes precede it |
| DemoTape.BlockClip | docs/demos/lib/compile.py:334-342 | the same for any clip of any block |
| DemoTape.SceneClipFits | docs/demos/lib/compile.py:372-410 | every scene beat that ends after the output starts ends at least the buffer before `progress` is typed |
| DemoTape.CardClipFits | docs/demos/lib/compile.py:236-248 | a card's clip ends at least the buffer before its hold if and only if its narration is not blank or fits the declared hold anyway |
| DemoTape.ClipsNeverOverlap | docs/demos/lib/compile.py:381-399 | with no overlap warning all clips of the recording are disjoint, in order and inside it, and the manifest is in emission order |
| DemoTape.PlacedChain | docs/demos/lib/compile.py:319-445 | blocks whose clips are disjoint and inside them stay so when played one after another |
| DemoTape.NoOverlapMeans | docs/demos/lib/compile.py:388-399 | no warning means that each beat ends before the next one starts |
| DemoTape.SortSorts | docs/demos/lib/compile.py:451-456 | the manifest is every clip exactly once, by time |
| DemoTape.SortKeepsOrder | docs/demos/lib/compile.py:451-456 | the stable sort leaves an ordered list alone |
| DemoTape.Round3Near | docs/demos/lib/compile.py:338-342 | rounding moves a timestamp by at most half a millisecond |
| DemoTape.TypingIsLengthTimesSpeed | docs/demos/lib/compile.py:132-133 | keystroke by keystroke typing costs length times speed |
| DemoTape.EstimateIsLengthOverRate | docs/demos/lib/compile.py:90-92 | the estimate is length over speaking rate |
| DemoTape.PlayConcat | docs/demos/lib/compile.py:276-449 | the interpreter of a concatenated tape is the composition of its parts |
| DemoTape.PlayOpening | docs/demos/lib/compile.py:264-320 | the hidden setup costs nothing, and the clock shows the pre-roll when it is over |
| DemoTape.ScenePlays | docs/demos/lib/compile.py:147-197 | a scene block played on a visible screen takes its computed duration and shows its output at its computed offset |
| DemoTape.LatestEnd | docs/demos/lib/compile.py:372-377 | the latest end of the beats bounds them all and is attained, or is zero |
| DemoTape.FitHoldLoudly | docs/demos/lib/compile.py:236-248 | the hold is at least the declared one, fits any narration that is not blank with the buffer, is no longer than these need, and a warning is issued exactly when it exceeds the declared one |
| DemoTape.CheckBeats | docs/demos/lib/compile.py:375-399 | the loop computes the latest end and exactly the overlaps of neighbours |
| DemoTape.FitScreen | docs/demos/lib/compile.py:401-410 | the screen time is at least the declared one, fits every beat that ends after the output starts with the buffer, is no longer than these need, and an extension is warned of exactly when it exceeds the declared one |
| DemoTape.CompileDemo | docs/demos/lib/compile.py:200-475 | the accumulating compiler returns the tape, manifest, rounded duration and warnings that the theorems, those of the script among them, are about |
| DemoScript.TapeFollowsScript | docs/demos/lib/compile.py:264-445 | for every demo, watching the emitted tape shows exactly the script: activate, helpers, each setup step, `_replay_install` and clear while hidden, the pre-roll, `titlecard`, `progress 0`, for each scene its headline, a hidden clear, its command and its progress, then `outrocard`, with every pause; the script is written without the compiler's blocks |
| DemoScript.ScheduleFollowsScript | docs/demos/lib/compile.py:319-456 | the schedule before rounding, clip by clip with scene and beat numbers, times and stripped texts, and the length of the recording, are those of the script |
| DemoScript.WarningsExactly | docs/demos/lib/compile.py:236-248 | a warning is issued exactly for each extended hold, each beat that starts before the one before it is over and each extended screen, with these figures |
| DemoScript.OverlapsExactly | docs/demos/lib/compile.py:388-399 | the overlap warnings of a scene, beat by beat |
| DemoScript.ScreenIsScreened | docs/demos/lib/compile.py:372-410 | the screen is the declared one or the least that fits all beats ending after the output, with the buffer |
| DemoScript.ScreenedOnce | docs/demos/lib/compile.py:372-410 | no other screen time is that |
| DemoScript.HeldIsFitted | docs/demos/lib/compile.py:236-248 | a card is held as declared, or as long as a narration that is not blank needs if that is more |
| DemoScript.SpokenIsAudio | docs/demos/lib/compile.py:231-234 | a narration takes its recorded duration, or else its length over the speaking rate, or nothing without a rate |
| DemoScript.WatchConcat | docs/demos/lib/compile.py:264-445 | watching a concatenated tape composes |
| Text.DecimalReads | docs/demos/lib/compile.py:156-157 | the scene numbers that are typed read back as those numbers, with no leading zero |
| OpenClawDemux.NothingLost | src/clawrium/core/chat.py:424-443 | with at most a hundred events before the response the turn hears every event of the stream in arrival order |
| OpenClawDemux.SurplusDropped | src/clawrium/core/chat.py:139 | with more, exactly the earliest surplus is dropped |
| OpenClawDemux.AcceptedMeaning | src/clawrium/core/chat.py:339-390 | once the gateway accepts the message as a run, the outcome is that of the run's turn on every event of the stream, those before the response included; with more than a hundred of these on the events without exactly the earliest surplus |
| OpenClawDemux.RejectedMeaning | src/clawrium/core/chat.py:351-360 | a fault, a refused response, a payload that is no object and a missing run id each hear nothing and fail for that reason |
| OpenClawDemux.UnansweredMeaning | src/clawrium/core/chat.py:404-410 | without an answer the call times out and hears nothing |
| OpenClawDemux.EventsOfOne | src/clawrium/core/chat.py:431-443 | only events and faults are heard; with the distribution over concatenation this determines the event stream |
| OpenClawDemux.EventsOfConcat | src/clawrium/core/chat.py:431-443 | the events of a concatenated stream are those of its parts |
| OpenClawDemux.OursExactly | src/clawrium/core/chat.py:366-373 | an event belongs to the run exactly when it is a `chat` event whose payload names the run |
| OpenClawDemux.ShownMeaning | src/clawrium/core/chat.py:458-463 | an increment is the first text that is not empty of `delta`, `textDelta`, `chunk` and `text`, and nothing is heard without one |
| OpenClawDemux.FinalTextMeaning | src/clawrium/core/chat.py:466-483 | where the closing text comes from: the message, its content, the texts of its blocks joined, its own text, or nowhere |
| OpenClawDemux.RefusedMeaning | src/clawrium/core/chat.py:375-380 | a callback that raises at its call number k is the last thing that happens, after exactly k + 1 deltas; one called less often changes nothing |
| OpenClawDemux.TurnMeaning | src/clawrium/core/chat.py:363-390 | the deltas are those of the run's events up to its first ending event, which alone decides the result |
| OpenClawDemux.TurnUnfinished | src/clawrium/core/chat.py:404-410 | without one, all the run's deltas are heard and the turn times out |
| OpenClawDemux.OtherRunsInvisible | src/clawrium/core/chat.py:366-373 | events of other runs and kinds can be removed from the stream without changing the turn |
| OpenClawDemux.OpenClawChatClient.WaitForResponse | src/clawrium/core/chat.py:424-435 | returns the answer or the fault before it, the buffer then holding exactly the last hundred of what it held and the events before the answer |
| OpenClawDemux.OpenClawChatClient.NextEvent | src/clawrium/core/chat.py:437-443 | takes the first of the buffered events followed by those still on the socket |
| OpenClawDemux.OpenClawChatClient.FollowRun | src/clawrium/core/chat.py:363-390 | the event loop equals the fold over buffered and coming events, cut off at a delta on which the callback raises |
| OpenClawDemux.OpenClawChatClient.SendMessage | src/clawrium/core/chat.py:320-390 | callback sequence and result are the meaning of the frames of the stream, also when the callback raises; a failing send hears nothing |
| OpenClawDemux.TurnExtends | src/clawrium/core/chat.py:375-380 | deltas once heard stay the first deltas of the turn |
| ChunkedLines.SendChatMessage | gui/src/lib/api.ts:231-265 | however the text is cut, lines processed and outcome are those of the whole text split once; after an error nothing more is processed |
| ChunkedLines.SplitFromConcat | gui/src/lib/api.ts:257-261 | cutting anywhere, also between carriage return and newline, and carrying the rest over finds the same lines |
| ChunkedLines.SplitRejoins | gui/src/lib/api.ts:259 | the pieces hold no newline and give the text back when joined with the dropped carriage returns |
| ChunkedLines.SplitFromPiece | gui/src/lib/api.ts:258-260 | splitting the carried rest again adds nothing |
| ChunkedLines.OutcomeMeaning | gui/src/lib/api.ts:235-252 | the outcome is the failure of the first line that throws, with its message, or the text of the last content line |
| ChunkedLines.ProcessMeaning | gui/src/lib/api.ts:235-252 | exactly a data line with JSON `null` or an error message throws, with this failure and text; a content line replaces the text; every other line, `[DONE]` and malformed ones included, changes nothing |
| ChunkedLines.LastContentMeaning | gui/src/lib/api.ts:239-243 | the text is that of the last content line, cleaned, or what was there before |
| ChunkedLines.LinesOfMeaning | gui/src/lib/api.ts:257-264 | the lines of a reply are its pieces between newlines, each without one trailing carriage return, and an empty last piece is none |
| ChunkedLines.DropReturnMeaning | gui/src/lib/api.ts:264 | exactly one trailing carriage return is dropped |
| ChunkedLines.ForEachLine | gui/src/lib/api.ts:261 | stops at exactly the first line that throws |
| SseDecoder.RoundTrip | src/clawrium/core/chat_hermes.py:221-290 | encoded events, with padding, comments, unknown fields and an unterminated last one, read back as their joined payloads |
| SseDecoder.StreamIsAnswered | src/clawrium/core/chat_hermes.py:221-290 | from server to caller: the lines of encoded events whose payloads decode, up to `[DONE]` or the end, are answered with their deltas joined, each heard once in order |
| SseDecoder.DecodedOne | src/clawrium/core/chat_hermes.py:259-266 | a payload contributes its text, and nothing when it has none |
| SseDecoder.DecodedConcat | src/clawrium/core/chat_hermes.py:259-266 | the deltas of a payload list are those of its parts in order |
| SseDecoder.InterpretMeaning | src/clawrium/core/chat_hermes.py:242-290 | with the first payload that is no delta to be taken: `[DONE]` and the end of the stream answer the concatenation of exactly the non-empty deltas before it, or missing content if there is none; a malformed payload, a raising callback or a lost connection is an error after exactly those deltas |
| SseDecoder.ReplyIsDeltas | src/clawrium/core/chat_hermes.py:267-290 | any successful reply is the concatenation of what the callback saw, and not empty |
| SseDecoder.InputAfterDoneIsIrrelevant | src/clawrium/core/chat_hermes.py:242-290 | after a completed `[DONE]` no continuation of the stream, or failure of it, matters |
| SseDecoder.ValueAgreesIff | src/clawrium/core/chat_ethos.py:184-232 | a data value equals that of section 9.2.6 of the WHATWG HTML standard if and only if no two spaces follow the colon |
| SseDecoder.AgreesWithStandardIff | src/clawrium/core/chat_ethos.py:184-232 | the terminated events are those of section 9.2.6 of the WHATWG HTML standard if and only if no bare `data` line and no doubled space is followed by a blank line |
| SseDecoder.StandardIsHeavier | src/clawrium/core/chat_ethos.py:184-232 | the standard's events are never shorter in all, and longer as soon as such a line is completed |
| SseDecoder.CompleteConcat | src/clawrium/core/chat_hermes.py:268-287 | reading in two parts equals reading at once |
| SseDecoder.Dispatch | src/clawrium/core/chat_hermes.py:242-266 | one dispatch advances the meaning of all that may follow by one event |
| SseDecoder.ConsumeSse | src/clawrium/core/chat_hermes.py:221-290 | the loop's callbacks and result are the meaning of the lines |
| ChatHistory.HistoryConserved | src/clawrium/core/chat_hermes.py:106-218 | over every run of sends and clears the history is the last hundred successful pairs since the last clear, and the dropped counts make up the difference |
| ChatHistory.HistoryIsLastHundred | src/clawrium/core/chat_hermes.py:208-218 | in figures: up to a hundred pairs all are kept and none reported dropped; beyond, the last hundred are kept and the number of the others reported |
| ChatHistory.RequestsWellFormed | src/clawrium/core/chat_hermes.py:153-159 | every request alternates strictly from user, ends with the new message and is bounded |
| ChatHistory.FlattenAlternates | src/clawrium/core/chat_hermes.py:208-217 | a history of whole pairs alternates strictly |
| ChatHistory.AppendPair | src/clawrium/core/chat_hermes.py:211-217 | the cap drops exactly the oldest pair |
| ChatHistory.RepliesWereHeard | src/clawrium/core/chat_ethos.py:235-254 | a reply comes only with a good status, is not empty, and is what the callback heard |
| ChatHistory.ExchangeMeaning | src/clawrium/core/chat_hermes.py:166-206 | what each answer comes to: faults, 401 and 403, other statuses from 400, a body that is not JSON or has no text, and a whole text heard once and returned |
| ChatHistory.StreamedMeaning | src/clawrium/core/chat_hermes.py:184-190 | a good status with a stream the server wrote answers its deltas joined |
| ChatHistory.OpenAIChatBackend.SendMessage | src/clawrium/core/chat_ethos.py:96-181 | sends the history and the message; a failure at any stage leaves the history; a success is recorded |
| ChatHistory.OpenAIChatBackend.ClearHistory | src/clawrium/core/chat_hermes.py:73-76 | empties the history and the dropped count |
| ChatHistory.OpenAIChatBackend.Receive | src/clawrium/core/chat_hermes.py:166-206 | status, content type and transport faults decide the exchange |
| CodexStream.RecogniserExact | src/clawrium/core/chat_codex.py:261-306 | accepted with this text and thread exactly when not blank, of at most 2048 lines, and one complete orderly turn of that thread; the text is the sanitised join of its messages |
| CodexStream.RejectionExact | src/clawrium/core/chat_codex.py:275-303 | the first event that is out of order decides the rejection: malformed, no event, after completion, failed, second thread, bad id, item before its thread, or a message without text |
| CodexStream.UnfinishedExact | src/clawrium/core/chat_codex.py:261-306 | the other rejections: a blank response, too many lines, a turn that is not complete |
| CodexStream.AdvanceAllMeaning | src/clawrium/core/chat_codex.py:275-303 | the loop goes on exactly while the events so far are orderly, and has gathered exactly their thread and messages |
| CodexStream.AdvanceMeaning | src/clawrium/core/chat_codex.py:276-303 | one event is taken exactly when the longer list is orderly |
| CodexStream.AcceptedIdIsUsable | src/clawrium/core/chat_codex.py:289-292 | an accepted thread id is never empty, so it can be resumed |
| CodexStream.ParseResult | src/clawrium/core/chat_codex.py:261-306 | the imperative recogniser equals the specified one, errors included |
| ChatSessions.ResumesExactly | src/clawrium/core/chat_claude.py:340-352 | a turn resumes an id exactly when it is that of the latest successful turn under the same key with no clear, cancellation or other key since; every other turn starts fresh |
| ChatSessions.LiveMeaning | src/clawrium/core/chat_claude.py:334-352 | the abstract machine's live conversation, read off the whole trace |
| ChatSessions.ResumedIdWasReturned | src/clawrium/core/chat_codex.py:350-367 | a resumed id was returned to an earlier turn under the same key |
| ChatSessions.PlayedReflects | src/clawrium/core/chat_claude.py:334-352 | the fields of a backend that mints its ids refine the abstract machine over every trace: what they issue is what is due, and a fresh id is the one minted for its epoch |
| ChatSessions.FreshIdIsNew | src/clawrium/core/chat_claude.py:334-352 | for an injective mint a fresh id is never that of an earlier success, if that success reported the id minted for it or none the backend mints |
| ChatSessions.NoIdUnderTwoKeys | src/clawrium/core/chat_pi.py:257-260 | for an injective mint and an upstream that reports the id it was sent, no id is sent under two keys |
| ChatSessions.NoFreshIdUnderTwoKeys | src/clawrium/core/chat_claude.py:344-346 | whatever the upstream reports, no fresh id is asked for under two keys |
| ChatSessions.FreshIdRepeatsIff | src/clawrium/core/chat_claude.py:409-414 | a fresh id was asked for before if and only if the last event that is not neutral is a failed fresh turn under the same key |
| ChatSessions.RetryAsksAgain | src/clawrium/core/chat_claude.py:340-352 | a run of the Claude backend in which a turn retried after a timeout asks to create the same session |
| ChatSessions.PiKeysNeverShare | src/clawrium/core/chat_pi.py:308-318 | two turns of one Pi backend under different keys never use one session id |
| ChatSessions.ClaudeBackend.SendMessage | src/clawrium/core/chat_claude.py:354-450 | the argument list is `--print --output-format json --resume` with an id exactly when a latest success under the key with that id is sustained by the trace so far, and with none it is the `--session-id` form with the id just minted; the turn is recorded by its outcome |
| ChatSessions.ClaudeBackend.ArgvForTurn | src/clawrium/core/chat_claude.py:340-352 | a changed key drops the session and mints an id first; the argument list resumes the session if it has started and creates it otherwise, which is what the trace makes due |
| ChatSessions.ClaudeArgvMeaning | src/clawrium/core/chat_claude.py:340-352 | the argument list in the words of the command line, against the sustained conversation of the trace |
| ChatSessions.JudgeMeaning | src/clawrium/core/chat_claude.py:421-447 | a clean exit is parsed; 124 is a time-out, then a rejection shown on either stream, then 255, then any other status |
| ChatSessions.ClaudeBackend.ClearHistory | src/clawrium/core/chat_claude.py:334-338 | a clear refines the abstract one and mints a new id |
| ChatSessions.CodexBackend.SendMessage | src/clawrium/core/chat_codex.py:369-465 | the argument list is `exec resume` with an id exactly when the trace sustains a success under the key with that id, and with none the plain `exec` form; the recogniser is the parser |
| ChatSessions.CodexBackend.ArgvForTurn | src/clawrium/core/chat_codex.py:350-367 | a changed key drops the thread first; the argument list resumes exactly what is due |
| ChatSessions.CodexArgvMeaning | src/clawrium/core/chat_codex.py:350-367 | the same in the words of the Codex command line |
| ChatSessions.CodexVerdictMeaning | src/clawrium/core/chat_codex.py:436-465 | a reply is exactly a clean exit whose output the recogniser accepts, with its text and a thread id that is not empty |
| ChatSessions.NativeIsLegal | src/clawrium/core/chat_codex.py:350-367 | the turns of a Codex backend are those of the abstract machine |
| ChatSessions.CodexBackend.ClearHistory | src/clawrium/core/chat_codex.py:344-348 | a clear refines the abstract one |
| ChatSessions.PiBackend.SendMessage | src/clawrium/core/chat_pi.py:297-411 | the same machine, with ids minted by the backend: it resumes the id sent exactly when the trace sustains that id under the key, and otherwise sends the one minted for its epoch |
| ChatSessions.PiJudgeMeaning | src/clawrium/core/chat_pi.py:385-411 | a reply is exactly a clean exit whose output, sanitised and stripped, is not empty; the order of the failures |
| ChatSessions.PiBackend.ClearHistory | src/clawrium/core/chat_pi.py:257-260 | a clear refines the abstract one, and uses up a new id |
| Text.StripMeaning | src/clawrium/core/chat_pi.py:405-411 | stripping takes off only blanks, all of them at both ends |
| Text.SanitizeConcat | src/clawrium/core/chat_codex.py:254-258 | sanitising distributes over concatenation |
| Text.SanitizeOne | src/clawrium/core/chat_codex.py:254-258 | one character is dropped exactly when it is forbidden: with the distribution, exactly the other characters are kept, in order |
| Text.JoinLinesAppend | src/clawrium/core/chat_hermes.py:246 | joining with newlines, one part at a time |

## Left out

- Ansible, SSH, sockets, HTTP, JSON and the Ed25519 arithmetic: frames, lines, runner results, decoded values and the map from a private to a public key are inputs.
- AgentKeypair.SoloRunAgrees: in the interleaved machine no path is a symbolic link; file modes, the directory that holds the keys and failing writes in `ensure_agent_keypair` are not modelled: a failing write unlinks both files and can undo a pair that another caller validated, so agreement is stated for writes that do not fail.
- JSON records that are not shaped as the program writes them (an agent that is not an object, an attachment list that is not a list, two records of one name) in the attachment and credential modules.
- AgentIntegrations.SingletonHolds: stated for runs in which each attached name is registered when it is looked up, because the property fails otherwise; `set_agent_integrations`, which replaces a list unchecked, and deletion of integrations are not actions of that machine.
- PiCredential.WriterExcludesStarts: `core/pi` is not part of this model, so its writers of the credential record are assumed to hold the credential lock; diagnostic argument lists and the shape of exec prompts, which never start with credentials or are refused, are not modelled.
- PiWait.LeavesInTime: one pass of the loop is assumed to take at most a given time; the source bounds only the join, not the scheduler.
- PiWait.RemovedExactlyOnce: work directory names are taken to be unique, so a failing `mkdir` never names another run's directory.
- ConfigPath.SuccessIsSafe: nobody else changes the path during the walk; the mapping of `/var` on macOS and the choice of the base from the environment are not modelled; what the operating system permits beyond owner and mode is a parameter.
- CrashSafety.DanglingOnlyIfRaced: `update_channel` and `update_integration`, which change no names, are not actions; a registry save is one atomic step, as `os.replace` makes it.
- CrashSafety.SerialRunsAreSafe: neither `add_agent_channel` nor `add_agent_integration` checks that a name is registered; the first step of an attachment is the lookup that is then left to the caller.
- DemoScript.TapeFollowsScript: comments, headings, shell quoting, cosmetic settings, the generated `helpers.sh`, YAML input and JSON output are not modelled; times are exact reals where Python computes with floats.
- ChunkedLines.SendChatMessage: the text decoder's chunks are already text; its final flush may only add replacement characters, which is what a decoder emits for a sequence cut off at the end.
- ChatSessions.ClaudeBackend.SendMessage: sends on one backend do not overlap; what the coroutine does while waiting is one outcome, success, failure or cancellation.
- ChatHistory.OpenAIChatBackend.SendMessage: sends on one backend do not overlap; bearer tokens, request headers and error texts are not modelled.
- The sanitisers remove a fixed set of code points where the source uses a regular expression; redaction, label and name validation and timeout clamps would only add easy members.
- The Zeroclaw backend, health probes, onboarding, skills, lifecycle, templates, the command line and the web interface.
