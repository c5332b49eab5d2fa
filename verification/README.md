# Automic Vault: verified cores

This project models the stateful and protocol-like parts of Automic Vault and proves what they are
built to guarantee. `dafny verify dfyconfig.toml` checks all of it.

| module | what it is about |
|---|---|
| `Text`, `Utf8` | byte strings, splitting and joining, UTF-8, the order of `BTreeMap` keys |
| `GitPlan`, `GitGrammar`, `GitBound` | a frozen Git request: its validation, the grammar that this accepts, its two printed forms, and how tight its limits are |
| `GitSession`, `GitRuns`, `GitFailures`, `GitOrigins`, `GitRoundTrip`, `GitLines`, `GitPushes` | the remote-helper session: framing, the loop, causality, failures, where each executed plan comes from, the round trip of a printed plan, what one line does, and when a push is served |
| `GitNetwork`, `GitHosting` | credential registration around Git processes, alone and under whole sessions, and the answer of the HTTPS child |
| `InjectArguments`, `Descriptors` | the command line of `av inject`, and descriptor injection over a POSIX descriptor table |
| `BundleTree`, `BundleDigest`, `BundleProtection`, `BundleInstall` | the Launcher Bundle: its digest stream, its protection, and the rename-based installer |
| `AwsCatalog` | the sensitive-output search and the filter of the read-only catalog |
| `RelayFile`, `ApprovalRelay` | the file of revoked rooms, and rooms and revocations under concurrent handlers, crashes and restarts |
| `HistoryTransfer` | the chunked transfer of the Authorization History |
| `UvRouting` | global flags and credential commands of uv |
| `PathInspection` | user-writable directories in front of protected ones on PATH |

How the outside world appears:

- A string is a sequence of bytes, one `char` per byte.
- The environment of a Git session is three functions (`write`, `resolve`, `execute`) of the question
  and of the whole history before it, so an answer may depend on anything that happened earlier.
- `GitNetwork` runs on a `Host`, again functions of everything done before: what Git, the broker and
  the operating system answer. `GitHosting` makes the environment of a session out of it.
- Every system call of `Descriptors` may fail; `faults` counts the ones that did, so a contract can say
  that an operation fails only when a call did.
- `BundleInstall` runs in a `World` that decides, for every step by its number, which calls fail and
  what a failed removal leaves. `log` records every state of the disk on the way, the stages of a
  removal or of a change of owners included, which are the states a crash can leave.
- `ApprovalRelay` interleaves handlers at the grain of one lock section, one write or one sync. A process
  that dies leaves the file as it is; a loss of power keeps what was synced and any number of the
  writes after that.

Some things that the code does, where a reader might expect otherwise:

- A revocation is appended by `writeln!` on an unbuffered file, which writes the identifier and the
  newline separately. Two revocations can interleave there, and a file with two identifiers on one
  line is one that no later start accepts. `ReloadIff` proves that the file can be loaded exactly when
  no identifier still in it was written onto an open line; `OverlapSpoilsFile` gives the run.
- What a revocation inserts is durable first (`RunInv`, `InsertedForever`). A process that dies between
  write and sync, however, reads the unsynced identifier back on its next start and answers GONE, and
  204 to another revocation, until a loss of power takes it away (`ReloadedThenForgotten`).
  `LooseIsAll` proves which members are not durable after any run, and `DurableIff` that among revoked
  rooms exactly the durable ones are refused for ever.
- `authorize` takes its two locks one after the other, so a room that is already revoked can still get
  an entry (`EntryAfterRevocation`); `VacatedIff` says exactly from when on it cannot.
- `Path::exists` answers no when it cannot tell. When it does so for the bundle in place, the installer
  treats the installation as a first one: an empty directory is overwritten, any other directory is
  deleted by the cleanup. `Install` states exactly when the bundle is conserved, at every crash point and
  in the end, and `LosingRun` loses one.
- `link_matches` answers no in the same way, so `remove` can report success and leave its command behind;
  `Remove` states exactly when, and `LeavingRun` does so.
- `rollback` deletes whatever bundle of the transaction's generation it sees at the final path, set
  aside or not (`RollbackLeaves`).
- When waiting for the HTTPS child fails, the child is left running while its registration is removed
  (`LostChildRun`). `TransportBrokenIff` proves that this is the only way in which one transport breaks
  the discipline, and `Disciplined` that in a whole run it can only be the very last thing done.
- An empty history is never transferred: a chunk must not be empty (`EmptyIsRefused`).
- The size limit on a plan's printed lines is not implied by the other limits (`SizeBoundIsNeeded`),
  unlike those on their number, length and content (`RedundantGuards`).

## Model

| member | source | states |
|---|---|---|
| `Utf8.ValidUtf8Iff` | src/cli/git_remote.rs:10-30 | bytes pass as text exactly when they are the encoding of a sequence of Unicode scalar values |
| `Text.LessIff` | src/git_transport.rs:272-283 | the order in which leases and options are printed: the first difference decides, and a prefix comes first |
| `GitPlan.AllDistinct` | src/git_transport.rs:253-262 | the `all` that inserts into `destinations` succeeds exactly when every command is acceptable and no destination repeats, and then the set is exactly the destinations |
| `GitPlan.CheckPushes` | src/git_transport.rs:253-262 | accepts exactly batches of acceptable pushes to pairwise distinct branches that use every lease |
| `GitPlan.Validate` | src/git_transport.rs:233-270 | accepts exactly the valid plans |
| `GitPlan.PayloadLinesPlain` | src/git_transport.rs:272-295 | every line printed for a plan with valid parts is printable, non-empty and at most 4148 bytes |
| `GitPlan.PigeonholeOptions` | src/git_transport.rs:222-230 | valid options have at most six keys |
| `GitPlan.RedundantGuards` | src/git_transport.rs:233-270 | the guards on number, length and content of the wire lines follow from the other clauses |
| `GitGrammar.UrlIff` | src/git_transport.rs:103-119 | a URL is accepted exactly when it is `https://github.com/`, two plain names with a slash between them, and `.git` |
| `GitGrammar.BranchIff` | src/git_transport.rs:210-220 | a branch is accepted exactly when it is `refs/heads/` and slash-separated components, each without dots at its ends or two in a row and not ending in `.lock`, 4096 bytes in all |
| `GitGrammar.FetchIff` | src/git_transport.rs:249-252 | a fetch command is accepted exactly when it is `fetch`, an object and HEAD or a branch |
| `GitGrammar.PushIff` | src/git_transport.rs:253-262 | a push command is accepted exactly when it is `push [+]OID:BRANCH` with an object that is not null, not forced over a lease |
| `GitGrammar.ValidIff` | src/git_transport.rs:233-270 | a plan is valid exactly when its URL, options, leases and commands are written by that grammar, each lease belongs to exactly one pushed branch, and the limits hold; of the guards on the printed lines only their total size is left |
| `GitBound.LineBoundIsReached` | src/git_transport.rs:233-270 | a valid plan with exactly 8202 wire lines exists, so the bound is tight |
| `GitBound.SizeBoundIsNeeded` | src/git_transport.rs:233-270 | the total-size guard refuses a plan that every other clause accepts |
| `GitSession.ReadLineAccepts` | src/cli/git_remote.rs:10-30 | any text of at most 8191 clean UTF-8 bytes followed by a newline is read back as that line, and the rest is left |
| `GitSession.ReadLineParts` | src/cli/git_remote.rs:10-30 | a line that is read is such a text, and input is exactly line, newline and rest |
| `GitSession.ReadLineStable` | src/cli/git_remote.rs:10-30 | more input never changes a line that was complete |
| `GitLines.ReadLineIff` | src/cli/git_remote.rs:10-30 | a read gives the end exactly when nothing is left, a line exactly when a framable text and a newline come first, and an error otherwise |
| `GitLines.CapabilitiesAnnounced` | src/cli/git_remote.rs:213-215 | `capabilities` is answered by fetch, push and option, and changes nothing else |
| `GitLines.OptionIff` | src/cli/git_remote.rs:216-240 | an option line is acknowledged exactly when it is a valid option or a new, well-formed lease that fits; any other fails the session without an answer |
| `GitLines.UnknownEnds` | src/cli/git_remote.rs:308 | any other line between requests ends the session as a failure, whatever follows, with nothing done about it |
| `GitLines.BatchLineIff` | src/cli/git_remote.rs:250-267 | a batch takes exactly the lines of its own kind for which there is room |
| `GitLines.FinishedMeans` | src/cli/git_remote.rs:197-314 | success is only reached between requests, at a blank line or the clean end of the input, with every lease used |
| `GitSession.RewritePushes` | src/cli/git_remote.rs:268-297 | the in-place rewriting loop computes `ResolveAll` |
| `GitSession.ReadBatch` | src/cli/git_remote.rs:250-267 | the inner loop takes the machine from an open batch to its blank line, or to the failure the whole session then reports |
| `GitSession.FreezeAndExecute` | src/cli/git_remote.rs:268-307 | resolving, freezing, validating and executing a batch is the machine's closing step |
| `GitPushes.OrdinaryPush` | src/cli/git_remote.rs:268-307 | on the bytes of settings and push lines to distinct branches, with a source HEAD, a branch or an object each: every source is asked about once and in order, exactly one plan with the answers in their place is executed, and the session ends well |
| `GitPushes.PushServed` | src/cli/git_remote.rs:268-307 | the same for any such lines and answers: the plan is executed exactly when it is valid, and otherwise the session fails as an invalid plan |
| `GitPushes.PushRefused` | src/cli/git_remote.rs:268-297 | with any other line among them, the session fails, asks nothing about that line or a later one, and executes nothing |
| `GitSession.ServeRequest` | src/cli/git_remote.rs:241-307 | one request advances the machine to the same final outcome on the remaining bytes |
| `GitSession.ServeLine` | src/cli/git_remote.rs:207-309 | so does any line of the outer loop |
| `GitSession.RunSession` | src/cli/git_remote.rs:197-314 | the imperative session ends in exactly the outcome of the byte-driven state machine, finished or failed |
| `GitRuns.DriveIsRun` | src/cli/git_remote.rs:197-314 | driving bytes equals folding the machine over the framed lines |
| `GitRuns.DriveCausal` | src/cli/git_remote.rs:197-314 | everything written, asked and executed on some bytes is a prefix of what happens when more bytes follow |
| `GitRuns.SessionCausality` | src/cli/git_remote.rs:197-314 | the plans executed on `input` are a prefix of those executed on `input + more` |
| `GitFailures.FailureIsLast` | src/cli/git_remote.rs:197-314 | the first write, resolution or execution that fails is the last event of the session, and the session reports failure |
| `GitOrigins.RunAccounted` | src/cli/git_remote.rs:197-314 | in every live state of every run, options are the last-wins reading of all option lines, leases are exactly the `cas` lines since the previous plan, and the pending batch is the end of the input |
| `GitOrigins.ResolvedInOrder` | src/cli/git_remote.rs:268-297 | each command of a rewritten batch was resolved in turn, with exactly the events before it |
| `GitOrigins.SessionPlanOrigin` | src/cli/git_remote.rs:197-314 | every executed plan of every session is valid, has the fixed URL, and its options, leases and commands are those of the lines up to its own terminator, pushes with resolved sources |
| `GitOrigins.FinishedSpendsLeases` | src/cli/git_remote.rs:309-313 | success leaves no pending lease |
| `GitRoundTrip.RoundTrip` | src/git_transport.rs:285-295 | a session fed a valid plan's payload ends well and executes exactly that plan, once, after writing exactly one acknowledgement per option and lease |
| `GitRoundTrip.AnswerIsRelayed` | src/cli/git_remote.rs:126-153 | so the answer of a child that speaks this protocol is relayed whole, whatever it is |
| `GitRoundTrip.PayloadLinesFromWire` | src/git_transport.rs:272-295 | payload lines are the wire lines after the first three without the single blank one |
| `GitRoundTrip.WireLayout` | src/git_transport.rs:272-283 | the approver sees a header with URL and phase, one line per lease and option, a blank line, and the commands, in this order |
| `GitRoundTrip.WireInjective` | src/git_transport.rs:272-283 | equal wire lines of valid plans mean equal plans |
| `GitNetwork.Discipline` | src/cli/git_remote.rs:59-124 | in an unbroken run local Git and new registrations happen only when none is live, and a registration ends only when its own child is not running |
| `GitNetwork.Balance` | src/cli/git_remote.rs:59-124 | counted over an unbroken run there is never more than one registration, nor a child without one |
| `GitNetwork.TransportBrokenIff` | src/cli/git.rs:611-637 | one transport breaks the discipline exactly when the child starts, the wait for it fails and the unregistering takes effect all the same |
| `GitNetwork.TransportOkIff` | src/cli/git.rs:611-637 | one transport succeeds exactly when registering, starting, waiting, the exit status and unregistering all do, with exactly those acts |
| `GitNetwork.NetworkEarns` | src/cli/git_remote.rs:59-124 | no plan is answered with success unless every act on its behalf went well |
| `GitNetwork.ExecuteEarns` | src/cli/git.rs:559-687 | no operation succeeds unless every act went well: a local command or a child that exits without success makes it fail |
| `GitNetwork.WillingSucceeds` | src/cli/git.rs:559-687 | when nothing is refused, every operation and every valid plan succeeds |
| `GitNetwork.NetworkActs` | src/cli/git_remote.rs:59-124 | a plan that succeeds has asked three local questions, or none when it lists, then run exactly one registered child |
| `GitNetwork.PushActs` | src/cli/git.rs:559-646 | a push that succeeds has run four local commands, then one registered child |
| `GitNetwork.FetchActs` | src/cli/git.rs:559-687 | clone, fetch and pull have run five or three local commands, the child that lists, the child that fetches, then two or one local commands, in this order |
| `GitNetwork.ExecuteKeeps` | src/cli/git.rs:559-687 | on every host and from every idle log: a run breaks exactly when its last four acts are a transport whose child the host's answers lose, and success means idle after one or two finished children |
| `GitNetwork.ServeKeeps` | src/cli/git_remote.rs:155-195 | the same for every sequence of session events |
| `GitNetwork.LostChildRun` | src/cli/git_remote.rs:93-123 | a host on which only the wait fails, and the broken run it gives |
| `GitHosting.SessionDisciplined` | src/cli/git_remote.rs:155-314 | every session on every input, with `resolve` and `execute` run on any host, keeps the discipline to its end; one that finishes leaves nothing registered and ran one child per plan |
| `GitNetwork.Desk.Transport` | src/cli/git.rs:611-637 | the code does exactly the specified run; broken exactly when it loses its child, disciplined always, and success leaves nothing live and ran one child to its end |
| `GitNetwork.Desk.Network` | src/cli/git_remote.rs:59-124 | the same for one plan, with the local questions before the registration; an invalid plan does nothing |
| `GitNetwork.Desk.Serve` | src/cli/git_remote.rs:155-195 | the same for every sequence of session events up to the first failure, with one finished child per executed plan |
| `GitNetwork.Desk.Execute` | src/cli/git.rs:559-687 | the same for clone, fetch, pull and push, with two finished children, or one for push |
| `GitNetwork.TransportResponse` | src/cli/git_remote.rs:126-153 | exactly what follows one acknowledgement per option and lease is relayed, also when the child failed; with one missing, nothing is; success needs both |
| `InjectArguments.DescriptorIsCanonical` | src/cli/inject.rs:275-283 | the accepted numbers are exactly the canonical decimals from 3 to 2147483646 |
| `InjectArguments.DecimalIff` | src/cli/inject.rs:277-279 | the decimal of a number is the one sequence of digits with that value and no zero in front |
| `InjectArguments.AskIff` | src/cli/inject.rs:274-300 | the requests that are taken are exactly the arguments `+NAME` and `+NAME:NUMBER` with a well-formed name and a canonical number in range |
| `InjectArguments.ModeIff` | src/cli/inject.rs:241-251 | and the modes exactly `--mode=env` and `--mode=fd` |
| `InjectArguments.KindIff` | src/cli/inject.rs:236-317 | the tests of the loop are exclusive, so their order does not matter |
| `InjectArguments.ParseKinds` | src/cli/inject.rs:236-330 | accepts exactly the command lines that are in order, and returns what they stand for |
| `InjectArguments.Parse` | src/cli/inject.rs:202-332 | the same for raw arguments; on success the descriptor mapping is bounded and injective |
| `Descriptors.Duplicate` | src/cli/inject_fd.rs:44-57 | the result is the least free descriptor from 3 on outside the destinations, everything else unchanged; it fails only when a call does, and `fd + 1` stays in range |
| `Descriptors.MovedPipe` | src/cli/inject_fd.rs:72-76 | both ends of a fresh pipe lie outside the destinations wherever `io::pipe` put them |
| `Descriptors.MakePipe` | src/cli/inject_fd.rs:71-88 | the destination becomes the close-on-exec read end of a fresh pipe, or the table is as before |
| `Descriptors.Reserve` | src/cli/inject_fd.rs:59-94 | all destinations reserved with nothing else changed, or the table exactly as before, and that only when a destination was taken or a call failed |
| `Descriptors.ReservationShape` | src/cli/inject_fd.rs:59-94 | after a reservation each destination is the read end of its own fresh pipe, writers are outside, old descriptors are untouched and nothing else is open |
| `Descriptors.WriteAll` | src/cli/inject_fd.rs:114-120 | a series of partial writes appends exactly the data to that pipe and to no other |
| `Descriptors.Fill` | src/cli/inject_fd.rs:96-126 | every pipe holds its value and every writer is closed, or nothing stays open, and that only when a value is missing or a call failed |
| `Descriptors.SecretsDelivered` | src/cli/inject_fd.rs:96-126 | then reading a destination to end of file gives exactly its secret, and only the destinations were added |
| `Descriptors.Prepare` | src/cli/inject_fd.rs:128-153 | reserve, approve and fill together: delivered, or the table exactly as before and a reason |
| `Descriptors.Expose` | src/cli/inject_fd.rs:157-166 | close-on-exec is cleared on exactly the destinations |
| `Descriptors.TargetInherits` | src/cli/inject_fd.rs:128-167 | the target inherits what it would have anyway plus exactly the destinations |
| `BundleTree.HashContent` | src/cli/launcher_bundle.rs:507-520 | the read loop feeds exactly the file's bytes |
| `BundleTree.HashTreeEntry` | src/cli/launcher_bundle.rs:472-522 | accepts exactly trees of files and directories with UTF-8 paths of which nothing fails to be inspected or read, and feeds exactly their stream |
| `BundleDigest.EncodeDecodes` | src/cli/launcher_bundle.rs:481-506 | the front of a stream determines its first record and the rest |
| `BundleDigest.FlattenInjective` | src/cli/launcher_bundle.rs:472-522 | equal streams of records mean equal records |
| `BundleDigest.RecordsDetermine` | src/cli/launcher_bundle.rs:472-522 | equal records mean the same names and contents, whatever from outside the tree follows |
| `BundleDigest.StreamIdentifiesTree` | src/cli/launcher_bundle.rs:461-522 | two trees have equal streams if and only if they have the same names and contents, whatever their owners, modes and listing order |
| `BundleProtection.ChownTree` | src/cli/launcher_bundle.rs:445-459 | succeeds exactly when there is no link and no call fails, and then every entry changed owner and kept its mode; at every stage only owners can have changed |
| `BundleProtection.ProtectTree` | src/cli/launcher_bundle.rs:395-419 | succeeds exactly when there is no link or special file and no call fails, and then every entry is protected as `ProtectedThroughout` says; at every stage only owners and modes can have changed |
| `BundleProtection.AlikeStream` | src/cli/launcher_bundle.rs:461-522 | owners and modes are not part of the digest |
| `BundleProtection.ProtectionSound` | src/cli/launcher_bundle.rs:395-443 | protection keeps the stream, is idempotent and yields a tree that validation accepts |
| `BundleProtection.ProtectedThroughout` | src/cli/launcher_bundle.rs:395-419 | every entry gets the owner's uid and gid, is readable by all, writable by its owner only, and executable for all if it is a directory or was executable by anyone, for nobody otherwise |
| `BundleProtection.HandedOverThroughout` | src/cli/launcher_bundle.rs:445-459 | every entry gets the owner's uid and gid and keeps its mode |
| `BundleProtection.ValidatedIff` | src/cli/launcher_bundle.rs:421-443 | accepts exactly trees whose every entry is a file or directory of that user that nobody else may write |
| `BundleInstall.Installer.RemoveTree` | src/cli/launcher_bundle.rs:622-628 | removed, or a remainder of that directory is left, or it was taken for missing or is no directory, as the world decides; every stage is on the log |
| `BundleInstall.Installer.Finish` | src/cli/launcher_bundle.rs:128-155 | exactly when it succeeds, and then: the old bundle is in the Trash and nowhere else, handed over to the marker's owner when no change of owner fails, and the marker is gone exactly when its removal succeeds; conserved at every step, failure changes nothing, and the new bundle and its command are untouched |
| `BundleInstall.Installer.Rollback` | src/cli/launcher_bundle.rs:96-126 | a bundle set aside is conserved at every stage and back in place when nothing fails; with nothing set aside, exactly what is left of the bundle at the final path; success means that the marker is gone |
| `BundleInstall.Installer.Remove` | src/cli/launcher_bundle.rs:157-192 | exactly when it succeeds; conserved at every stage; success means it is in the Trash, handed over to the user, and its command is left exactly when the look at it failed |
| `BundleInstall.LeavingRun` | src/cli/launcher_bundle.rs:185-191 | one failed look at the command, and `remove` reports success and leaves it behind |
| `BundleInstall.Installer.Place` | src/cli/launcher_bundle.rs:54-78 | exactly when it succeeds on a world without failures, and the disk it leaves; success means the reviewed tree, generation and command are in place; the bundle set aside is never touched |
| `BundleInstall.Installer.Undo` | src/cli/launcher_bundle.rs:79-89 | conserved at every stage, and back in place when no step of the cleanup fails |
| `BundleInstall.Installer.Install` | src/cli/launcher_bundle.rs:12-94 | conserved at every crash point if and only if the bundle is not overlooked, or is then neither overwritten nor changed by the cleanup; the same for the end state; when no call fails, exactly when it succeeds, and the whole disk then, with the old bundle in the Trash and no marker; all or nothing, with full restoration when the steps that put things back succeed, and after any single failure |
| `BundleInstall.LosingRun` | src/cli/launcher_bundle.rs:42-88 | one failed probe and nothing else loses any directory or link in place |
| `AwsCatalog.Search.Visit` | scripts/generate-aws-read-only-catalog.py:135-159 | terminates on cyclic graphs; true is justified by a path, false leaves everything visited harmless and closed |
| `AwsCatalog.ExploredHidesNothing` | scripts/generate-aws-read-only-catalog.py:133-161 | a harmless closed set that contains the root means that nothing reachable is sensitive |
| `AwsCatalog.OutputIsSensitive` | scripts/generate-aws-read-only-catalog.py:121-161 | true exactly when the payload is a blob or some reachable shape streams or has a sensitive member name |
| `AwsCatalog.PayloadIff` | scripts/generate-aws-read-only-catalog.py:127-131 | the payload is a blob exactly when the first member of that name, wherever it stands, has a blob shape |
| `AwsCatalog.PassiveIff` | scripts/generate-aws-read-only-catalog.py:209-235 | the first admission rule in terms of service, reference, access level and operation prefix |
| `AwsCatalog.Decide` | scripts/generate-aws-read-only-catalog.py:209-235 | admits and counts exactly the commands described by the two rules |
| `AwsCatalog.GenerateCatalog` | scripts/generate-aws-read-only-catalog.py:209-240 | the catalog lists exactly the admitted commands and the two custom ones, and the count is exact |
| `RelayFile.LoadIff` | src/approval_relay/main.rs:655-674 | a file is loaded exactly when it is a sequence of identifiers, each with a newline or a carriage return and a newline, the last one possibly without |
| `RelayFile.LoadedAre` | src/approval_relay/main.rs:655-674 | and then gives exactly these identifiers |
| `RelayFile.LoadReadsWritten` | src/approval_relay/main.rs:655-680 | a file of appended pieces loads exactly when identifiers and newlines alternate, and then gives back every identifier written |
| `ApprovalRelay.RunInv` | src/approval_relay/main.rs:140-292 | in every reachable state whatever is revoked was written to the file first, and whatever a revocation inserts or is about to insert was durable first |
| `ApprovalRelay.LooseIsAll` | src/approval_relay/main.rs:140-292 | over every run, the revoked rooms that are not durable are exactly those that a start read back from beyond the last sync, with no sync, loss of power or other start since |
| `ApprovalRelay.DurableBeforeMemory` | src/approval_relay/main.rs:655-680 | so every member in memory is durable in the file if and only if there is no such room |
| `ApprovalRelay.FileSound` | src/approval_relay/main.rs:676-680 | the identifiers out of place in the file are exactly those that were written onto an open line and are still there |
| `ApprovalRelay.ReloadIff` | src/approval_relay/main.rs:655-680 | the relay can be started again exactly when there is no such identifier, and then gets back every revocation in memory |
| `ApprovalRelay.RefusedForever` | src/approval_relay/main.rs:248-292 | a revoked room stays refused over every process crash, and over every loss of power when it is durable, whenever the relay is up |
| `ApprovalRelay.InsertedForever` | src/approval_relay/main.rs:274-283 | what a revocation inserts is refused for ever, over both kinds of crash |
| `ApprovalRelay.DurableIff` | src/approval_relay/main.rs:655-680 | among revoked rooms exactly the durable ones are refused whatever happens |
| `ApprovalRelay.ReloadedThenForgotten` | src/approval_relay/main.rs:655-680 | a revocation read back before it was synced can be lost with the power |
| `ApprovalRelay.GoneAfterRevocation` | src/approval_relay/main.rs:140-173 | an authorization whose revoked check follows the insertion is answered GONE, over the same crashes |
| `ApprovalRelay.CredentialFixed` | src/approval_relay/main.rs:156-170 | the credential of a room never changes while its entry exists |
| `ApprovalRelay.GrantedStep` | src/approval_relay/main.rs:156-170 | past its checks, an authorization is granted exactly when the room's entry after the step has the credential presented; otherwise it is unauthorized and no entry changes |
| `ApprovalRelay.GrantedMeans` | src/approval_relay/main.rs:140-173 | every grant in every run answers an authorization that arrived for that room with the credential of its entry |
| `ApprovalRelay.AuthorizeAlone` | src/approval_relay/main.rs:140-173 | an uninterrupted authorization: its answer in every case, and the entry that a grant creates |
| `ApprovalRelay.RevokeRefused` | src/approval_relay/main.rs:248-273 | an uninterrupted revocation with a wrong credential, a malformed or a revoked room is answered and changes nothing |
| `ApprovalRelay.RevokeAlone` | src/approval_relay/main.rs:274-292 | any other one appends the identifier and a newline, syncs them, revokes the room, and removes its entry |
| `ApprovalRelay.WriterIsCleared` | src/approval_relay/main.rs:262-283 | in every run, whoever writes to the file has shown the credential of the room's entry, if it had one |
| `ApprovalRelay.OnlyWritersWrite` | src/approval_relay/main.rs:274-283 | and only such a handler changes the file or the set, for its own room only |
| `ApprovalRelay.VacatedForever` | src/approval_relay/main.rs:248-292 | once its entry is gone and no authorization is past its check, a revoked room never has an entry again |
| `ApprovalRelay.VacatedIff` | src/approval_relay/main.rs:140-292 | a revoked room never has an entry again if and only if it has none, no authorization is past its check, and the revocation is durable |
| `ApprovalRelay.OverlapSpoilsFile` | src/approval_relay/main.rs:676-680 | two revocations whose writes interleave leave a file that no start accepts |
| `ApprovalRelay.EntryAfterRevocation` | src/approval_relay/main.rs:140-173 | an authorization past its check can create an entry for a room already revoked |
| `HistoryTransfer.HistoryChunks.Append` | src/secrets.rs:1189-1205 | accepts exactly fitting chunks, extends the buffer by them, never beyond the total, and never changes the total |
| `HistoryTransfer.Transfer` | src/secrets.rs:1042-1132 | a value is exactly the chunks given, ends at the announced total and took at most that many rounds; no value has a stated cause |
| `HistoryTransfer.EveryChunkCounts` | src/secrets.rs:1189-1205 | non-empty chunks bound the number of rounds |
| `HistoryTransfer.SnapshotIff` | src/secrets.rs:1042-1132 | against a server that slices any one snapshot, the result is that snapshot exactly when it is not empty, is UTF-8, and memory never runs out; nothing else is returned in its place |
| `HistoryTransfer.EmptyIsRefused` | src/secrets.rs:1042-1132 | a server that announces an empty history is refused in the first round |
| `UvRouting.CommandOffset` | src/uv.rs:66-139 | the loop computes the offset function |
| `UvRouting.OffsetIff` | src/uv.rs:66-139 | the offset is `i` exactly when the first `i` arguments are recognised flags with their values and what follows is a word or the end |
| `UvRouting.GlobalsShift` | src/uv.rs:66-139 | global flags in front shift the offset by their number |
| `UvRouting.RoutingIgnoresGlobals` | src/uv.rs:15-64 | global flags in front never change the recognised command |
| `UvRouting.SubcommandIgnoresGlobals` | src/uv.rs:36-60 | global flags between `pip` or `tool` and its subcommand never change the recognised command either |
| `UvRouting.GlobalsIff` | src/uv.rs:66-139 | the flags that the loop passes are exactly those that can be written as single flags, flags with an attached value and flags with a separate one |
| `UvRouting.CredentialCommandIff` | src/uv.rs:15-64 | exactly the command lines that are recognised, and as what: none with a request for help or for the version anywhere, otherwise those whose words behind global flags are in the table of commands |
| `PathInspection.IsUserWritableOrCreatable` | src/path_security.rs:85-99 | the loop decides by the nearest existing ancestor |
| `PathInspection.LastProtected` | src/path_security.rs:61-62 | finds the last protected entry, or none when all are writable |
| `PathInspection.Inspection.Sealed` | src/path_security.rs:73-77 | the remembered answer is the filesystem's, whatever was remembered before |
| `PathInspection.Inspection.Inspect` | src/path_security.rs:44-83 | the pipeline with its memo and its `seen` set reports what the specification says, over any sequence of calls |
| `PathInspection.ReportMembers` | src/path_security.rs:65-83 | exactly the names of writable unsealed entries in front of some protected entry, or of all such entries when none is protected |
| `PathInspection.ReportDistinct` | src/path_security.rs:79-81 | each of them once |

## Left out

- Texts of error messages: an error is its kind.
- XPC messages, foreign calls, code signing, `plutil`, SHA-256 and ACL checks: success or failure, or an uninterpreted function.
- Process execution: the Git child of `network` is a start, an exit and a result; its output is a parameter of `TransportResponse`.
- GitSession.ReadLineParts: an I/O error while reading a line is not a case of its own; the session ends there as it does on a malformed line.
- `RemotePlan::arguments` and `Operation` of src/git_transport.rs: fixed argument lists.
- Threads that open descriptors while `reserve` runs: the descriptor table has one user, as in the single-threaded command.
- Descriptors.Reserve: files are owned through a ledger (`files`) that stands for Rust's drops, and the readers that `fill` pushes onto a vector stay in it.
- Descriptors.WriteAll: retrying a write after EINTR, inside the standard library, is not a step of its own.
- BundleProtection.ProtectTree: works on tree values and returns the tree as it is afterwards and at every stage, so it does not capture another process changing the directory meanwhile.
- BundleProtection.ChownTree: the same.
- BundleTree.HashTreeEntry: a file does not change between the reading of its length and of its bytes.
- BundleInstall.Installer.Install: the checks before the transaction starts (privilege, names, source, directories) are one check that may fail; the transaction marker and the command link are not part of what a failure restores.
- Name, generation and Trash validators of src/cli/launcher_bundle.rs: one-line checks.
- AwsCatalog.OutputIsSensitive: every shape has a name, names identify shapes, and which member names are sensitive is a parameter; the regular expressions over member names are not modelled.
- Loading of the AWS models and service references, and the rendering of the catalog.
- ApprovalRelay.ReloadIff: an identifier of 43 bytes and a newline are each written, and kept over a loss of power, whole or not at all, and the directory entry of the file is durable; registrations, broadcast channels, APNs and HTTP routing are not part of the model.
- HistoryTransfer.Transfer: the human approval message and the replies of other operations.
- PathInspection.Inspection.Inspect: whether a directory's commands are sealed is a parameter that agrees on spellings of one path; the nested memo of validated bundles is not modelled.
- Per-tool credential helpers, Homebrew policies, doctor, list, history rendering, GPG: shallow checks, reporting or library calls.
