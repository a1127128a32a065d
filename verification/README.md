# Models of the audit-test suite's stateful programs

The audit-test suite checks Linux audit and access control. Most of it is thin wrappers around one system
call. Six of its programs carry state, recursion or a protocol. This project models those six in Dafny and
proves what they keep over whole runs.

- **Control-message server** (`Text`, `CStrings`, `ControlMessages`, `Framing`, `FramingCuts`, `ServerLife`,
  `ControlServer`). Bytes arrive in arbitrary chunks. The server strips CR and LF in place, appends to a
  pending buffer, and cuts off requests that end in `;` with `strtok` and `memmove`. `Framing` is the loop as
  a state machine, `ServerLife` when it stops and whom it serves, `ControlServer` the loop on its char arrays.
- **Lease lock** (`LockFile`, `LockMessages`, `LockProtocol`, `LockHistory`). One decimal time in a file,
  overwritten without truncation, and any number of test clients that ask, hold and release.
- **Syscall relevancy language** (`Relevancy`, `RelevancyFile`, `RelevancyText`, `RelevancyMeaning`,
  `RelevancyParser`). Arch lists with negation and nested aliases, the first match decides. The recursion
  depth is a parameter: it is what is left of the interpreter's recursion limit.
- **Permission walk** (`PermissionWalk`, `PermissionLaws`, `PermissionPasses`, `PermissionWalker`). A file
  tree probed as owner, group and other with switched ids, as it is and chowned. The kernel is arbitrary;
  where a result needs it to follow section 4.5 (File Access Permissions) of the Base Definitions volume of
  POSIX.1-2017, it says so.
- **Socket handshake** (`SocketHandshake`). Parent and child, two queues, one socket file, under every
  interleaving.
- **Namespace switcher** (`Namespaces`). A linked list on the heap and the trace of system calls.
- **Audit search builder** (`AuditSearch`, `AuditValues`). The flag-driven loop against a declarative
  selection.

Where a program changes state, a class or method models it and is proved equal to a function of the old
state; the laws are lemmas about those functions. `hide` statements only keep unneeded definitions out of a
proof.

## What the code does, where that differs from what one might expect

- A NUL in the control stream hides the rest of its chunk, so cuts then matter. Independence of the cut is
  proved for what is read, and that is the stream if and only if it has no NUL. All cuts are handled alike if
  and only if no request is completed after the first NUL before the run ends.
- After `exit` the remaining requests of the same text are still handled; hence "up to the end of the run".
- A client may release late, and it may release again: its flag is never reset, the server does not ask who
  releases, and the clean-up runs twice when a signal arrives (audit-test/utils/run.bash:767). Either can let
  two clients hold the lock. A release is harmless if and only if no other client holds the lock at that
  moment; the first one after a grant, before the lease ends, always is.
- `query` is silent where no lock file exists, though `set` would be granted there.
- An alias line with a name but no list ends the relevancy parser by an uncaught exception; it is a failure
  of its own in the model.
- The permission oracle is wrong for some files owned by 65534 or grouped 65533; which ones is proved.
- The socket test says in a comment that a failed setup is returned. The code overwrites that result with the
  one of sending K: the exit status is nonzero if and only if a connect that was made came out other than its
  trial says, and there is a run that fails before its first connect and exits with 0.
- Three rows of the option table of the audit search are hidden by earlier ones.

## Model

| member | source | states |
|---|---|---|
| `CStrings.StrTok` | audit-test/utils/network-server/lblnet_tst_server.c:1245-1246 | strtok in place: the token and the text left for the next call are those of `Token`, at offsets inside the string, and no byte outside the string changes |
| `ControlMessages.CleanMembers` | audit-test/utils/network-server/lblnet_tst_server.c:1210-1219 | a character survives cleaning exactly when it was received and is neither CR nor LF |
| `ControlMessages.CleanAppend` | audit-test/utils/network-server/lblnet_tst_server.c:1210-1219 | cleaning is chunk by chunk |
| `ControlMessages.SegmentsOfJoin` | audit-test/utils/network-server/lblnet_tst_server.c:1242-1243 | splitting at ';' recovers any ';'-free pieces and tail that were written |
| `ControlMessages.JoinOfSegments` | audit-test/utils/network-server/lblnet_tst_server.c:1242-1243 | the pieces and the tail write out to the text again and hold no ';' |
| `ControlMessages.SplitAppend` | audit-test/utils/network-server/lblnet_tst_server.c:1221-1284 | splitting the kept tail with new data is splitting everything received |
| `ControlMessages.ParseWritten` | audit-test/utils/network-server/lblnet_tst_server.c:1245-1246 | leading ':' are skipped, the command ends at the next ':', what follows is the parameter, an empty one is none |
| `ControlMessages.EverySegment` | audit-test/utils/network-server/lblnet_tst_server.c:1245-1247 | every segment is of that written form, or all ':' and ignored |
| `ControlServer.GrowBuffer` | audit-test/utils/network-server/lblnet_tst_server.c:1159-1189 | however the queue changes between peeks, the peek loop takes one more 4095-byte step at each peek that fills the buffer and stops at the first that does not |
| `ControlServer.Strip` | audit-test/utils/network-server/lblnet_tst_server.c:1210-1219 | the in-place strip loop terminates and leaves the cleaned string |
| `ControlServer.Concatenate` | audit-test/utils/network-server/lblnet_tst_server.c:1221-1234 | the message buffer holds the old text followed by the new |
| `ControlServer.RunHandler` | audit-test/utils/network-server/lblnet_tst_server.c:414-418 | whatever strtok calls a handler makes on its parameter, it writes inside the parameter only |
| `ControlServer.CutRequest` | audit-test/utils/network-server/lblnet_tst_server.c:1243-1246 | the dispatched pair is `Parse` of the segment, and bytes from the end of the segment on are untouched |
| `ControlServer.ControlServer.DrainOne` | audit-test/utils/network-server/lblnet_tst_server.c:1242-1284 | one request is cut off and handled and exactly the text after its ';' remains, although handlers write into the buffer |
| `ControlServer.ControlServer.Drain` | audit-test/utils/network-server/lblnet_tst_server.c:1241-1284 | every complete request is handled in order and the text after the last ';' is kept |
| `ControlServer.ControlServer.TakePass` | audit-test/utils/network-server/lblnet_tst_server.c:1132-1285 | one pass of the outer loop is `Step`, on every outcome of accept, select and recv |
| `ControlServer.ControlServer.Serve` | audit-test/utils/network-server/lblnet_tst_server.c:1131-1285 | the whole loop logs exactly the requests of the cleaned text received, keeps its tail, and never keeps a ';' |
| `Framing.HandleFirst` | audit-test/utils/network-server/lblnet_tst_server.c:1242-1284 | handling a text at once is handling its first request and then the rest |
| `Framing.RunAccounts` | audit-test/utils/network-server/lblnet_tst_server.c:1131-1285 | over any run of network events, from any state, requests handled and text kept are those of everything received as one text |
| `Framing.RunFromStart` | audit-test/utils/network-server/lblnet_tst_server.c:1131-1285 | the same from the start, for a daemon and under inetd |
| `Framing.ChunkIndependence` | audit-test/utils/network-server/lblnet_tst_server.c:1131-1285 | up to the first `exit` (or `detach` under inetd) the requests handled are those of the whole stream split in one go; what the server reads of the chunks is the stream if and only if it has no NUL |
| `Framing.CutsAgree` | audit-test/utils/network-server/lblnet_tst_server.c:1131-1285 | two ways of cutting a NUL-free stream give the same requests up to the end of the run |
| `Framing.NulMakesCutsMatter` | audit-test/utils/network-server/lblnet_tst_server.c:1211-1233 | a stream with a NUL whose two cuts are handled differently |
| `FramingCuts.CutsAgreeExactly` | audit-test/utils/network-server/lblnet_tst_server.c:1131-1285 | all ways of cutting a stream give the same requests up to the end of the run if and only if the run ends before the first NUL or no request is completed after it |
| `FramingCuts.CutsDiffer` | audit-test/utils/network-server/lblnet_tst_server.c:1211-1233 | otherwise one chunk and single bytes are two cuts that are handled differently |
| `ServerLife.DaemonStops` | audit-test/utils/network-server/lblnet_tst_server.c:1131-1285 | over any run a daemon stops if and only if it handled an exit request or select failed while it waited; a client that closes, detaches or stays silent never stops it |
| `ServerLife.InetdStops` | audit-test/utils/network-server/lblnet_tst_server.c:1131-1285 | under inetd it stops exactly on those, or when the peer closes, sends nothing in time, or the connection was detached |
| `ServerLife.LastPassDecides` | audit-test/utils/network-server/lblnet_tst_server.c:1169-1201 | the pass that ends a run decides its status: 1 for a failing select, 0 for a connection that is lost or silent under inetd, none for exit |
| `ServerLife.EveryClientServed` | audit-test/utils/network-server/lblnet_tst_server.c:1131-1285 | the requests handled are those of the text of all passes in which the server waited, whichever clients closed or detached in between |
| `ServerLife.NextClientServed` | audit-test/utils/network-server/lblnet_tst_server.c:1193-1201 | a daemon serves the client it accepts next, though the one before closed |
| `ServerLife.ExitAndDetach` | audit-test/utils/network-server/lblnet_tst_server.c:1248-1251 | the two words, letter by letter in either case |
| `LockFile.ScanDigits` | audit-test/utils/network-server/lblnet_tst_server.c:437-450 | a printed time is read back as itself, whatever non-digit follows |
| `LockFile.ScanSigned` | audit-test/utils/network-server/lblnet_tst_server.c:437 | white space before a number is skipped and a sign obeyed |
| `LockFile.OverwriteReplaces` | audit-test/utils/network-server/lblnet_tst_server.c:447-450 | rewinding and overwriting without truncation leaves exactly the new numeral, when the replaced lease is not later |
| `LockFile.OverwriteLeavesDigits` | audit-test/utils/network-server/lblnet_tst_server.c:447-450 | in general it does so if and only if the old numeral is not longer |
| `LockFile.LockStep` | audit-test/utils/network-server/lblnet_tst_server.c:420-494 | every message, at any clock value, keeps the file absent, empty or one numeral; only a grant and a release move the lease, and to what |
| `LockFile.NarrowedLease` | audit-test/utils/network-server/lblnet_tst_server.c:189-201 | a remaining lease below 2^32 is never narrowed to 0 by the int reply, and is sent unchanged if and only if below 2^31 |
| `LockFile.ReplyZeroIsGrant` | audit-test/utils/network-server/lblnet_tst_server.c:422-456 | `set` answers 0 if and only if it granted the lock, and otherwise the narrowed remaining time |
| `LockFile.QueryForetellsSet` | audit-test/utils/network-server/lblnet_tst_server.c:469-491 | `query` answers what `set` would, except exactly where the file does not exist |
| `LockFile.ClientMessage` | audit-test/netfilter/run.conf:286-290 | the client's message is parsed and tokenised by the server into the timeout the client meant |
| `LockFile.ReleaseMessage` | audit-test/netfilter/run.conf:317-323 | the client's release message is parsed as a release |
| `LockFile.RunKeepsFile` | audit-test/utils/network-server/lblnet_tst_server.c:396-494 | the file stays canonical over every run, and its lease within 2^32 seconds while the clock does not go back |
| `LockFile.NoGrantWithinLease` | audit-test/utils/network-server/lblnet_tst_server.c:396-494 | no `set` is granted between a grant at t with timeout T and t+T unless a release came first, whatever else is sent and whatever the clock does |
| `LockMessages.TokenIsFirstWord` | audit-test/utils/network-server/lblnet_tst_server.c:414-418 | a strtok call takes the first non-empty piece of the text split at the character and leaves the others |
| `LockMessages.CommandByWords` | audit-test/utils/network-server/lblnet_tst_server.c:413-418 | which command any parameter asks for, by its first and second non-empty comma-separated word; none where C leaves it undefined |
| `LockMessages.CommandWords` | audit-test/utils/network-server/lblnet_tst_server.c:415-469 | the three command words, letter by letter in either case |
| `LockMessages.TimeoutOf` | audit-test/utils/network-server/lblnet_tst_server.c:417 | the timeout is the number its word starts with, a negative one modulo 2^32, and 0 without one |
| `LockMessages.QueryMessage` | audit-test/utils/network-server/lblnet_tst_server.c:469-491 | `lock:query;` leaves any file as it is and is answered with 0 after the lease and the seconds left within it |
| `LockMessages.ReleaseMessageEnds` | audit-test/utils/network-server/lblnet_tst_server.c:457-468 | `lock:release;` ends any lease now and is not answered |
| `LockMessages.SetMessage` | audit-test/utils/network-server/lblnet_tst_server.c:422-456 | `lock:set,t;` leases the lock for t seconds when no lease runs; else it changes nothing and is answered with the seconds left |
| `LockMessages.UnreadableFile` | audit-test/utils/network-server/lblnet_tst_server.c:437-446 | a file that starts with no number is left alone by set and query, which are not answered; an empty one is a lease long over |
| `LockFile.LockServer.CtlLock` | audit-test/utils/network-server/lblnet_tst_server.c:396-494 | the handler's file and reply are those of `Lock` |
| `LockProtocol.NextKeeps` | audit-test/netfilter/run.conf:286-323 | every atomic step of any client keeps exclusion and the agreement of lease and file, if a release is harmless |
| `LockProtocol.MutualExclusion` | audit-test/netfilter/run.conf:286-323 | in every reachable state of any number of clients at most one holds the lock, if releases are harmless |
| `LockProtocol.TimelyRunsAreExclusive` | audit-test/netfilter/run.conf:286-323 | if every release is a client's first since its grant and comes before its own lease ends, at most one client holds the lock over the whole run |
| `LockProtocol.ReleaseIsExact` | audit-test/netfilter/run.conf:317-323 | a release by any client whose flag is set, its first or a later one, lets an idle client in; then two hold the lock if and only if another client held it at the release |
| `LockProtocol.RunIsExact` | audit-test/netfilter/run.conf:286-323 | over whole runs, first and repeated releases alike: all are harmless if and only if at no point a further request could give the lock to two clients |
| `LockProtocol.LateReleaseBreaksExclusion` | audit-test/netfilter/run.conf:317-323 | a run of three clients in which a late release lets two hold the lock |
| `LockProtocol.SecondReleaseBreaksExclusion` | audit-test/utils/run.bash:767 | a run in which a client releases a second time, before its own lease ends, as when a signal and then the exit both run the clean-up: two then hold the lock |
| `LockHistory.FlagTellsHistory` | audit-test/netfilter/run.conf:286-323 | after any run a client's flag is set exactly when a request of its own was granted and heard; the lease runs from the last such grant for the time asked, and is given back by an unlock after it |
| `LockHistory.HoldsByHistory` | audit-test/netfilter/run.conf:286-323 | so who holds the lock can be told from the history alone |
| `LockHistory.WorldIsServerRun` | audit-test/netfilter/run.conf:286-323 | the lock file of all clients together is that of the server on the messages they send, and only a client once granted sends a release |
| `LockProtocol.TestClient.TryLock` | audit-test/netfilter/run.conf:286-297 | the held flag is set exactly by a 0 reply, and the server's file moves as `Lock` says |
| `LockProtocol.TestClient.Unlock` | audit-test/netfilter/run.conf:317-323 | a release is sent at every call once the run has locked, and the flag stays set |
| `LockProtocol.TestClient.Acquire` | audit-test/netfilter/run.conf:1245-1249 | alone with the server the retry loop gets the lock at the first attempt not before the lease it found ends |
| `Text.SplitOfJoin` | audit-test/utils/bin/screl-parser.py:76 | splitting at a character inverts joining parts without it |
| `Text.JoinOfSplit` | audit-test/utils/bin/screl-parser.py:76 | and joining inverts splitting |
| `Relevancy.FirstMatchAppend` | audit-test/utils/bin/screl-parser.py:75-94 | first match over two lists in a row is first match over the one, then the other |
| `Relevancy.InliningPreservesMeaning` | audit-test/utils/bin/screl-parser.py:75-94 | splicing every alias in, negations combined by exclusive or, preserves the result: no match, include, exclude, or the same first malformed token |
| `Relevancy.RankedEvaluates` | audit-test/utils/bin/screl-parser.py:83-88 | with a rank over the aliases, evaluation needs no more recursion than the rank |
| `Relevancy.ExpandableIffRanked` | audit-test/utils/bin/screl-parser.py:83-88 | some recursion limit suffices for all aliases if and only if there is a rank, that is, no cycle |
| `Relevancy.DepthIrrelevant` | audit-test/utils/bin/screl-parser.py:83-88 | once a result is reached, more recursion depth changes nothing |
| `Relevancy.SelfReferenceLoops` | audit-test/docs/syscall-relevancy.txt:69 | an alias that stands for itself is not resolved at any depth |
| `RelevancyFile.FilesCompose` | audit-test/utils/bin/screl-parser.py:121-153 | reading two files in a row is reading the second from what the first left |
| `RelevancyFile.OutputAppends` | audit-test/utils/bin/screl-parser.py:105-109 | the syscalls printed are added to those printed before and do not depend on them |
| `RelevancyFile.LateIsEarly` | audit-test/utils/bin/screl-parser.py:111-137 | from agreeing tables, resolving aliases at use prints, and stops at, the same as expanding them at definition, when each is defined once and before it is mentioned |
| `RelevancyFile.OrderedFileBindsAlike` | audit-test/utils/bin/screl-parser.py:111-153 | the same for whole files with no more aliases than the recursion limit allows nested calls |
| `RelevancyText.ForwardReferenceDiffers` | audit-test/utils/bin/screl-parser.py:111-137 | with an alias mentioned before its definition the two differ: a file of three lines that shows it |
| `RelevancyFile.OrderedFileNeverTooDeep` | audit-test/utils/bin/screl-parser.py:83-88 | such a file never reaches the recursion limit |
| `RelevancyText.ReadShow` | audit-test/utils/bin/screl-parser.py:50-73 | a printed item is read back as itself |
| `RelevancyText.ListRoundTrip` | audit-test/utils/bin/screl-parser.py:50-76 | a printed arch list is split and read back into the same items |
| `RelevancyText.LineRoundTrip` | audit-test/utils/bin/screl-parser.py:42-44 | a syscall line is read as its name and list: indented or not, columns parted by any blanks, ended by a line feed, CR and line feed or other blanks, with or without a comment |
| `RelevancyText.AliasRoundTrip` | audit-test/utils/bin/screl-parser.py:42-44 | the same for an alias line |
| `RelevancyText.EmptyLine` | audit-test/utils/bin/screl-parser.py:128-130 | a line of blanks, or of a comment after blanks, says nothing |
| `RelevancyText.WrongLines` | audit-test/utils/bin/screl-parser.py:96-119 | a single word is an alias without a name, or a bare syscall, which is no error |
| `RelevancyText.MissingListLine` | audit-test/utils/bin/screl-parser.py:111-119 | an alias with a name and no list is a failure of its own |
| `RelevancyText.ManyColumns` | audit-test/utils/bin/screl-parser.py:96-101 | a syscall line with three or more columns fails |
| `RelevancyText.ManyAliasColumns` | audit-test/utils/bin/screl-parser.py:111-116 | an alias line with four or more columns fails |
| `RelevancyText.CommentCut` | audit-test/utils/bin/screl-parser.py:42-44 | a comment leaves exactly what precedes it, stripped on the left only |
| `RelevancyText.ShownListVerdict` | audit-test/docs/syscall-relevancy.txt:87-101 | the parser includes a written list exactly when some item matches, none before it does, and it is not negated |
| `RelevancyText.WrittenLineRelevance` | audit-test/utils/bin/screl-parser.py:96-109 | a written line prints its syscall exactly by that documented rule and changes nothing else |
| `RelevancyMeaning.FileMeaning` | audit-test/utils/bin/screl-parser.py:96-153 | a whole file, without the parser's state: read to the end, every line is sound and the syscalls printed are those whose list includes the host under the aliases of the lines before; otherwise the parser stops at the first faulty line with its number and reason, having printed the relevant syscalls before it |
| `RelevancyMeaning.FirstTokenDecides` | audit-test/utils/bin/screl-parser.py:75-94 | a list means what its first deciding token means |
| `RelevancyMeaning.AliasToken` | audit-test/utils/bin/screl-parser.py:83-88 | an alias token means what the alias stands for, reversed by '!' |
| `RelevancyMeaning.ArchToken` | audit-test/utils/bin/screl-parser.py:90-92 | an arch token matches by pattern or as all, and by bits if it gives any; '!' excludes |
| `RelevancyMeaning.EmptyBits` | audit-test/utils/bin/screl-parser.py:58-67 | a colon with nothing after it is the same as no colon |
| `RelevancyMeaning.BadTokens` | audit-test/utils/bin/screl-parser.py:50-81 | an empty token, '!' alone, and a token with a second colon each stop the file |
| `RelevancyParser.ParseArchlist` | audit-test/utils/bin/screl-parser.py:75-94 | the loop with its recursive call computes `Eval` |
| `RelevancyParser.Parser.ParseLine` | audit-test/utils/bin/screl-parser.py:121-137 | a line updates the alias table, the output and the error as `Apply` says |
| `RelevancyParser.Parser.ParseFile` | audit-test/utils/bin/screl-parser.py:148-153 | a file is read as `Process` says |
| `PermissionWalk.SwitchTakesEffect` | audit-test/misc/tests/sys_procperms.c:96-106 | setegid then seteuid takes effect if and only if the process is root or each id is 0 or already in force |
| `PermissionLaws.AccessKeeps` | audit-test/misc/tests/sys_procperms.c:111-153 | one open adds one probe and one count, on the counter its outcome and expectation call for |
| `PermissionLaws.ClassesKeep` | audit-test/misc/tests/sys_procperms.c:224-275 | the six probes of a file run under exactly the intended ids without supplementary groups and end as root |
| `PermissionLaws.FailuresAreFalseGrants` | audit-test/misc/tests/sys_procperms.c:293-379 | for any kernel and tree `totalfail` is the number of probes granted although the mode bits of their class deny them; every probe had the intended ids; the walk ends as root |
| `PermissionLaws.OwnershipRestored` | audit-test/misc/tests/sys_procperms.c:188-208 | after the chown pass every file has its original owner and group, however often it is reached, if restoring works |
| `PermissionLaws.LeftChowned` | audit-test/misc/tests/sys_procperms.c:188-284 | one file is left with another owner exactly when the chown worked, the restoring one did not, and the ids differ |
| `PermissionLaws.CountersConserved` | audit-test/misc/tests/sys_procperms.c:293-379 | in the default pass the counters grow by 6 for each file and 1 for each link, even if entry types are wrong, as long as only links are listed as links |
| `PermissionLaws.MisjudgedByMode` | audit-test/misc/tests/sys_procperms.c:224-273 | the oracle contradicts POSIX.1-2017 XBD 4.5 for a file if and only if its owner is 65534, or its group 65533, with certain mode bits |
| `PermissionLaws.NoFalseFailures` | audit-test/misc/tests/sys_procperms.c:293-379 | under a kernel that grants no more than the standard, no failure is reported unless such a file is in the tree |
| `PermissionLaws.FailuresExactlyWhenMisjudged` | audit-test/misc/tests/sys_procperms.c:293-379 | under a kernel that grants what the standard says, a failure is reported if and only if such a file is in the tree |
| `PermissionLaws.BothPassesClean` | audit-test/misc/tests/sys_procperms.c:401-408 | both passes report no failure and leave the disk as it was, if no file and no test id is nobody's |
| `PermissionPasses.PassesSee` | audit-test/misc/tests/sys_procperms.c:401-408 | the first pass probes each file as it is, the second as owned by the test user and group, each under the ids of its class; both leave the disk as it was, if restoring works |
| `PermissionPasses.PassesFailExactly` | audit-test/misc/tests/sys_procperms.c:401-408 | each pass reports no failure if and only if no file is misjudged as that pass shows it |
| `PermissionPasses.PassesCover` | audit-test/misc/tests/sys_procperms.c:401-408 | each pass probes every file in all six ways |
| `PermissionPasses.ChownedFileCounts` | audit-test/misc/tests/sys_procperms.c:188-208 | a file of the chown pass is not counted when its chown is refused, skipped once when its owner did not change, and else probed six times |
| `PermissionPasses.SkipsAddUp` | audit-test/misc/tests/sys_procperms.c:401-408 | the skip counter does not start over: it has each link twice, each file the second pass could not own, and the probes that met no device or a busy one |
| `PermissionWalker.Walker.SetIdsOfProcess` | audit-test/misc/tests/sys_procperms.c:96-106 | the ids after the two calls |
| `PermissionWalker.Walker.TestAccessOf` | audit-test/misc/tests/sys_procperms.c:111-153 | the counters after one probe, as `TestAccess` |
| `PermissionWalker.Walker.TestAllOf` | audit-test/misc/tests/sys_procperms.c:158-284 | the state after one file, as `TestAll`, on every exit path |
| `PermissionWalker.Walker.CheckAccessOf` | audit-test/misc/tests/sys_procperms.c:293-379 | the state after a tree, as `CheckAccess` |
| `PermissionWalker.Walker.RunBoth` | audit-test/misc/tests/sys_procperms.c:401-408 | the failure counts of the two passes; the probes of the second were made on files as owned by the test user and group, and the disk is as before, if restoring works |
| `SocketHandshake.NextKeeps` | audit-test/misc/tests/unixdomainsocketperm.c:78-162 | every step of either process keeps the coordination, the ids and the file in step, and the record of attempts |
| `SocketHandshake.TrialsAreUndisturbed` | audit-test/misc/tests/unixdomainsocketperm.c:78-162 | under every schedule and for any number of trials: bind never finds the file there, and during a trial the file exists, the child is blocked in receive and both queues are empty |
| `SocketHandshake.TrialsAreAsPlanned` | audit-test/misc/tests/unixdomainsocketperm.c:103-133 | each connect is tried on a file with the mode and owner of its trial, under exactly the test user's ids |
| `SocketHandshake.OnlyFinalStops` | audit-test/misc/tests/unixdomainsocketperm.c:246-269 | no deadlock: if nothing can move, both processes are over, both queues are empty and the file is gone |
| `SocketHandshake.RunsEnd` | audit-test/misc/tests/unixdomainsocketperm.c:246-305 | every run is finite, whoever is scheduled, and ends so, also when the parent leaves a trial early |
| `SocketHandshake.VerdictIsRight` | audit-test/misc/tests/unixdomainsocketperm.c:133-140 | under a kernel that follows the standard the status is 0 if and only if no trial that was attempted misstates the standard; of a complete run, no trial of the plan |
| `SocketHandshake.SetupFailureForgotten` | audit-test/misc/tests/unixdomainsocketperm.c:294-324 | the setup failed if and only if rc is -1 when K is about to be sent; the exit status is -1 if some connect made came out other than its trial says, and 0 otherwise, whether or not the setup failed |
| `SocketHandshake.EarlyLeaveExitsZero` | audit-test/misc/tests/unixdomainsocketperm.c:96-101 | a schedule on which the first socket call fails, no trial is attempted, and the program exits 0 |
| `SocketHandshake.SourcePlanSound` | audit-test/misc/tests/unixdomainsocketperm.c:272-291 | the program's twelve trials agree with the standard if and only if the test user is neither root nor nobody and its groups are not nobody's |
| `SocketHandshake.SourceTrials` | audit-test/misc/tests/unixdomainsocketperm.c:272-291 | the twelve trials one by one |
| `SocketHandshake.TestRun.ChildStep` | audit-test/misc/tests/unixdomainsocketperm.c:246-269 | one step of the child loop |
| `SocketHandshake.TestRun.TrialStep` | audit-test/misc/tests/unixdomainsocketperm.c:96-156 | one step of the parent's test phase, with its early exits |
| `SocketHandshake.TestRun.ParentStep` | audit-test/misc/tests/unixdomainsocketperm.c:78-162 | one step of the parent |
| `SocketHandshake.TestRun.RunToEnd` | audit-test/misc/tests/unixdomainsocketperm.c:239-305 | from any state of a run, any scheduler and kernel lead to the final state |
| `Namespaces.OpensComeFirst` | audit-test/syscalls-ns/tests/helpers/setns.c:109-158 | all handles are opened, in option order, before the first setns |
| `Namespaces.SwitchPlace` | audit-test/syscalls-ns/tests/helpers/setns.c:92-102 | setns calls follow option order with matching types, each followed by its close and its free |
| `Namespaces.CompleteRun` | audit-test/syscalls-ns/tests/helpers/setns.c:109-160 | a run that reaches the command is known event by event: opens, the dummy head's free, each option's setns, close and free, the command, and nothing else |
| `Namespaces.FreedOnce` | audit-test/syscalls-ns/tests/helpers/setns.c:56-63 | every node, dummy head included, is freed exactly once |
| `Namespaces.ClosedOnce` | audit-test/syscalls-ns/tests/helpers/setns.c:92-102 | every descriptor is closed exactly once, right after the setns with its own type |
| `Namespaces.LettersSwitch` | audit-test/syscalls-ns/tests/helpers/setns.c:116-144 | which namespace type each option letter insists on, in the numbers setns takes |
| `Namespaces.CommandRuns` | audit-test/syscalls-ns/tests/helpers/setns.c:109-160 | the command is run if and only if there is one and every option is known, opened, stored and switched to |
| `Namespaces.Switcher.AddNs` | audit-test/syscalls-ns/tests/helpers/setns.c:65-90 | the walk to the end terminates and the new node is linked last, holding the descriptor and type |
| `Namespaces.Switcher.CallSetns` | audit-test/syscalls-ns/tests/helpers/setns.c:92-102 | the list is consumed in order: trace as specified, nodes freed once each up to a failing setns |
| `Namespaces.Switcher.QueueAll` | audit-test/syscalls-ns/tests/helpers/setns.c:116-144 | the option loop builds the list of all options, or stops at the first that fails |
| `Namespaces.Switcher.Run` | audit-test/syscalls-ns/tests/helpers/setns.c:104-167 | the whole trace, whether the command is run, and that no node is freed twice |
| `AuditSearch.OptLookup` | audit-test/audit-tools/tests/ausearch-test.c:83-92 | the table scan returns `Lookup` |
| `AuditSearch.LookupIs` | audit-test/audit-tools/tests/ausearch-test.c:83-92 | which is the option of the first row whose field matches, case aside |
| `AuditSearch.HiddenRows` | audit-test/audit-tools/tests/ausearch-test.c:42-81 | three rows can never be used, so a socket address is never searched as a host |
| `AuditValues.OptionsByName` | audit-test/audit-tools/tests/ausearch-test.c:42-92 | the option of every field name from an alphabetical list, case aside; no other field is searched |
| `AuditSearch.DoRecordTest` | audit-test/audit-tools/tests/ausearch-test.c:118-270 | the loop computes `TestRecord`: command, commands run, and how it stopped |
| `AuditSearch.ConsiderSelects` | audit-test/audit-tools/tests/ausearch-test.c:145-265 | one turn keeps a field exactly when the declarative selection does, with its option and value |
| `AuditSearch.RecordRefinesSelection` | audit-test/audit-tools/tests/ausearch-test.c:118-270 | when no value is missing and all searches succeed the command is the base, `-a` and the serial, and the selected fields in order |
| `AuditSearch.FirstSearchFails` | audit-test/audit-tools/tests/ausearch-test.c:130-144 | when the search by serial fails it is the only one |
| `AuditSearch.SearchFails` | audit-test/audit-tools/tests/ausearch-test.c:118-270 | when the search for a selected field is the first to fail, the test stops with the command up to that field |
| `AuditSearch.ValueMissing` | audit-test/audit-tools/tests/ausearch-test.c:151-157 | when a searchable field is the first without a value, the test gives up with the command up to it |
| `AuditSearch.RunsExtendEachOther` | audit-test/audit-tools/tests/ausearch-test.c:118-270 | whatever the searches do, each command run properly extends the one before, and only the last can have failed |
| `AuditSearch.CommandIsAdded` | audit-test/audit-tools/tests/ausearch-test.c:118-270 | after any number of fields and whatever the searches find, the command is the base, the serial and the options added so far, in order |
| `AuditValues.AddedIsField` | audit-test/audit-tools/tests/ausearch-test.c:157-258 | each value added is told from its field alone: yes exactly for a result that begins with s, y or 1, else no; what follows `local` and one character of a socket address; an escaped value's interpretation in single quotes, cut at 4095; else the raw value |
| `AuditSearch.OneHost` | audit-test/audit-tools/tests/ausearch-test.c:182-188 | of the options added to the command at most one is `-hn`, in every run, also one in which a search fails |
| `AuditSearch.IdFields` | audit-test/audit-tools/tests/ausearch-test.c:213-228 | of a login record exactly the first known auid and ses are passed over, of a user login or logout exactly the first uid, of a user AVC all |

## Left out

- Sockets, `select`, `accept`, `fork`, logging: `recv` is an arbitrary series of chunks and failures, and what a handler does beyond writing into its parameter is an event. `ctl_remote_call`, `ctl_ipsec`, `ctl_sockcon`, `ctl_getcon` and the transfers of `ctl_sendrand` and `ctl_recv` are events only.
- ControlServer.ControlServer.TakePass: the length of the receive buffer a chunk arrives in is not tied to the chunk, beyond being no shorter; the text read from it is the same for every such length.
- The guard that skips receiving while the buffer holds a `;` is not modelled: it is never taken, because the loop never keeps one.
- LockFile.LockServer.CtlLock: a null command word, or `set` without a timeout, is undefined in C and not modelled. Times are unbounded integers; only the timeout (unsigned int) and the reply (int) have a width, and a number too large for a long in the file or the message is not modelled.
- Two servers running `ctl_lock` at once: the code takes no file lock, and the model makes each message atomic.
- Lost connections keep the pending text for the next client, as the code does; keeping clients apart is not stated.
- `fnmatch` is an arbitrary predicate of a name and a pattern.
- RelevancyFile.OrderedFileBindsAlike: a file with more aliases than the recursion limit is not covered, because the interpreter may then stop.
- Characters outside the model's white space set, and text encoding, in the relevancy parser.
- Exceeding fixed buffers: the path and text buffers of the permission walk, and the 8192-byte command of the audit search. Only the 4096-byte quoting buffer, which truncates, is modelled.
- AuditSearch.ConsiderSelects: a unix socket address whose interpretation is the bare word `local` is searched as empty; the code then reads past the end of the string.
- Set-user-id bits, access control lists, execute permission and search permission of directories in the permission walk; a compliant kernel may deny for such reasons.
- SocketHandshake.NextKeeps: removing the file as root, and binding and listening while no file is there, are taken to succeed, as the code takes them to.
- Failing message queues, stale messages from an earlier run, and a failing `fork` in the socket test. Its printing of file details is left out.
- Memory exhaustion, except in the namespace switcher, where it ends the program.
- The system call wrappers, their drivers and the fixed permission tests (`fileperm.c`, `dirperm.c` and their like): single calls with finitely many cases.
- `checkaccess.c` and `namedpipes_fifoperm.c`: they do not report or do not synchronise what they set out to.
- Makefiles, `tally-results.sh`, `envcheck` and the other `run.conf` files.
