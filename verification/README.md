# hed: a verified model

hed is a C library of small building blocks for network daemons: a transactional
repository over LMDB, MessagePack codecs for internet addresses, services and
networks, a time transcoder, enumerations with text forms, and the dispatch table of
an RPC server. This project models that code in Dafny and proves what its operations
keep and what whole runs of them do.

`dafny verify dfyconfig.toml` checks everything.

## How the model is built

**Storage** (`Lmdb`). LMDB and the file system are a contract: a store file and a
backup file, each absent, whole, or left partial by a copy that stopped half-way; a
private working copy for the open transaction; atomic commit. Every call made is
recorded with its return code. Which calls fail is decided by an arbitrary function of
the call number (`Faults`), so a theorem about all `Faults` covers a failure at every
storage call, every table index and every combination of them. A failed copy leaves
arbitrary contents in the backup.

**Repository** (`RepoSpec`, `RepoImpl`). `RepoImpl.Repo` is `struct hed_repo` with its
functions as methods that update its fields, statement by statement. Each is proved
equal, in state and return code, to a function of `RepoSpec`; the theorems are proved
about those functions and hence about the methods; the main conclusions are also stated
on the methods themselves. A run is any sequence of operations that the API assertions
allow (`RepoSpec.Enabled`), and no more than they ask: in particular it may open a
structure that is open already, or use one whose open failed. Both builds, with and
without `CONFIG_HED_REPO_3PC`, are covered (`Build.tpc`).

**Reading a run** (`RepoJournal`, `RepoRuns`, `RepoHistory`, `RepoSeq`). The record of
calls is interpreted by itself: which transactions committed (`IsCommit`), which of
them a later rollback undid (`Undone`: no newer copy lies between the commit and the
rollback), which handles are live (`EnvLive`, `TxnLive`), and which counter values were
stored (`Issued`). None of these looks at the two files; the theorems say the files
agree with the reading. `RepoHandles` and `RepoStrings` say exactly which runs keep
LMDB's rules for handles and use the two path strings only while they are allocated;
`RepoBlind` treats the rollbacks that the other theorems leave out. `RepoOpening`,
`RepoTxn` and `RepoIter` treat single operations, under any failures and, where "without
failures" is said, when no call from there on fails, whatever failed before. `RepoErrors`
proves that every operation stops at the first call that fails, does nothing more but
clean up, and returns that call's code.

Where a run does break the rules for handles or strings, C and LMDB promise nothing. The
other theorems still hold of the model, in which a lost handle is never used again and
storage keeps its contract.

**Codecs** (`MsgPack`, `WireFormat`, `InetCodec`, `InetStream`, `InetJson`, `PrefixCheck`).
The wire format is that of the MessagePack specification (int, str, bin and array
families); `WireFormat` gives its tables byte by byte and proves that the decoders take
exactly those forms and the encoders write the shortest.
`InetStream.Encoder` and `InetStream.Decoder` are the stream objects the C functions
advance. Prefix checks are related to the bits of the address, as section 2.3 of
RFC 4291 numbers them. `inet_pton` and `inet_ntop` are a pair of functions of which
only "parsing what was printed gives the address back" is used.

**Time, tables, dispatch** (`Calendar`, `TimeText`, `BaseCodec`, `RpcDispatch`).
Calendar arithmetic follows section 4.16 of the POSIX.1-2017 Base Definitions and is
proved to be the calendar itself, second by second, with the month lengths and leap years
written out (`Calendar.Tick`); the local zone is an arbitrary function from local times to
offsets.

## Where the code is not what it seems

The model follows the code. These are the places where that differs from the
documentation or from what one would expect, each with the theorem that says exactly
how.

- A rollback right after a repository was created fails and leaves it closed on an empty
  store, because the snapshot is taken before the tables exist
  (`RepoOpening.RollbackAfterCreating`).
- A start whose copy fails leaves the repository open over a spoilt backup; a rollback
  then installs that file (`RepoOpening.RollbackAfterFailedCopy`). Theorems on whole runs
  exclude exactly such rollbacks (`NoBlindRollback`).
- An open that fails at its last commit leaves the environment open and frees the path
  strings; every earlier failure closes it (`RepoOpening.OpenAllOrNothing`). Opening again
  then creates a second environment beside the first (`RepoHandles.RetryBreaksTheRules`),
  closing frees the strings twice (`RepoStrings.CloseFreesTwice`), and only a reload that
  itself fails early closes the environment without breaking one rule or the other
  (`RepoStrings.NoWayOut`).
- `O_CREAT` without `O_TRUNC` never stores the sequence counters, and a table without one
  never gets a number (`RepoSeq.CreateWithoutTruncate`, `RepoSeq.NoCounterNoNumber`).
- `hed_repo_count` negates LMDB codes that are already negative: a missing table "has"
  30798 entries (`RepoIter.CountOfMissing`).
- An iterator over an empty table is not returned, but its cursor stays open
  (`RepoIter.EmptyTableLeavesCursor`).
- `lib/inet-impl.c:330` masks the low `r` bits of the boundary byte instead of the low
  `8 - r` (`PrefixCheck.In6CheckIsRule`), and `lib/inet-impl.c:307` masks the low
  `prefix` bits of `s_addr` (`PrefixCheck.LittleEndianNeverAgrees`,
  `PrefixCheck.BigEndianAgreesAt16`).
- `include/hed/inet.h:728` and `:887` reject prefixes 32 and 128, which
  `include/hed/inet.yml:55` and `:59` give as maxima; `InetCodec.ChkIsValid` states the
  bounds the code has.
- The packed-size macros leave out the array header (`InetCodec.EncodedSize`).
- The JSON encoder narrows numbers by a cast and never relates address to prefix
  (`InetJson.PrefixNarrowed`, `InetJson.JsonAcceptsMore`, `InetJson.Json6AcceptsMore`).
- Times are printed in UTC and parsed as local time (`TimeText.SecondsSurvive`), and the
  product that scales the fraction can wrap: 2^58 milliseconds are read as none
  (`TimeText.ScaledWraps`).
- `hed_chk_name` runs its pattern with flags under which it never matches, so only the
  length is checked (`BaseCodec.NameRoundTrip`); without the flags it would refuse exactly
  the names it should accept (`BaseCodec.FlagsHideTheCheck`).
- `max_id + 1` wraps to an empty table for the largest id (`RpcDispatch.SlotsSuffice`).

## Model

| member | source | states |
|---|---|---|
| RepoHistory.SurvivingHistory | lib/repo.c:176-253 | After any run under any failures in which no rollback came right after a failed copy, the committed store is the initial store plus the transactions that committed and were not undone, in order; the open transaction sees that plus its own writes |
| RepoHistory.SoundIffNotBlind | lib/repo.c:243-252 | Every rollback of a run replaced the store by a whole copy if and only if none came right after a failed copy |
| RepoHistory.RollbackPoint | lib/repo.c:187-253 | Under the same condition, the backup is the store as the surviving transactions had left it at the latest copy, wherever that start happened (start, open, reload, rollback); at most one transaction has committed since, none while one is open |
| RepoHistory.RollbackReady | lib/repo.c:196-210 | An open repository of the three-phase build has such a backup if and only if its latest copy did not fail |
| RepoHistory.RollbackUndoesOne | lib/repo.c:187-253 | A rollback takes back at most one transaction: between an undone commit and its rollback no other commit happened |
| RepoHistory.RollbackRestores | lib/repo.c:241-253 | In any such reachable state a rollback whose rename goes through leaves the store as it was at the latest copy, unless that copy failed |
| RepoHandles.HandlesLive | lib/repo.c:9-239 | In every run the API allows, every handle a call names is live at that call, and an open transaction has an open environment |
| RepoHandles.EndedOnce | lib/repo.c:216-239 | In every such run no environment is used or closed after it was closed, and no transaction is used, committed or aborted after it ended |
| RepoHandles.HandleDiscipline | lib/repo.c:106-126 | All of LMDB's rules hold through a run, with no handle lost, if and only if the run never opens a structure whose environment is set |
| RepoHandles.FirstIllegalCall | lib/repo.c:106-159 | A call breaks LMDB's rules if and only if an open gets past its two allocations while an environment is live, in the structure or lost |
| RepoHandles.RetryBreaksTheRules | lib/repo.c:100-158 | On a fresh store whose first commit alone fails, the open reports the failure and leaves the environment open and the strings freed, and opening again makes an illegal call |
| RepoStrings.StringDiscipline | lib/repo.c:135-185 | The path strings are used and freed only while allocated if and only if no close, rollback, backup-making start or reload that reaches the file is made while the environment is open and the strings are freed |
| RepoStrings.StrandedBy | lib/repo.c:148-158 | That state is what an open failing at its last commit leaves, until the next open or until the environment is closed, and nothing else leads to it |
| RepoStrings.RetriedIsEnough | lib/repo.c:148-158 | Doing nothing but opening again after such an open is enough for the strings |
| RepoStrings.NoWayOut | lib/repo.c:100-158 | In that state every operation that breaks neither set of rules leaves the environment open, except a reload that fails before it reaches the file |
| RepoStrings.CloseFreesTwice | lib/repo.c:148-174 | The fresh store again: closing after the failed open frees the strings a second time |
| RepoBlind.BlindRollback | lib/repo.c:196-252 | From every reachable state: after a start whose copy fails, a rollback leaves what the copy left, and that is the surviving history if and only if it happens to equal it |
| RepoHistory.StepTables | lib/repo.c:130-132 | Only an open changes the declared tables |
| RepoHistory.TablesPlain | lib/repo.c:80-82 | No run ever has `.hed` among its declared tables |
| RepoRuns.StepReaches | lib/repo.c:106-416 | Every operation, under every failure, makes only calls that LMDB and the three-phase protocol allow, so any property kept by such calls is kept by the operation |
| RepoRuns.RunReaches | lib/repo.c:106-416 | The same for every run |
| RepoRuns.CallKeeps | lib/repo.c:187-253 | One such call, failed or not, keeps handles, files, working copy and backup in step with the record |
| RepoJournal.SurvivingRollback | lib/repo.c:243-252 | A rollback drops exactly the commits made after the latest copy from the survivors, and no other |
| RepoJournal.SurvivingSinceCopy | lib/repo.c:196-210 | The commits since the latest copy are the newest survivors, none of them undone yet |
| RepoOpening.RepoOpenAllOrNothing | lib/repo.c:47-104 | Opening leaves `.hed` and all tables present on success and the committed store unchanged on failure; the environment stays open only on success or when the last commit failed |
| RepoOpening.OpenAllOrNothing | lib/repo.c:106-159 | The same for the public open: with `O_TRUNC` every table is empty and `.hed` holds one zero counter each and nothing else; paths are kept exactly on success; a success leaves the previous store in the backup |
| RepoOpening.RepoOpenSucceeds | lib/repo.c:47-104 | Without failures opening succeeds if and only if the file is readable, no table name is empty and it may create, or `.hed` and every table exist; then the environment is open, otherwise it is closed and the code says whether the file, a table or a name was at fault |
| RepoOpening.OpenSucceeds | lib/repo.c:106-159 | The same for the public open, whose paths are kept exactly on success |
| RepoOpening.ReloadIdentity | lib/repo.c:176-185 | Reload changes no committed data, whatever fails |
| RepoOpening.ReloadSucceeds | lib/repo.c:176-185 | Without failures a reload returns 0 with the environment open, no transaction and the paths kept if and only if the file is readable and holds `.hed` and every table; otherwise it returns the code of what is missing, closed |
| RepoOpening.CloseThenOpen | lib/repo.c:161-174 | Close discards the open transaction and nothing else; a later plain open finds the same data |
| RepoOpening.RollbackExact | lib/repo.c:241-253 | A rollback leaves exactly what the backup held (or the store, if the rename failed), and if it reopens the backup holds the same |
| RepoOpening.RollbackTwice | lib/repo.c:241-253 | After a rollback that reopened, a second one is allowed and changes nothing |
| RepoOpening.RollbackSucceeds | lib/repo.c:241-253 | Without failures a rollback restores the snapshot and reopens if and only if the snapshot holds `.hed` and every table (and no name is empty) |
| RepoOpening.RollbackReopens | lib/repo.c:249-251 | A rollback whose rename failed still reopens, on the store, by the same condition |
| RepoOpening.RollbackAfterCreating | lib/repo.c:72-87 | Without failures, create, then roll back at once: not found, closed, empty store |
| RepoOpening.RollbackAfterFailedCopy | lib/repo.c:196-210 | A start whose copy fails keeps the store but spoils the backup, and a rollback then installs the spoilt file |
| RepoErrors.StartGives | lib/repo.c:187-214 | Whatever fails, a start makes no call after one that failed and returns its code, or 0 if none failed |
| RepoErrors.CommitGives | lib/repo.c:216-228 | A commit returns the code of its call |
| RepoErrors.UpdateGives | lib/repo.c:325-329 | An update stops at the first call that fails and returns its code |
| RepoErrors.DelGives | lib/repo.c:356-360 | So does a deletion |
| RepoErrors.FindGives | lib/repo.c:282-292 | So does a get |
| RepoErrors.FindCode | lib/repo.c:282-292 | Without failures a get returns 0 exactly when the value is there, and otherwise tells an empty name from a missing table or key |
| RepoErrors.FindReads | lib/repo.c:282-292 | Whatever fails, a get changes nothing, returns the code of its last call, and succeeds only if the value is there |
| RepoErrors.CountGives | lib/repo.c:376-384 | A count is the number of entries when no call failed, and otherwise the failing code negated |
| RepoErrors.NextSeqGives | lib/repo.c:401-415 | A sequence number other than 0 means that no call failed, and 0 that one did or that the counter wrapped |
| RepoErrors.RepoOpenGives | lib/repo.c:59-103 | `repo_open` stops at the first call that fails at any table index, then only cleans up, and returns its code |
| RepoErrors.OpenGives | lib/repo.c:135-158 | The public open likewise, except that a failed first allocation is reported as -ENOMEM |
| RepoErrors.ReloadGives | lib/repo.c:176-185 | A reload likewise |
| RepoErrors.RollbackGives | lib/repo.c:241-252 | A rollback likewise, taking no notice of its rename |
| RepoSeq.SequenceNumbers | lib/repo.c:387-416 | In any run that writes `.hed` only through next_seq, set_version and opens, with no rollback right after a failed copy, the numbers stored for a table since its counter was zeroed, in surviving and open transactions, are exactly 1, 2, ..., n, and n is the stored counter |
| RepoSeq.NumbersFromOpen | lib/repo.c:89-98 | After a truncating open anywhere in such a run, through everything that does not truncate again, the issued numbers of every declared table are 1, ..., n, n is stored, and the next call returns n + 1 or fails, unless a rollback undid that open's own commit |
| RepoSeq.CountingGoesOn | lib/repo.c:89-98 | From a truncating open on, a declared table keeps its counter through any run that does not truncate again and does not undo that open |
| RepoSeq.SettledForGood | lib/repo.c:196-210 | Once a later copy has succeeded, no operation whatever undoes a commit |
| RepoSeq.ForwardSettles | lib/repo.c:241-252 | Without a rollback no commit is undone |
| RepoSeq.CountsWithoutRollback | lib/repo.c:89-98 | After a truncating open that succeeded, through any such run without a rollback, every declared table counts, whatever fails |
| RepoSeq.FirstNumber | lib/repo.c:387-416 | Without failures, a truncating open, a start and one request give 1 |
| RepoSeq.NextSeqSucceeds | lib/repo.c:401-415 | Without failures the call returns the successor of the stored counter |
| RepoSeq.NextSeqContinues | lib/repo.c:387-416 | In such a run the next call returns n + 1 and records it as the next number, or fails with 0 |
| RepoSeq.NextSeqReturns | lib/repo.c:387-416 | One call returns one more than is stored and stores it, or returns 0 with nothing changed unless the counter wrapped; store and backup stay as they are |
| RepoSeq.OpenStartsCounting | lib/repo.c:89-98 | After a truncating open every declared table has a counter from which no number has been issued |
| RepoSeq.CountsUpAt | lib/repo.c:407-411 | The i-th number of a counting sequence is i, in the four bytes the host stores |
| RepoSeq.NoCounterNoNumber | lib/repo.c:401-404 | A table without a counter never gets a number |
| RepoSeq.CreateWithoutTruncate | lib/repo.c:89-98 | Creating without truncating leaves a fresh store without counters |
| RepoTxn.UpdateChangesOne | lib/repo.c:295-330 | An update changes exactly one value or nothing, and nothing on disk; without failures it fails exactly when the table is missing or its name empty |
| RepoTxn.DelRemovesOne | lib/repo.c:333-361 | A deletion removes exactly one value or nothing; without failures it fails exactly when there is nothing to remove |
| RepoTxn.UpdateThenGet | include/hed/repo.h:121-147 | Without failures a value (so also the version record) that was set is read back |
| RepoTxn.EndOfTransaction | lib/repo.c:216-239 | A commit stores the whole working copy or, when it fails, nothing; an abort stores nothing; both end the transaction |
| RepoTxn.OneUpdate | lib/repo.c:187-228 | Without failures start, update, commit: the store gains exactly that value and the backup keeps the store as it was |
| RepoTxn.CloseRemovesBackup | lib/repo.c:169-171 | Without failures close removes the backup exactly when the repository was opened for writing |
| RepoImpl.Repo.Shut | lib/repo.c:9-23 | Aborts the open transaction, closes the environment and clears both fields; both files stay as they are |
| RepoImpl.Repo.OpenTable | lib/repo.c:25-45 | Opens or creates one table and empties it under `O_TRUNC` |
| RepoImpl.Repo.OpenTables | lib/repo.c:76-87 | The loop over `.hed` and the tables stops at the first failure |
| RepoImpl.Repo.ZeroSeqs | lib/repo.c:89-98 | The loop stores one zero counter per table and stops at the first failure |
| RepoImpl.Repo.Prepare | lib/repo.c:63-98 | The calls that share the error label, in order |
| RepoImpl.Repo.Fill | lib/repo.c:72-98 | Starts the transaction and runs the two loops |
| RepoImpl.Repo.RepoOpen | lib/repo.c:47-104 | Creates the environment, prepares it and commits, or closes it again |
| RepoImpl.Repo.Open | lib/repo.c:106-159 | Sets the fields, loses any handles they held, allocates both paths, opens, and frees the paths on failure; the store is opened as asked or unchanged |
| RepoImpl.Repo.FreeStrings | lib/repo.c:154-157 | Frees both path strings |
| RepoImpl.Repo.Close | lib/repo.c:161-174 | Closes, removes the backup in write mode, frees the paths; the store stays as it is |
| RepoImpl.Repo.Reload | lib/repo.c:176-185 | Closes and opens again with the access mode alone; no committed data changes, whatever fails; without failures it reopens exactly when all is there; the code is that of the first call that failed |
| RepoImpl.Repo.Start | lib/repo.c:187-214 | In the three-phase build rewrites the backup before it begins the transaction, and begins none if that fails; the store stays, and on success transaction and backup hold its contents |
| RepoImpl.Repo.Commit | lib/repo.c:216-228 | Commits and forgets the transaction even when the commit fails, and then stores nothing |
| RepoImpl.Repo.Abort | lib/repo.c:230-239 | Aborts and forgets the transaction |
| RepoImpl.Repo.Rollback | lib/repo.c:241-253 | Closes, renames the backup over the store, ignores whether that worked, and opens again: the store holds exactly what the backup held, or stays if the rename failed |
| RepoImpl.Repo.GetValue | lib/repo.c:255-293 | On success returns what the open transaction has under the key; without failures the code tells exactly what is missing; under any it is that of the last call |
| RepoImpl.Repo.Update | lib/repo.c:295-330 | Opens the table and stores the value, with the code of the first call that fails; no other value changes |
| RepoImpl.Repo.Del | lib/repo.c:333-361 | Opens the table and deletes the key, with the code of the first call that fails; no other value changes |
| RepoImpl.Repo.Count | lib/repo.c:363-385 | The number of entries, or an error code negated |
| RepoImpl.Repo.NextSeq | lib/repo.c:387-416 | Reads, increments modulo 2^32 and stores the counter; 0 on failure |
| RepoImpl.Repo.Perform | lib/repo.c:106-416 | Every operation of a run, made on the object, is the step of the model |
| RepoIter.IterationComplete | lib/repo.c:418-499 | Without failures there is no iterator over an empty table; over any other, stepping until 0 yields each key once with its value, ascending, in exactly as many steps as `hed_repo_count` says, EAGAIN on all but the last |
| RepoIter.StepMoves | lib/repo.c:460-499 | One step yields the current entry and moves to the least greater key, or returns 0 when there is none |
| RepoIter.StepIs | lib/repo.c:477-498 | One step under any failures: exactly when it returns EAGAIN, 0 or -EINVAL, what it reads, and that it moves only with EAGAIN, to the least greater key |
| RepoIter.WalkBegins | lib/repo.c:460-499 | Whatever fails, the steps deliver a beginning of the ascending listing, with its values and without a gap |
| RepoIter.WalkEnds | lib/repo.c:491-498 | An iteration that ends with 0 has delivered everything, unless LMDB falsely reported the end |
| RepoIter.CreateIs | lib/repo.c:430-448 | Under any failures there is an iterator exactly when no call fails and the table has an entry, and it stands on the least key |
| RepoIter.LessIs | lib/repo.c:441 | The key order, stated without recursion: the first difference decides, and a prefix comes first |
| RepoIter.EmptyTableLeavesCursor | lib/repo.c:437-447 | Without failures, over an empty table the cursor is opened, finds nothing and is never closed |
| RepoIter.CountOfMissing | lib/repo.c:376-382 | Without failures the count of a missing table is the positive number 30798, and of one with an empty name 30781 |
| RepoIter.CreateIter | lib/repo.c:418-448 | An iterator on the least key, or null |
| RepoIter.OpenCursor | lib/repo.c:438-442 | The cursor calls of the creation, either of which may fail |
| RepoIter.Iter.Step | lib/repo.c:460-499 | Reads the current entry and advances in place, with the four return cases |
| PrefixCheck.CheckIn6 | lib/inet-impl.c:312-342 | The loop with its shrinking prefix returns 0 exactly when, for prefix 8q + r, byte q has its low r bits zero (all 8 when r is 0) and every later byte is zero; otherwise 1 |
| PrefixCheck.In6ClearBits | lib/inet-impl.c:324-339 | Those byte conditions, restated on the single bits the check looks at |
| PrefixCheck.RuleImpliesCheck | lib/inet-impl.c:324-339 | For r up to 4 every address without host bits passes |
| PrefixCheck.CheckImpliesRule | lib/inet-impl.c:324-339 | For r zero or from 4 on every address that passes has no host bits |
| PrefixCheck.WitnessWorks | lib/inet-impl.c:330 | For every other r an address on which check and rule differ, in the stated direction |
| PrefixCheck.In6CheckIsRule | lib/inet-impl.c:312-342 | Check and rule agree on all addresses if and only if r is 0 or 4 |
| PrefixCheck.Pow2Below32 | lib/inet-impl.c:307 | For every admitted prefix the shift stays within 32 bits |
| PrefixCheck.CheckInIsDivisibility | lib/inet-impl.c:298-310 | The IPv4 check returns 0 exactly when 2^prefix divides `s_addr` |
| PrefixCheck.LittleEndianNeverAgrees | lib/inet-impl.c:306-309 | On a little-endian host the check differs from the host-part rule for every prefix |
| PrefixCheck.BigEndianAgreesAt16 | lib/inet-impl.c:306-309 | On a big-endian host they agree on all addresses if and only if the prefix is 16 |
| WireFormat.IntFormIs | lib/inet-impl.c:132-140 | The number decoder takes exactly the forms of the int family, with the values the specification gives them |
| WireFormat.UintWritten | lib/inet-impl.c:122-130 | The bytes written for an unsigned number |
| WireFormat.IntWritten | include/hed/base.h:398-405 | A signed number is written in a form of itself with the fewest bytes |
| WireFormat.BinFormIs | lib/inet-impl.c:220-236 | The byte string decoder takes exactly the forms of the bin family |
| WireFormat.BinWritten | lib/inet-impl.c:210-218 | The bytes written for a byte string |
| WireFormat.StrFormIs | include/hed/base.h:101-115 | The string decoder takes exactly the forms of the str family |
| WireFormat.StrWritten | include/hed/base.h:138-146 | A string is written in its shortest form |
| WireFormat.ArrayFormIs | lib/inet.c:113-115 | The header decoder takes exactly the forms of the array family |
| WireFormat.FieldsFormIs | lib/inet-json.c:349-386 | Header and fields are decoded from exactly an array of two, an address and a number, in that order and in range |
| WireFormat.StructFormIs | lib/inet.c:104-375 | A structure decoder takes exactly the valid structures in these forms, and leaves what follows |
| WireFormat.Written | lib/inet.c:128-151 | The encoders write such a stream |
| WireFormat.RangeCodes | include/hed/inet.h:1077-1091 | The codes for a number too wide, a port of 0 and a prefix out of range |
| WireFormat.EnumFormIs | include/hed/base.h:361-375 | From any form of a number an enumeration decoder takes exactly the values of its table, with the code for each other case |
| WireFormat.NameFormIs | include/hed/base.h:101-115 | From any form of a string the name decoder takes exactly those of at most 40 bytes |
| InetCodec.ChkIsValid | lib/inet.c:90-351 | The four checks return 0 exactly on the valid structures, stated on fields and bits, else 1 |
| InetCodec.RoundTrip | lib/inet.c:104-151 | Decoding the encoding of a valid structure gives it back and leaves what follows, over all integer widths |
| InetCodec.StreamRoundTrip | lib/inet.c:104-151 | The same for any list of valid structures of mixed kinds, encoded one after the other |
| InetCodec.FieldsRoundTrip | lib/inet-json.c:349-386 | Header and fields alone survive even when the address check would fail |
| InetCodec.DecoderSound | lib/inet.c:353-375 | Whatever a decoder accepts is valid, re-encodes in no more bytes than were consumed, and decodes to itself |
| InetCodec.EncodedSize | include/hed/inet.h:1187-1197 | Every encoding lies between the MIN and MAX macros plus one; it exceeds the MAX macro itself exactly for services whose fields are all at their widest |
| InetStream.Encoder.Put | lib/inet-impl.c:122-130 | A field is appended whole or, for want of room, not at all |
| InetStream.Encoder.PutStruct | lib/inet.c:128-151 | Header and fields are all appended, or -EMSGSIZE with a prefix of them |
| InetStream.Encoder.Encode | lib/inet.c:128-151 | Succeeds exactly when the encoding fits and then appends exactly it |
| InetStream.Decoder.InAddr | lib/inet-impl.c:132-140 | Reads an unsigned 32-bit number and advances past it |
| InetStream.Decoder.In6Address | lib/inet-impl.c:220-236 | Reads a bin of exactly 16 bytes and advances past it |
| InetStream.Decoder.Port | include/hed/inet.h:1077-1091 | Reads a 16-bit number and refuses 0 |
| InetStream.Decoder.Prefix | include/hed/inet.h:759-773 | Reads an 8-bit number and refuses 32 (128) and above |
| InetStream.Decoder.Fields | lib/inet.c:270-289 | Header and fields in order, with the code of the first failure |
| InetStream.Decoder.Decode | lib/inet.c:353-375 | Fields, then the structure's check, the IPv6 one by its loop |
| InetJson.EncodeAddr | lib/inet-impl.c:142-170 | An address field is appended whole, or nothing is, with the code of what failed |
| InetJson.EncodeSecond | lib/inet-json.c:85-105 | A number field likewise: json-c's error, then the range after the cast, then the room |
| InetJson.EncodeFromJson | lib/inet-json.c:388-420 | Succeeds exactly on the JSON the path accepts when its bytes fit, and appends exactly them |
| InetJson.DecodeToJson | lib/inet-json.c:349-386 | Builds the object field by field: null exactly when a field fails to decode or json-c cannot allocate |
| InetJson.PathsAgree | lib/inet-json.c:349-495 | For every structure with fields in range the JSON path emits the bytes of the structure path and they decode to the same address and port or prefix |
| InetJson.JsonAccepted | lib/inet-json.c:85-105 | Which JSON is accepted and as which structure, both directions: json-c reports no error, the field is in range after the cast, and nothing relates address to prefix |
| InetJson.JsonThenStruct | lib/inet-json.c:388-420 | What JSON wrote is read back by the JSON path always, by the structure path exactly when valid, hence always for services |
| InetJson.JsonAcceptsMore | lib/inet-json.c:388-420 | For every IPv4 prefix but 0 a network that only the JSON path lets through |
| InetJson.Json6AcceptsMore | lib/inet-json.c:463-495 | For every IPv6 prefix a network that only the JSON path lets through |
| InetJson.PrefixNarrowed | lib/inet-json.c:96 | JSON prefixes that differ by a multiple of 256 are the same prefix |
| InetJson.PortNarrowed | lib/inet-json.c:175-195 | Which JSON ports are accepted and what is written for them: the value held to 32 bits and cut to 16, so any number past the largest int is port 65535 |
| InetJson.OddPorts | lib/inet-json.c:175-195 | As a port `true` is 1, and `false`, a list or an object is refused |
| InetJson.NumberError | lib/inet-json.c:95-98 | An error json-c reports for the number is returned negated |
| InetJson.JsonInvalid | lib/inet-json.c:403-413 | JSON that names no structure is an invalid argument |
| InetJson.NullIsMissing | lib/inet-json.c:403-413 | A null member is as good as none |
| MsgPack.UintRoundTrip | lib/inet-impl.c:122-140 | Every unsigned number survives, in the shortest of four widths |
| MsgPack.EncodeUintShortest | lib/inet-impl.c:132-140 | No accepted form of a number is shorter than the one the encoder writes |
| MsgPack.BinRoundTrip | lib/inet-impl.c:210-236 | Every byte string survives under the exact-length decoder |
| TimeText.TimeRoundTrip | lib/base-impl.c:28-57 | Every valid time survives the binary form |
| TimeText.CheckTimeIs | lib/base-impl.c:16-26 | Exactly the times not before the Epoch with less than a second of nanoseconds are valid, the others -EINVAL |
| TimeText.DecodeTimeIs | lib/base-impl.c:41-57 | Sixteen bytes decode to a time exactly when their two signed 64-bit halves are valid seconds and nanoseconds, and to -EINVAL otherwise |
| TimeText.PrintedAccepted | lib/base-impl.c:62-95 | In UTC every printed date with up to 999 milliseconds is accepted as exactly that time |
| TimeText.DateTextLayout | lib/base-impl.c:120 | Where each field and each separator of a printed date stands, and that the digits are the field |
| TimeText.TimeToTextIs | lib/base-impl.c:115-126 | The whole text: date, dot, three digits of milliseconds and `Z`; it exists exactly up to the last year whose number fits |
| TimeText.FieldSound | lib/base-impl.c:80-82 | A field that is read is spaces and then digits whose number is its value, within width and bounds |
| TimeText.DateBounds | lib/base-impl.c:80-82 | The bounds of the fields of any accepted date |
| TimeText.PlainFraction | lib/base-impl.c:84-86 | After the date, a dot and a number are read, and anything may follow |
| TimeText.SignedFraction | lib/base-impl.c:84-86 | The number may have a sign |
| TimeText.WrappedIs | lib/base-impl.c:89 | The product is kept modulo 2^64 |
| TimeText.ScaledEnds | lib/base-impl.c:84-89 | A number past either end of its range: past the largest it makes negative nanoseconds, past the smallest none |
| TimeText.PutTime | lib/base-impl.c:28-39 | A time is appended whole or, for want of room, not at all |
| TimeText.ReadTime | lib/base-impl.c:84-92 | Fraction, count and check of an accepted date |
| TimeText.DecodeTimeToJson | lib/base-impl.c:97-129 | Reads a time and prints it, null when it is invalid, its year does not fit or json-c cannot allocate |
| TimeText.EncodeTimeFromJson | lib/base-impl.c:62-95 | Parses the text and encodes the time, with nothing emitted on any failure |
| TimeText.ParseDateText | lib/base-impl.c:80-82 | A printed date is read back to the same fields if its year has four digits, and refused otherwise |
| TimeText.TextBack | lib/base-impl.c:80-92 | A printed date with any number of milliseconds is accepted exactly when its year has four digits and the time, with the product as stored in 64 bits, is valid |
| TimeText.ScaledExact | lib/base-impl.c:89-92 | While the product fits, exactly 0 to 999 milliseconds make valid nanoseconds |
| TimeText.ScaledWraps | lib/base-impl.c:89 | 2^58 milliseconds wrap around to none |
| TimeText.TextRoundTrip | lib/base-impl.c:62-129 | Printing then parsing any valid time: exact result for every zone and every year |
| TimeText.SecondsSurvive | lib/base-impl.c:88-115 | Up to year 9999 the trip keeps the seconds and cuts to the millisecond if and only if the zone offset is zero |
| TimeText.SecondTrip | lib/base-impl.c:62-129 | In UTC a second trip is the identity |
| Calendar.GmTimeInverts | lib/base-impl.c:115 | Breaking a time down and counting it up again gives it back |
| Calendar.TimeGmInverts | lib/base-impl.c:88 | Every real date is what its count breaks down to |
| Calendar.TickCounts | lib/base-impl.c:88 | The count grows by one with every second of the calendar, across the ends of minutes, hours, days, months and leap years, in every year |
| Calendar.EpochIsZero | lib/base-impl.c:115 | Second 0 is 1970-01-01T00:00:00, both ways |
| Calendar.GmTimeTicks | lib/base-impl.c:115 | Breaking down the next second gives the next moment of the calendar |
| Calendar.ProperIs | lib/base-impl.c:115 | The dates in question are those of the calendar, month lengths written out, from 1970 on |
| Calendar.CountRunsOn | lib/base-impl.c:88 | Fields past their ends run on in the count |
| Calendar.LastYear | lib/base-impl.c:115-118 | The last second whose year fits the field |
| Calendar.FourDigitYear | lib/base-impl.c:120 | Years have at most four digits exactly before 253402300800 |
| BaseCodec.FromStr | lib/base.c:76-95 | Bisection over a sorted table finds what a linear search finds, and ends |
| BaseCodec.ToStr | lib/base.c:51-61 | The scan returns the string of the first entry with the value |
| BaseCodec.ValueOfIs | lib/base.c:76-95 | A string is found exactly when it is in the table, with the value of its entry |
| BaseCodec.ConversionsInverse | lib/base.c:51-95 | In a sorted table with distinct values the two conversions undo each other, both ways |
| BaseCodec.TablesSorted | lib/base.c:43-49 | Every table of the library is strictly sorted and has distinct values |
| BaseCodec.NamesMean | lib/base.c:43-49 | Every name of every table with its number, and how many each table has |
| BaseCodec.DumpStr | lib/base.c:97-109 | Fills the buffer with the strings in table order and touches nothing behind them |
| BaseCodec.EnumRoundTrip | include/hed/base.h:361-405 | An enumeration value survives exactly when the table has it |
| BaseCodec.NameRoundTrip | include/hed/base.h:101-146 | Only the length of a name is checked, and every name of at most 40 bytes survives |
| BaseCodec.AnchoredMatch | lib/base.c:19-23 | A pattern anchored at both ends matches exactly the texts it describes whole, and none at all when either flag is set |
| BaseCodec.FlagsHideTheCheck | lib/base.c:19-28 | Without the flags the check would refuse exactly the short names of the pattern |
| RpcDispatch.Create | lib/rpc.c:9-45 | Each slot holds the method of the last entry with its id, null if none; -EPERM exactly for an empty list |
| RpcDispatch.LastForIs | lib/rpc.c:29-36 | That entry is in the list and nothing after it has the id; there is none exactly when no entry has it |
| RpcDispatch.SlotsSuffice | lib/rpc.c:24 | Every id up to the maximum has a slot if and only if the maximum is below 2^32 - 1 |

## Left out

- LMDB itself: pages, locks, the lock file, memory maps, how long returned pointers live, key-size limits, and the limit set by `mdb_env_set_maxdbs` (which appears only as a call that may fail).
- Crashes and power loss in the middle of a call; a commit that reports failure after its data reached the disk. A failed commit stores nothing here.
- Read-only mode and file modes: `flags & O_RDONLY` is always false where `O_RDONLY` is 0, and that is the mode modelled.
- What LMDB does once its handle rules are broken, and what C does with a freed string: `RepoHandles` and `RepoStrings` say when that happens. Path strings that a second open overwrites are leaked, which is not counted as misuse.
- `stroll_lvstr_init_cede` failing apart from an allocation failure.
- Iterators inside runs: a run does not contain iteration steps, which change no data. `hed_repo_destroy_iter`, stepping on after the end, and iterating while the table changes are not modelled.
- RepoSeq.SequenceNumbers: the 32-bit wrap ends a sequence; a counter that wrapped counts as freshly zeroed, and the number 0 is never handed out as a success.
- RepoSeq.NextSeqReturns: a stored counter of any other size than four bytes is excluded, as the code asserts.
- `lib/server.c`, `include/hed/server.h`, `include/hed/rpc_clnt.h`: epoll, signals and connections; their loops belong to libraries that are not part of this model.
- dpack, json-c and stroll: their memory management, the partly filled outputs they leave on failure, their internal error states. Which integer and string forms dpack accepts and which code it gives for each malformed input are taken from the MessagePack format families, not from its sources, which are not part of this model.
- Text of IPv4, IPv6 and Ethernet addresses, and Ethernet addresses altogether.
- JSON for enumerations and names (`lib/base-json.c`, `lib/inet-json.c:16-60`): the same two conversions again. JSON numbers with a fraction.
- The regular expression engine: only the pattern of names and the meaning of its two flags.
- BaseCodec.FromStr: the bisection of the stroll library is modelled as the standard one over the half-open range.
- TimeText.EncodeTimeFromJson: signed overflow and an over-long `%ld` are undefined in C; here the product wraps in 64 bits and the number is held to the ends of its range, as common implementations do. Daylight saving is whatever offset the zone function gives.
- RpcDispatch.Create: an id above `max_id` and a list longer than the table, which the code forbids or asserts against, are not modelled; the group of an authorisation is never looked at.
- Getters, setters, init and fini functions, which only store or return a field.
