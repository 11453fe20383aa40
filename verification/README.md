# Audit logging: a verified model

This project models an audit-log service and its log forwarder in Dafny and proves what they are for:
a hash-chained log that several servers append to, paged reads of it by file scan and by SQL, the
registry of clients that may write and read, and a forwarder that tails a source file and hands every
line over at least once. `dafny verify dfyconfig.toml` checks everything.

SHA-256 is a parameter, any function into 64 hex digits. No collision-freedom is assumed: where the
service relies on it, the theorems hand out the two colliding strings instead. JSON encoding, Unicode
case folding and PostgreSQL's JSON operators are parameters too. Two laws needed of JSON (a written
line reads back with the same header, a record that marshals to the same text and the same client id)
are preconditions on the records of a run; bodies that came through a JSON decoder meet them, a record
with invalid UTF-8 would not. Two more are needed in
one place each: that the texts of a written record read back too (`Handlers.WriteIsStored`,
`Access.CurrentTokenWrites`), and that of a marshalled record with a client id the database's JSON
operator yields that id (`PgHandlers.RowsCarryTheirWriter`). Clocks, random draws, system-call results and schedules are arbitrary
inputs.

| module | what it holds |
|---|---|
| `Strings`, `Positions`, `Codecs` | numerals, trimming; counting positions; base64url (section 5 of RFC 4648), cursors, tokens |
| `Chain`, `Verify` | the hash chain, what its head pins down, and the two verifiers |
| `FileStore` | the file backend's object, restarts |
| `PgAppend` | PostgreSQL Append as interleaved statements of any number of processes |
| `Paging`, `SqlQuery`, `SqlLike`, `CursorWalk` | one page specification, its two implementations, whole walks |
| `PgWalk` | cursor walks interleaved with PostgreSQL appends |
| `Registry`, `Handlers`, `Access` | tokens and clients; stamping and scoping of requests; both together |
| `PgHandlers` | the handlers over the PostgreSQL table |
| `Lines`, `Follower`, `CheckpointFs`, `Callback` | the forwarder's parts: line splitting, the tailing object, checkpoint files, the callback |
| `Delivery` | the forwarder as a step system over every file that was ever at the source path |
| `Loss`, `Recovery`, `Repeats`, `WholeLines` | which runs lose a line, what a restart makes up for, how often a line is repeated, when it is a whole line |
| `ForwarderFs`, `TailRuns` | the same step system on inodes and directory versions; the tailing object as runs of it |
| `Retry` | the client's retry loop |

Where the code and its documents differ, the code is followed. `docs/log-forwarder-plan.md` says the
checkpoint moves only after a server response; the code also moves it past lines that do not parse and
past dead-lettered lines, and `Loss.CheckpointNeverPasses` states that. The plan asks for no missed lines
across rotation and restart; the code misses some, and `Loss.AtLeastOnceIff` says exactly when. The plan
says 4xx replies are not retried; the code retries 429.

## Model

| member | source | states |
|---|---|---|
| `Chain.PreimageInjective` | cmd/server/main.go:215-215 | the bar-joined pre-image determines index, timestamp, payload hash and previous hash, even when the timestamp holds bars |
| `Chain.KnownPreimage` | cmd/server/main.go:215-215 | the order and the bars of the pre-image, on an example |
| `Chain.EntryHashCommits` | cmd/server/main.go:213-215 | equal entry hashes mean equal rows, or a collision between strings those two rows hash |
| `Chain.HeadCommits` | cmd/server/main.go:344-401 | two valid logs with the same head are equal in length and in every field and payload byte, or contain an explicit SHA-256 collision |
| `Chain.HeadPinsLog` | cmd/server/main.go:344-401 | without a collision among the strings two valid logs hash, their heads are equal if and only if the logs are |
| `Chain.ValidPrefix` | cmd/server/main.go:348-395 | every prefix of a valid chain is valid, so verifying alone cannot notice a deleted tail |
| `Chain.ValidAt` | cmd/server/main.go:371-390 | the rows of a valid chain carry 1, 2, 3, ... and each links to its predecessor |
| `Verify.VerifyFile` | cmd/server/main.go:334-402 | the verdict is the longest valid prefix, its head, InvalidAt = TotalEntries + 1 and the first failed check of what follows |
| `Verify.VerifyRows` | cmd/server/main.go:501-563 | the same verdict over table rows, zero and negative indexes included |
| `Verify.VerdictLongest` | cmd/server/main.go:344-401 | no prefix longer than TotalEntries is valid |
| `Verify.VerdictUnique` | cmd/server/main.go:344-401 | there is exactly one verdict on given rows |
| `Verify.VerdictOnValid` | cmd/server/main.go:397-401 | "valid" is reported exactly for readable valid chains, then with their count and head; otherwise a reason is given |
| `Verify.VerdictPinsLog` | cmd/server/main.go:344-401 | a log whose verdict repeats a recorded head is the recorded log, or collides with it |
| `Verify.VerdictReason` | cmd/server/main.go:371-390 | where the reported prefix ends at a row, the reason names the first of index, previous hash, payload hash and entry hash that is not what the chain needs there |
| `Verify.ReadRowsByLine` | cmd/server/main.go:348-366 | every line that is not blank gives the row with its header and its record marshalled again, up to the first that is not JSON or does not marshal, and which of the two it was is the reason to stop |
| `Verify.VerifyBoth` | cmd/server/main.go:334-402 | both verifiers give the same result, reason included, when the file reads back to the table's rows |
| `FileStore.AppendExtends` | cmd/server/main.go:201-245 | an append that is accepted adds exactly the next row of the chain and keeps memory and file in agreement; any other changes nothing |
| `FileStore.AppendsOneLine` | cmd/server/main.go:205-244 | an append is accepted exactly if record and entry marshal and the line is written; then the file gets the line of one entry, numbered next, linked to the head, with this record, this timestamp and the hashes of both, and that entry is the new head |
| `FileStore.RestartsAreInvisible` | cmd/server/main.go:172-245 | in any run of appends, failed writes and restarts the head in memory is what verifying the file reports, no restart is refused, and the restarts leave no trace |
| `FileStore.VerifierSeesTheHead` | cmd/server/main.go:247-251 | memory and file agree if and only if the verifier reports valid with the in-memory count and head |
| `FileStore.FileLog.Open` | cmd/server/main.go:172-199 | starts exactly on files that verify, adopting their count and head |
| `FileStore.FileLog.Append` | cmd/server/main.go:201-245 | succeeds exactly if accepted; the returned entry is the one whose line was added, built on the old head and now the head; an error leaves everything unchanged |
| `FileStore.FileLog.Verify` | cmd/server/main.go:247-251 | reports the file's verdict, and the in-memory head whenever the store is consistent |
| `FileStore.FileLog.QueryLogs` | cmd/server/main.go:253-332 | answers with the page by position over the file |
| `PgAppend.StepKeeps` | cmd/server/main.go:443-499 | every statement of every process keeps the invariant and only extends the table |
| `PgAppend.EveryRunIsAChain` | cmd/server/main.go:443-563 | after any interleaving of any number of processes the table is a valid chain with indexes 1..n, and verifying it says so with that count |
| `PgAppend.CommittedIsPermanent` | cmd/server/main.go:476-486 | what is committed at any moment is a prefix of what is committed later |
| `PgAppend.AckedRowStays` | cmd/server/main.go:484-498 | a committed Append owns its index for good |
| `PgAppend.LockExcludes` | cmd/server/main.go:450-452 | at most one process is between taking the lock and ending its transaction |
| `PgAppend.InsertNeedsCollisionToFail` | cmd/server/main.go:426-438 | the INSERT of a record that marshals goes through with the row that continues the committed chain, or two hashed strings collide: never a conflict on the primary key, and on the unique entry hash only by collision |
| `PgAppend.AppendGoesThrough` | cmd/server/main.go:443-499 | from every reachable state, a process that finds the lock free gets its record in, whatever statements of others come between its own: the table is one row longer, with its timestamp and payload, the next index and the link to the head, and after the release the lock is free; or the rows exhibit a collision |
| `PgAppend.FailureLeavesNoTrace` | cmd/server/main.go:448-486 | an error, a crash, a record that does not marshal or a conflict ends the transaction, frees the lock and changes no row and no other process |
| `Paging.ScanFile` | cmd/server/main.go:267-331 | the one-pass scan with early exit returns the specified page; by position: its items are the matches past the cursor from number offset on, as many as the limit allows, a next cursor exactly when one more is left, and as total the number of matching entries; it fails exactly if a garbled line is met before the scan may stop |
| `Paging.PageByPosition` | cmd/server/main.go:283-331 | the specified page is the page described by positions alone |
| `Paging.ReadByLine` | cmd/server/main.go:272-281 | reading gives the entry of every line that is not blank, up to the first that is not JSON |
| `Paging.FullPageIsFinal` | cmd/server/main.go:304-309 | nothing after a full page and one more match can change an uncounted page |
| `SqlQuery.FiltersMean` | cmd/server/main.go:567-591 | for every combination of filters each placeholder finds its own argument: the built WHERE clause is the conjunction of the filters, each on its own field, the text in the message or anywhere in the record |
| `SqlQuery.ListMeans` | cmd/server/main.go:604-632 | the list query adds the cursor, and its LIMIT and OFFSET placeholders carry limit + 1 and the offset |
| `SqlQuery.SelectMeans` | cmd/server/main.go:618-634 | evaluated on a table, it yields the first limit + 1 matching rows past cursor and offset |
| `SqlQuery.CountMeans` | cmd/server/main.go:595-602 | the count query counts the filtered rows, whatever the cursor |
| `SqlQuery.QueryTable` | cmd/server/main.go:593-683 | by position: the rows that meet the filters past the cursor from number offset on, decoded, as many as the limit allows, a next cursor exactly when one more is left, and as total the number of matching rows in the table as it was counted, which may be an older one; an error exactly if a record of the page or of the one more row does not decode |
| `SqlQuery.RowEntryExactly` | cmd/server/main.go:648-664 | a decoded row keeps timestamp and hashes in their places, and its index, a negative one as the uint64 with the same bits |
| `SqlQuery.TableRefines` | cmd/server/main.go:618-675 | the limit + 1 read of a decodable table whose keys mean the same to the cursor as the decoded indexes is the specified page |
| `SqlQuery.KeyedIff` | cmd/server/main.go:604-610 | a key column value and the decoded index agree about the cursor if and only if the key is not 0 without a cursor and not negative with one |
| `SqlQuery.QueryBoth` | cmd/server/main.go:254-684 | file scan and SQL read give equal pages, cursors and totals for any predicate the two agree on |
| `SqlLike.LikeIsSubstringIff` | cmd/server/main.go:582-586 | the text filter is substring search if and only if the text holds no percent sign, underscore or backslash |
| `CursorWalk.WalkIsComplete` | cmd/server/main.go:287-329 | a finished cursor walk, over a log growing between requests and with changing page sizes, returned exactly the matches past its start in the log its last page saw; no cursor is refused |
| `CursorWalk.WalkFromStart` | cmd/server/main.go:287-329 | from the start that is all matches in strictly ascending index order |
| `CursorWalk.WalkEnds` | cmd/server/main.go:304-329 | a walk ends once it has made as many requests as there are matches |
| `CursorWalk.NoEmptyLastPage` | cmd/server/main.go:326-329 | a cursor never leads to an empty page |
| `PgWalk.WalkDuringAppends` | cmd/server/main.go:443-684 | a walk through the list query with textual cursors, its pages anywhere between the statements of any number of appending processes, returns once finished exactly the matches among the rows committed at its last page, ascending |
| `PgWalk.EachPageIsTheSqlRead` | cmd/server/main.go:566-684 | the SQL read of the table at any moment of such a run is the specified page |
| `Codecs.Base64RoundTrip` | cmd/server/query.go:116-121 | base64url decoding undoes encoding on all byte strings |
| `Codecs.KnownTexts` | cmd/server/query.go:116-118 | the alphabet and the cut last groups, on texts of RFC 4648 |
| `Codecs.KnownDecodings` | cmd/server/query.go:120-124 | leftover bits are ignored; a lone last character and padding are refused |
| `Codecs.QuadIsNumber` | cmd/server/query.go:116-118 | the four characters of a group are the base-64 digits of the number that its three bytes write |
| `Codecs.BreaksDoNotMatter` | cmd/server/query.go:120-124 | line breaks anywhere in a text do not change what it decodes to |
| `Codecs.CursorRoundTrip` | cmd/server/query.go:116-146 | a cursor decodes to its index if and only if that fits int64, and is rejected otherwise |
| `Codecs.DecodeCursorExactly` | cmd/server/query.go:120-146 | a cursor is accepted exactly if it is base64url of v1: and the digits of a number that fits int64, and is that number |
| `Codecs.DecodeCursor` | cmd/server/query.go:120-146 | every accepted cursor survives the later conversion to int64 |
| `Codecs.ParseTokenExactly` | cmd/server/auth.go:94-100 | parseToken accepts exactly trimmed formatted tokens with a separator-free id, and returns their parts |
| `Codecs.TokenRoundTrip` | cmd/server/auth.go:69-100 | every hex id and base64url secret comes back, secrets with separators included |
| `Strings.TrimSpaceTrims` | cmd/server/router.go:94-96 | trimming takes away only white space at the ends, and all of it |
| `Registry.AuthenticatesCurrent` | cmd/server/clientstore_postgres.go:50-179 | after any run a token carrying the latest secret of an unrevoked client authenticates, and any other that does collides with that secret |
| `Registry.RevokedForever` | cmd/server/clientstore_postgres.go:156-179 | no token of a revoked client authenticates after any further calls |
| `Registry.IdentityIsFixed` | cmd/server/clientstore_postgres.go:126-179 | id, name and role never change once registered |
| `Registry.IssuedTokenWorks` | cmd/server/clientstore_postgres.go:94-154 | a token works from the moment it is returned |
| `Registry.PrincipalIsRegistered` | cmd/server/clientstore_postgres.go:50-124 | in every run an admitted principal is the id of its token with the name and role that the call which registered that id asked for, so it is an admin only if registered as one |
| `Registry.SucceedsIff` | cmd/server/clientstore_postgres.go:94-179 | exactly when Register, Rotate and Revoke succeed, by arguments and table, and what they leave of the row |
| `Registry.ApplyChangesOneRow` | cmd/server/clientstore_postgres.go:94-179 | a call changes one row of a new or active client, or nothing |
| `Registry.ClientStore.Authenticate` | cmd/server/clientstore_postgres.go:50-92 | the reply is the one the table decides |
| `Registry.ClientStore.Register` | cmd/server/clientstore_postgres.go:94-124 | succeeds exactly for a non-blank name, a known or blank role and an unused id; then the row has the trimmed name and the role asked for, client if blank, and the token carries the secret; refusals leave the table alone |
| `Registry.ClientStore.Rotate` | cmd/server/clientstore_postgres.go:126-154 | succeeds exactly for an active client: new hash and token, nothing else |
| `Registry.ClientStore.Revoke` | cmd/server/clientstore_postgres.go:156-179 | succeeds exactly for an active client and marks it revoked |
| `Handlers.ParseLogQuery` | cmd/server/query.go:37-108 | accepted queries have a limit from 1 to the maximum, an offset within bounds, never both cursor and offset, and no client id |
| `Handlers.ParsedExactly` | cmd/server/query.go:34-108 | by the raw parameters: exactly when a request is refused, and otherwise every field of the query: app, level, the text from q or else text, the limit with its default and maximum, offset, cursor and whether a total is wanted |
| `Handlers.AtoiExactly` | cmd/server/query.go:74-87 | numbers are decimal digits after at most one sign, within int64 |
| `Handlers.StampExactly` | cmd/server/router.go:67-103 | a body is stored exactly if it is JSON with non-blank app, level and message from a caller with an id, and then with the caller's id, its texts trimmed and its metadata, an empty object if none |
| `Handlers.MatchesExactly` | cmd/server/main.go:691-719 | the filter of a read is what its parameters ask for of app, level and text, within the caller's scope |
| `Handlers.ServedAppends` | cmd/server/router.go:57-117 | a write request adds nothing, or one entry attributed to the caller |
| `Handlers.WriteIsStored` | cmd/server/router.go:57-117 | in every run the entry of each accepted write stands for good right after the entries there were, with its timestamp, the caller's id and the trimmed app, level and message of its body; any other write adds nothing |
| `Handlers.AttributionIsExact` | cmd/server/router.go:90-105 | the entries under an id are exactly those that requests authenticated as that id added, in order |
| `Handlers.NextRequestResumes` | cmd/server/query.go:55-108 | adding a page's cursor to the first request's parameters is read as the same query, positioned after that page |
| `Handlers.ScopedFilter` | cmd/server/auth.go:133-141 | a query scoped to a client finds exactly what the unscoped one finds among the entries that client's requests added |
| `Handlers.RequestAnswered` | cmd/server/router.go:119-149 | each request of a walk, with its own limit and the cursor of the page before, is answered by the handler with the specified page of the caller's scope |
| `Handlers.ScopedWalk` | cmd/server/router.go:119-149 | over the file store, whatever client id is put into bodies or parameters, a client's finished walk, request by request through the handler, is exactly its own entries up to the last page whose app, level and text meet the parameters; an admin's is those of the named client, or of the whole log if it names none |
| `PgHandlers.PgScopedWalk` | cmd/server/router.go:119-149 | over the table, with requests anywhere between the statements of appending processes, a finished walk through the handler is exactly the rows that the parameters ask for, within the caller's scope, among those committed at its last page, and for a client all of them carry its id |
| `PgHandlers.PgAnswerExactly` | cmd/server/router.go:119-149 | exactly when a read of the table is answered, and that it is the page by position |
| `PgHandlers.RowsCarryTheirWriter` | cmd/server/router.go:90-105 | every row appended in a run carries the id of the caller whose request inserted it, whatever the bodies claim, and holds the record stored of that request's body |
| `Access.EntryNeedsSecret` | cmd/server/auth.go:153-175 | the call that added an entry is a write that carried the secret current at that moment of the id the entry stands under, or one colliding with it, however secrets are rotated and clients revoked before and after |
| `Access.CurrentTokenWrites` | cmd/server/auth.go:153-175 | and a complete body sent with the current secret of an id adds one entry under that id with its texts, if the store accepts it |
| `Access.RevokedWritesNothing` | cmd/server/clientstore_postgres.go:50-92 | once an id is revoked no later write with any of its tokens gets past authentication or changes the store |
| `Handlers.HandleWriteLog` | cmd/server/router.go:57-117 | 201 exactly if the body is complete and the store accepts the record of it, and then the file has one line more, of the entry built on the old head with that record; 400 exactly for a body that is not JSON or lacks a field; otherwise 500 |
| `Handlers.HandleReadLogs` | cmd/server/router.go:119-149 | status, and the page by position of the entries that the parameters ask for within the caller's scope; no entry of another client for a non-admin |
| `Lines.EventsAreTheLines` | cmd/log-forwarder/follower.go:121-131 | the emitted events are the newline split of the bytes, with each offset just past its newline |
| `Lines.EventsGrow` | cmd/log-forwarder/follower.go:115-131 | reading in two pieces emits what reading at once would |
| `Lines.LineAtUnique` | cmd/log-forwarder/follower.go:127-137 | a line read again has the same text and offset |
| `Follower.Tail.Open` | cmd/log-forwarder/follower.go:76-107 | resumes at the checkpoint's offset if that names this path and file and lies within it, and at 0 in every other case |
| `Follower.Tail.EmitLine` | cmd/log-forwarder/follower.go:122-150 | one line out; the loop goes on exactly if callback and checkpoint write go well, and the checkpoint covers the line exactly if the write got past its rename |
| `Follower.Tail.ReadAvailable` | cmd/log-forwarder/follower.go:109-161 | for every chunking the calls, offsets, pending bytes and checkpoint depend only on the bytes; it fails exactly if reading ends in an error or the callback or the checkpoint write of one of their lines fails, after exactly the calls up to that line; every saved offset is just past a newline |
| `Follower.CalledExactly` | cmd/log-forwarder/follower.go:121-151 | the calls go up to and including the first line that fails, and the checkpoint covers those before it, and it if only the directory sync failed |
| `Follower.Tail.HandleFileChanges` | cmd/log-forwarder/follower.go:163-220 | what a look at the path comes to and exactly when it fails, by the stat, the seek, the reading, the reopening, a line or a checkpoint write: a shorter file is followed again from 0; with another file there the callback is called with exactly the lines left in the old one, up to the first that fails, then the new one is followed from 0 |
| `Follower.LookCases` | cmd/log-forwarder/follower.go:163-220 | for each finding at the path: whether the look fails, where it leads, that the rest of a rotated file is read first, and whether it gets to a new checkpoint |
| `Follower.Tail.Poll` | cmd/log-forwarder/follower.go:61-66 | one turn of the loop: its calls, the file it leads to, its checkpoint and exactly when it fails are those of its input |
| `Follower.Tail.Run` | cmd/log-forwarder/follower.go:51-74 | over any sequence of polls it stops at the first that fails and not before; the calls are exactly the lines of the polls in order, up to the failing one; it ends following the file the polls lead to, with exactly the checkpoint they come to, which stands at a line boundary of a file followed |
| `Follower.ErrorEndsRun` | cmd/log-forwarder/follower.go:60-66 | a read error, or a stat error other than a missing file, ends the run at that poll at the latest |
| `TailRuns.OpenIsBoot` | cmd/log-forwarder/follower.go:76-107 | opening the source file is the step that starts the process of `Delivery`, at the same offset |
| `TailRuns.TurnIsRun` | cmd/log-forwarder/follower.go:61-66 | each turn that goes well is a run of `Delivery` with the same calls and the same checkpoint |
| `TailRuns.FailureIsRun` | cmd/log-forwarder/follower.go:61-66 | and so is each that fails, in whatever way, with the calls and the checkpoint up to the failure and no process after it |
| `TailRuns.StartIsRun` | cmd/log-forwarder/follower.go:51-107 | so opening the file and the whole loop, with or without an error at its end, are a run of `Delivery`, and starts follow one another as such runs |
| `CheckpointFs.EffectRefines` | cmd/log-forwarder/checkpoint.go:48-108 | each file-system effect keeps every possible checkpoint complete; only the rename and the directory sync change what a reader or a power loss can see |
| `CheckpointFs.PowerLossRefines` | cmd/log-forwarder/checkpoint.go:48-89 | a power loss leaves one of the complete versions |
| `CheckpointFs.SaveIsAtomic` | cmd/log-forwarder/checkpoint.go:22-89 | cut short anywhere, however earlier saves ended, a save leaves nothing torn: a kill leaves the previous or the new checkpoint, a power loss the new one or one it could have brought back before; completed with both syncs the new one stays |
| `CheckpointFs.PreviousOrNewIff` | cmd/log-forwarder/checkpoint.go:48-108 | every power loss leaves the previous or the new checkpoint if and only if the save completed with an effective directory sync or no older one was still able to come back |
| `CheckpointFs.IgnoredFileSyncMayTear` | cmd/log-forwarder/checkpoint.go:72-75 | with an ignored file-sync error a power loss can leave an undecodable checkpoint |
| `CheckpointFs.CheckpointFile.Save` | cmd/log-forwarder/checkpoint.go:48-89 | the file system is left after exactly the effects before the call that fails, and all of them if none does |
| `ForwarderFs.NextSimulates` | cmd/log-forwarder/checkpoint.go:48-108 | every event on inodes and directory versions is the corresponding step of `Delivery` |
| `ForwarderFs.RunsSimulate` | cmd/log-forwarder/checkpoint.go:22-108 | so every run on a file system is a run of `Delivery` |
| `ForwarderFs.AtLeastOnceOnDisk` | cmd/log-forwarder/follower.go:51-161 | on a source that only grows, an idle forwarder has handed every complete line over, wherever its saves were cut short |
| `Delivery.StepKeeps` | cmd/log-forwarder/follower.go:51-220 | every read, callback, save effect, poll, rotation, truncation, kill and power loss that does not use offsets of another file life keeps the invariant |
| `Delivery.ReadBrings` | cmd/log-forwarder/follower.go:114-119 | a read brings the next bytes of the open file, at most as many as asked for |
| `Loss.EmissionsInOrder` | cmd/log-forwarder/follower.go:121-142 | each call is a line of a file that was at the path; files come in order, nothing is jumped over, and within one start each line follows the one before |
| `Loss.EmittedIff` | cmd/log-forwarder/follower.go:121-151 | of every file exactly the lines below its highest offset handed over were handed over |
| `Loss.CheckpointNeverPasses` | cmd/log-forwarder/main.go:74-115 | every line ending at or before an offset on disk was delivered, dead-lettered or counted as unparsed, and every such offset is 0 or just past a newline of the file it names |
| `Loss.StrandsStep` | cmd/log-forwarder/follower.go:163-220 | which step puts a line out of reach: a rotation or truncation of a file that owes unread lines while nobody holds it, a stop in the middle of draining a rotated file, a line completed in a file nobody reads any more |
| `Loss.DroppedIsLost` | cmd/log-forwarder/follower.go:195-208 | after such a step every continuation lacks a line of that file |
| `Loss.AtLeastOnceIff` | cmd/log-forwarder/follower.go:51-220 | an idle process has handed over every complete line of every file that was ever at the path if and only if no step of the run was one of those |
| `Loss.DistinctNeverSkips` | cmd/log-forwarder/follower.go:87-92 | while every file at the path has an identity of its own, no restart, power loss or rotation uses offsets of another file |
| `Loss.AtLeastOnce` | cmd/log-forwarder/follower.go:51-161 | nothing is ever lost of a file that only grows |
| `Loss.LosingRuns` | cmd/log-forwarder/follower.go:193-203 | a rotation while the process is down loses a line, and so does a kill between noticing a rotation and reading the rest |
| `Recovery.Recovers` | cmd/log-forwarder/follower.go:76-107 | after any run whatever a restart and undisturbed work hand over exactly the lines at the path from the resume offset on, and no other line that was missing |
| `Recovery.RecoversAllIff` | cmd/log-forwarder/follower.go:76-107 | so it makes up for everything if and only if no file that has left the path owes a line and it does not resume past one that the file at the path owes |
| `Recovery.TruncationLosesIff` | cmd/log-forwarder/follower.go:172-190 | a truncation under a running process loses the first line of the new contents in every run without a restart or another change at the path if and only if the file grew back to the read offset before anybody looked and the bytes in memory are not simply its beginning |
| `Recovery.NoticedTruncationLosesNothing` | cmd/log-forwarder/follower.go:172-190 | if it is noticed, undisturbed work hands every line of the new contents over |
| `Repeats.RestartsOnlyGoBack` | cmd/log-forwarder/follower.go:76-107 | in a file with an identity of its own a restart may go back, never forward, whatever the kills and power losses |
| `Repeats.AtMostOneRepeat` | cmd/log-forwarder/follower.go:76-151 | unless a power loss comes between the end of a save without an effective directory sync and the next effective one, each call continues the call before or repeats it unchanged |
| `Repeats.UnsettlingIff` | cmd/log-forwarder/checkpoint.go:80-108 | with a line still to come, a step, whatever it is, leaves a state from which no run that keeps to that condition repeats two lines if and only if it does not end a line's save without an effective directory sync, by a kill or by an ignored error |
| `Repeats.ResumesInside` | cmd/log-forwarder/follower.go:87-92 | in a truncated file a restart can resume from a checkpoint of its earlier life, inside a line already handed over, and hand over the rest of that line |
| `WholeLines.WholeIff` | cmd/log-forwarder/follower.go:121-137 | what reading from an offset hands over first is one of the lines of the file if and only if the offset is a line boundary or stands between the two characters of an empty line |
| `WholeLines.ResumesWholeIff` | cmd/log-forwarder/follower.go:87-107 | until the next start a restart hands over only whole lines, whatever happens, if and only if what the file now holds has such a place where the checkpoint stands; a file with an identity of its own always has |
| `Callback.Forwarder.OnLine` | cmd/log-forwarder/main.go:74-115 | linesRead = parseFailed + deliverySuccess + deadLetterWrites unless a dead-letter write failed, and parsedOK = seen keys + duplicates |
| `Callback.Forwarder.MarkIdempotencyKey` | cmd/log-forwarder/metrics.go:51-60 | a key is a duplicate exactly if seen before; seen keys plus duplicates grow by one |
| `Callback.KeyTellsLinesApart` | cmd/log-forwarder/delivery.go:45-49 | for one source, key pre-images agree if and only if offset and trimmed line do |
| `Callback.KeysTellLinesApart` | cmd/log-forwarder/delivery.go:45-49 | so of one source two lines get the same key exactly if they agree in these, or their texts collide |
| `Callback.BarredNameIsAmbiguous` | cmd/log-forwarder/delivery.go:47-47 | a source with a bar in a name shares every key pre-image with another source |
| `Callback.KeyTellsSourcesApart` | cmd/log-forwarder/delivery.go:47-47 | sources without bars in their names are told apart |
| `Callback.DuplicateKeysInOneBoot` | cmd/log-forwarder/main.go:85-88 | between two restarts two lines share a key pre-image if and only if they are of different files or file lives and end at the same offset with the same trimmed text |
| `Retry.WriteLog` | clients/go-lib/client.go:93-181 | requests go out until one is final, a delay is cancelled or the attempts are used up, with the specified delays reported one by one; every request but the last met no reply, a 429 or a status from 500 on, and only such a last one is not final; where drawing the jitter panics, the first delay does |
| `Retry.NormalizeExactly` | clients/go-lib/client.go:93-113 | which setting gets which default |
| `Retry.DelaysExactly` | clients/go-lib/client.go:199-253 | the delays that can be drawn are exactly the range of the strategy |
| `Retry.NextDelay` | clients/go-lib/client.go:157-174 | each delay of a run is drawn from the range that its base and the delay before it give, and any of that range may come next |
| `Retry.BoundsPositiveIff` | clients/go-lib/client.go:199-253 | the bound of every random draw is positive except, if and only if full jitter is the largest duration, that of full jitter |
| `Retry.BackoffClosedForm` | clients/go-lib/client.go:115-174 | from the second retry on the base delay is min(initial * 2^(k-1), maximum), for all settings whose doubling fits int64 |
| `Retry.BackoffPositiveIff` | clients/go-lib/client.go:170-173 | doubling never overflows if and only if twice the larger setting fits int64 |
| `Retry.DelayBounded` | clients/go-lib/client.go:199-253 | under all three strategies a delay is at most max(initial, maximum) + jitter wherever that sum fits int64; full jitter adds up to the jitter to the base, equal jitter at least half of it, decorrelated lies between the initial delay and three times the previous one, capped, also where tripling overflows |
| `Retry.FullJitterFitsIff` | clients/go-lib/client.go:199-246 | with full jitter no delay is negative if and only if base and jitter together fit int64 |
| `Retry.TotalDelayBounded` | clients/go-lib/client.go:119-174 | n delays together take at most n times that |

## Left out

- Indexes and counters are unbounded integers; the wrap of uint64 and int64 at 2^64 and 2^63 is modelled only for cursors, table keys and durations.
- Handlers.ScopedWalk: for logs of up to 2^63 - 1 writes, because a larger index is no valid cursor (Codecs.CursorRoundTrip).
- FileStore.RestartsAreInvisible: for runs whose index stays below 2^64.
- TailRuns.StartIsRun: for polls in which the file found on reopening is not the old one again; a start that fails before it reads, on the checkpoint file or on opening the source, does nothing and is left out.
- PgWalk.WalkDuringAppends: for tables of up to 2^63 - 1 rows whose records all decode; a read that meets an undecodable record fails (SqlQuery.QueryTable).
- Callback.KeyTellsSourcesApart: a sufficient condition on both sources; whether two given sources with bars collide depends on the lines too.
- Loss.AtLeastOnceIff: for runs in which no step uses offsets of another file life, which only truncation and the reuse of an inode number make possible (Loss.DistinctNeverSkips); a later power loss that brings an older checkpoint back may make up for such a step, so what holds after it is said line by line, for every run, by Recovery.Recovers.
- Repeats.AtMostOneRepeat: for files with an identity of their own; Repeats.ResumesInside is the run of a truncated file that breaks it, and WholeLines.ResumesWholeIff says when a restart there hands over parts of lines.
- Delivery.StepKeeps: a checkpoint's file sync has effect; without it a power loss can leave a checkpoint that does not decode (CheckpointFs.IgnoredFileSyncMayTear), and the forwarder then refuses to start.
- A source file that is renamed back to the path; while no file is at the path the forwarder does nothing, so that moment is not a state of its own.
- Loss of source-file bytes in a power failure.
- Transport-level parts: routing, headers, the bearer scheme, status texts, timeouts, TLS, context cancellation other than during a retry delay.
- Database outages during authentication, and the timing of the constant-time comparison.
- Line-length limits of the scanner, partial writes of a log line, and disk-full conditions: a log line is written whole or not at all.
- The forwarder's line parser and payload builder, the security dashboard, the command line, the Node clients and deployment: plumbing.
