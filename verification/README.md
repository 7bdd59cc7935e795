# tiodb in Dafny

A model of the parts of tiodb (the Information Overlord, a data server with subscriptions) that carry its guarantees,
and proofs about them. `dafny verify dfyconfig.toml` checks the project.

**logdb**, the log-structured file that persists tables. The file is a byte string, with little-endian headers and
records; an operation is the list of writes it makes, in order, so that a crash is any prefix of that list, and opening
the file again is a function of its bytes. `PagedFile.dfy` is the page cache as a class, shown to be a plain byte file.
`LdbFormat` to `LdbCommit` say what a request writes and what each write leaves, `LdbStore` what always holds of a file
and the tables in memory, `LdbUser`, `LdbMeta` and `LdbRun` that every operation keeps it and means what it should,
over whole runs with crashes and reopenings. `LdbEngine.dfy` is the class `Ldb`, whose methods make exactly those
writes. `LdbLimits` and `LdbFailures` say exactly which requests a reload does not survive. `LdbKeyed` is access by key.

**The publisher**, which sends every subscriber a snapshot and then updates. `Publisher.dfy` is a state machine whose
steps (a writer changing a container, a writer handing its event over, a subscription, the publisher taking its queue,
taking an item, visiting one subscriber) interleave freely; `PublisherInv` and `PublisherRuns` prove what holds in every
reachable state. `TioTcpServer.dfy` and `Storages.dfy` are the classes, tied to that machine.

**The HTTP parser** used for requests. `HttpMachine.dfy` takes one byte at a time; `HttpParser.dfy` is
`http_parser_execute` as a class with its bulk loops, marks and counters, shown to do what the machine does;
`HttpFraming`, `HttpBody`, `HttpMessage` and `HttpNames` prove what the machine accepts and delivers, against sections 3.6.1 and 4.4
of RFC 2616; `HttpSplits` says exactly when it makes no difference how the bytes are cut into calls.

**The wire layer**: the PR1 binary messages of the client (`Pr1`, `Pr1Buffer`), its batches (`ClientBatch`), the send
pipeline of a session (`SendPipeline`), the text protocol (`TextProtocol`) and the logger's ring queue
(`ProtocolLogger`).

Clocks, sockets and the file system are parameters or lists of what was read and written. `hide` statements in proofs
keep definitions that a proof does not need out of sight of the verifier; `LdbStore.Wanted` and `HttpBulk.Look` do the
same for an invariant that most lemmas only pass on.

## Findings

Where the code does not do what its own comments or tests promise, it is modelled as it is, the failing input is given,
and the exact condition is proved.

- Inserting at index 0 into an empty table is replayed twice (server/tio/logdb.h:825-834): `LdbFailures.InsertedRecordIsDoubled`, `LdbLimits.ReplayedIffNotIntoEmpty`.
- Setting a value while keeping an empty field that lies where free space starts makes a reload allocate in front of the new value, which the next append then overwrites (server/tio/logdb.h:855-880): `LdbFailures.ReloadFallsShort`, `LdbFailures.LiveValueIsOverwritten`, `LdbLimits.FreeSpaceIffNoTie`, `LdbLimits.TieOverwrites`.
- The loader asserts that a linked block lies beyond the end of the one before it (server/tio/logdb.h:577); it may lie right at its end, and does where one log block fills up with nothing allocated in between: `LdbFailures.SecondBlockIsAdjacent`, `LdbLimits.AdjacentLink`.
- A list subscriber whose snapshot is taken while events of the list are ahead gets them twice (server/tio/TioTcpServer.cpp:154-228): `PublisherRuns.ListsCanDiverge`, `PublisherRuns.ListConvergesIffRepeatable`.
- Two writers of one map can publish in the other order than they changed it (server/tio/MapStorage.h:183-195), and then a subscriber ends with another map if and only if the two touch one key and leave it differently: `PublisherRuns.CrossedIsReached`, `PublisherRuns.TwoWritersConvergeIff`, `Containers.OrderIsFreeIff`.
- Within one call only the first byte of a header value that means nothing is checked, so the same bytes can be taken or refused depending on how they are cut (submodules/http-parser/http_parser.c:1527-1558): `HttpSplits.CutMakesADifference`, `HttpSplits.EverySplitIffChecked`.
- A batch with a limit on pending events can wait for answers that never come (client/c/tioclient.c:1638-1644, 2663-2681): `ClientBatch.LateEventStalls`, `ClientBatch.BatchIsExactIff`.
- The head of the logger's ring moves before it wraps, so the writing thread can take an empty queue for one with an entry, and an entry can be lost (server/tio/BinaryProtocolLogger.h:53-60, 69-76): `ProtocolLogger.TornWrap`, `ProtocolLogger.LostEntry`, `ProtocolLogger.Logger.EmptyTestIs`.
- A text answer without key, value and metadata does not end its line (server/tio/TioTcpProtocol.h:87-88), and a text event leaves empty strings out (server/tio/TioTcpSession.cpp:590-597): `TextProtocol.DataAnswerIsReadIff`, `TextProtocol.TextEventBack`.
- A text sent when nothing is counted as pending overtakes texts that wait behind binary data only (server/tio/TioTcpSession.cpp:810-836). A session turns binary once (server/tio/TioTcpSession.cpp:428-429), so this needs a text snapshot (server/tio/TioTcpSession.cpp:707-723) that the publisher thread is still sending: `SendPipeline.TextOvertaken`, `SendPipeline.Session.SendString`.

## Model

| member | source | states |
|---|---|---|
| LdbFormat.HeaderRoundTrip | server/tio/logdb.h:411-417 | a block header written anywhere in a file is read back as it was |
| LdbFormat.RecordRoundTrip | server/tio/logdb.h:431-442 | a log record written anywhere in a file is read back as it was |
| Paging.PagedFile.constructor | server/tio/logdb.h:246-250 | a new cache is empty and coherent with any file |
| Paging.PagedFile.GetPage | server/tio/logdb.h:192-226 | the page is cached, at most the capacity is cached, the list names exactly the cached pages, and every cached page is what the file holds |
| Paging.PagedFile.Read | server/tio/logdb.h:327-354 | reading across pages gives the bytes of the file, whatever is cached or evicted on the way |
| Paging.PagedFile.Write | server/tio/logdb.h:356-385 | the old bytes are overwritten as in a plain file; the file becomes longer exactly when it ends inside the last page touched |
| Paging.PagedFile.WritePage | server/tio/logdb.h:363-374 | one page is changed in the cache and flushed, every other cached page stays coherent |
| Paging.PagedFile.GrowFile | server/tio/logdb.h:387-401 | uninitialised pages are appended behind the cache; coherence is kept when no cached page reaches beyond the old end |
| Paging.PagedFile.SetPageSize | server/tio/logdb.h:271-276 | the cache is emptied; it stays usable if and only if one page fits into it |
| Paging.PagedFile.CallAll | server/tio/logdb.h:192-239 | any sequence of in-bounds calls on a file of whole pages answers and leaves what a plain byte file would |
| LdbTable.FullBlock | server/tio/logdb.h:1119-1125 | a block is full at 85 records, and 85 records fit into it, although the test measures with the file header |
| LdbTable.UntilCommit | server/tio/logdb.h:1010-1056 | all writes before the last one go to free space: everything else below the next offset is as it was |
| LdbTable.Committed | server/tio/logdb.h:1036-1056 | the last write appends exactly the record to the log of its table, in its last block or in a new one linked to it |
| LdbCommit.Stopped | server/tio/logdb.h:986-1056 | stopping before the last write of a request keeps the invariant and all contents |
| LdbRecover.LiveIsLogged | server/tio/logdb.h:803-848 | every record a replay leaves is a record of the log |
| LdbRecover.Reload | server/tio/logdb.h:886-916 | reading a file back finds exactly the tables in memory, with their field extents, and free space beyond all blocks and live data |
| LdbUser.ReplayRemembers | server/tio/logdb.h:1058-1082 | memory and replay agree on every request but an insertion at the end |
| LdbUser.RequestKeepsInv | server/tio/logdb.h:986-1087 | after a request blocks, logs and data fields are still pairwise disjoint, below the next offset and found by a reload |
| LdbMeta.CreateKeepsInv | server/tio/logdb.h:737-774 | creating a table keeps the invariant; its first block is the value of its metatable record |
| LdbMeta.DeleteKeepsInv | server/tio/logdb.h:721-735 | deleting a table keeps the invariant |
| LdbView.RequestItems | server/tio/logdb.h:1010-1082 | a request changes the keys, values and metadata of its table as it should, a NULL keeping what was there |
| LdbRun.OperationKeepsInv | server/tio/logdb.h:721-1345 | every operation keeps the invariant |
| LdbRun.OperationMeans | server/tio/logdb.h:721-1345 | every operation does to the contents of the database what it means, and nothing else |
| LdbRun.CrashAtomicity | server/tio/logdb.h:986-1056 | stopping between any two writes of any operation and reopening finds exactly the old tables, or exactly the new ones if all writes were made, and a database again |
| LdbRun.NextExists | server/tio/logdb.h:886-916 | after any operation or crash the file can be opened again |
| LdbRun.RunsAreSound | server/tio/logdb.h:455-1399 | the invariant holds over every run of operations, crashes and reopenings |
| LdbRun.RunsAreFaithful | server/tio/logdb.h:455-1399 | over every run each event has its meaning: a crashed operation has happened completely or not at all |
| LdbLimits.InitialIsSound | server/tio/logdb.h:680-705 | a new file is a database without tables |
| LdbLimits.HalfInitialized | server/tio/logdb.h:697-702 | until the header is written, the file is not taken for a database |
| LdbLimits.RunsFromNewFile | server/tio/logdb.h:680-705 | every run from a new file is sound |
| LdbLimits.ReplayedIffNotIntoEmpty | server/tio/logdb.h:825-834 | a reload rebuilds the tables in memory if and only if the request was no insertion into an empty table; such a record is found twice |
| LdbLimits.TieReload | server/tio/logdb.h:855-880 | after a request that keeps an empty field at the start of free space, a reload finds free space in front of the new data |
| LdbLimits.TieOverwrites | server/tio/logdb.h:855-880 | and the next value appended to a table whose block has room overwrites that data from its first byte on |
| LdbLimits.FreeSpaceIffNoTie | server/tio/logdb.h:855-880 | a reload allocates beyond all live data if and only if the request kept no such field |
| LdbLimits.AdjacentLink | server/tio/logdb.h:577-579 | a linked block never begins before the end of the one before it, and begins beyond it if and only if something was allocated in between |
| LdbFailures.SecondBlockIsAdjacent | server/tio/logdb.h:577-579 | from a new file: a table created and its log filled with clears, and the block linked next begins right at the end of the first |
| LdbFailures.InsertedRecordIsDoubled | server/tio/logdb.h:1318-1330 | from a new file: a table created and one record inserted, and a reload finds two |
| LdbFailures.ReloadFallsShort | server/tio/logdb.h:1279-1293 | from a new file: a record appended with empty metadata and its value set, and a reload finds free space in front of the value |
| LdbFailures.LiveValueIsOverwritten | server/tio/logdb.h:1250-1263 | and a value appended after that reload replaces the one that was set |
| LdbKeyed.FindIsLookup | server/tio/logdb.h:1216-1248 | where no key occurs twice, the first record with a key is the entry of the map |
| LdbKeyed.SetRefinesMap | server/tio/logdb.h:1272-1277 | `Set` from index 0 keeps keys distinct and sets the key in the map, a NULL keeping what was there; other tables are unchanged |
| LdbKeyed.DeleteRefinesMap | server/tio/logdb.h:1295-1303 | `Delete` from index 0 finds the key if and only if the map has it, and removes it |
| LdbKeyed.KeyedRunRefines | server/tio/logdb.h:1265-1303 | a table driven only by keyed calls is a map throughout |
| LdbEngine.Ldb.LeaveRoom | server/tio/logdb.h:948-956 | the file grows by whole pages, by the growth step at least |
| LdbEngine.Ldb.EnsureSpace | server/tio/logdb.h:958-964 | the file grows if and only if the space behind the next offset is too small |
| LdbEngine.Ldb.WriteLdbData | server/tio/logdb.h:966-984 | the data goes to the next offset, and the field says where, how much and with which hash |
| LdbEngine.Ldb.CreateNewBlockIfNeeded | server/tio/logdb.h:1127-1152 | a new block is written, not yet linked, exactly when the current one is full |
| LdbEngine.Ldb.AppendLogRecord | server/tio/logdb.h:986-1087 | makes exactly the writes that the crash theorems are about, in their order, and remembers the record |
| LdbEngine.Ldb.CommitRecord | server/tio/logdb.h:1036-1056 | the record, the header of its block and last the link |
| LdbEngine.Ldb.LoadLogRecords | server/tio/logdb.h:707-719 | the records read in one go are the log of the block |
| LdbEngine.Ldb.ReplayLog | server/tio/logdb.h:803-881 | replays a log, and finds the end of its data and its greatest id |
| LdbEngine.Ldb.LoadBlock | server/tio/logdb.h:778-884 | one block more of a table |
| LdbEngine.Ldb.LoadAllBlocks | server/tio/logdb.h:563-586 | the loop over the chain ends, and loads the table of the chain |
| LdbEngine.Ldb.LoadTables | server/tio/logdb.h:602-644 | loads the metatable and the table of each of its records |
| LdbEngine.Ldb.InitializeFile | server/tio/logdb.h:680-705 | makes an empty file a database, by writes of which the header is the last, and opens it |
| LdbEngine.Ldb.LoadFile | server/tio/logdb.h:886-916 | refuses a file without the magic number; from any file with the invariant it opens the database the file holds, and leaves file and page size as they were |
| LdbEngine.Ldb.Create | server/tio/logdb.h:1177-1188 | an empty file becomes a new database, any other is loaded |
| LdbEngine.Ldb.OpenAfterCrash | server/tio/logdb.h:1190-1198 | opening what stopped after any writes of an operation gives an object that holds the old contents or, if all were made, the new ones |
| LdbEngine.Ldb.FindKey | server/tio/logdb.h:1216-1248 | the search by size and hash finds the same record as a plain search on key bytes |
| LdbEngine.Ldb.Get | server/tio/logdb.h:1364-1376 | finds the key if and only if the map has it, and its value and metadata |
| LdbEngine.Ldb.Set | server/tio/logdb.h:1272-1277 | the object then holds the database with the key set in the map, all else unchanged, and the invariant |
| LdbEngine.Ldb.Delete | server/tio/logdb.h:1295-1303 | the object then holds the database without the key, or an unchanged one if it was not there |
| LdbEngine.Ldb.Perform | server/tio/logdb.h:1250-1330 | append, set, insert, delete and clear make the writes of the operation and leave the database it describes; a refused index changes nothing |
| LdbEngine.Ldb.CreateTable | server/tio/logdb.h:737-774 | adds the table, unless there is one of that name |
| LdbEngine.Ldb.DeleteTable | server/tio/logdb.h:721-735 | removes the table found by key in the metatable; found if and only if there is one of that name |
| Containers.NormalizeIndex | server/tio/Container.h:608-638 | accepted exactly within the bounds, negative indexes counting from the end, index 0 always |
| Containers.QueryLimitsSelect | server/tio/Container.h:643-664 | the limits are in order and select exactly the positions from the start on and in front of the end, negative ones counting from the end |
| Containers.ReplayIsIdempotent | server/tio/TioTcpServer.cpp:175-228 | replaying the events that produced a map, on that map, changes nothing |
| Containers.SnapshotRestores | server/tio/TioTcpServer.cpp:175-199 | a subscriber that starts empty and applies a whole snapshot holds the container |
| PublisherInv.WriteKeeps | server/tio/MapStorage.h:183-195 | a change of a map, its event still to come, keeps what every subscriber was promised |
| PublisherInv.PublishKeeps | server/tio/TioTcpServer.cpp:234-250 | so does handing the event over, which is queued or, where nobody ever subscribed, dropped |
| PublisherInv.SubscribeKeeps | server/tio/TioTcpServer.cpp:252-270 | so does a subscription with its marker |
| PublisherInv.VisitKeeps | server/tio/TioTcpServer.cpp:154-228 | so does the visit of one subscriber with one item |
| PublisherRuns.RunsKeepInv | server/tio/TioTcpServer.cpp:109-270 | the invariant holds in every state reached by any interleaving |
| PublisherRuns.MapConvergence | server/tio/TioTcpServer.cpp:109-270 | in every reachable state, the replica of a live map subscriber with what it is still owed is the map |
| PublisherRuns.ListConvergence | server/tio/TioTcpServer.cpp:109-270 | the same for a list subscriber whose snapshot was taken with nothing of the list ahead |
| PublisherRuns.Delivery | server/tio/TioTcpServer.cpp:115-229 | a pending subscriber has been sent nothing and its marker is ahead; afterwards it has one snapshot, or none from an empty start, and then every event handled since, once and in queue order |
| PublisherRuns.QuietMeansDelivered | server/tio/TioTcpServer.cpp:109-232 | with nothing left to do, no live subscriber is pending and each has all there was |
| PublisherRuns.QuietMeansEqual | server/tio/TioTcpServer.cpp:109-232 | and every map subscriber holds the map |
| PublisherRuns.ListConvergesIffRepeatable | server/tio/TioTcpServer.cpp:154-228 | a list subscriber is brought to the list if and only if the events ahead of its snapshot change nothing when made again; never if they change the length on balance |
| PublisherRuns.ListConvergesIffNothingAhead | server/tio/TioTcpServer.cpp:154-228 | with events that change the length on balance, if and only if there are none |
| PublisherRuns.ListsCanDiverge | server/tio/TioTcpServer.cpp:154-228 | a run in which a list subscriber would end with an element twice |
| PublisherRuns.CrossedIsReached | server/tio/MapStorage.h:183-195 | two writers can publish in the other order than they changed the map |
| Containers.OrderIsFreeIff | server/tio/MapStorage.h:183-245 | two changes give the same map in either order if and only if they touch no common key or leave it the same |
| PublisherRuns.TwoWritersConvergeIff | server/tio/MapStorage.h:183-195 | then a subscriber is brought to the map if and only if the two changes touch no common key or leave it the same |
| TioTcpServer.Server.constructor | server/tio/TioTcpServer.cpp:277-300 | a new server is the initial state of the machine |
| TioTcpServer.Server.OnAnyContainerEvent | server/tio/TioTcpServer.cpp:234-250 | queues the event if its storage has ever had a subscriber |
| TioTcpServer.Server.SessionAsyncSubscribe | server/tio/TioTcpServer.cpp:252-270 | queues the marker and registers the subscription |
| TioTcpServer.Server.HandleSubscriber | server/tio/TioTcpServer.cpp:154-228 | does to one subscriber what the visit of the machine does |
| TioTcpServer.Server.HandleItem | server/tio/TioTcpServer.cpp:135-230 | handles an item for every subscriber there was, as the machine does |
| TioTcpServer.Server.PublisherPass | server/tio/TioTcpServer.cpp:109-232 | one pass is a run of the machine that leaves nothing to do and keeps the invariant |
| Storages.ListStorage.PushBack | server/tio/ListStorage.h:95-108 | appends and publishes, or changes nothing; the published events still fold to the list, and the revision counts them |
| Storages.ListStorage.PushFront | server/tio/ListStorage.h:110-121 | the same at the front |
| Storages.ListStorage.PopBack | server/tio/ListStorage.h:123-152 | removes and publishes the last, and refuses an empty list |
| Storages.ListStorage.PopFront | server/tio/ListStorage.h:154-182 | removes and publishes the first, and refuses an empty list |
| Storages.ListStorage.GetOffset | server/tio/ListStorage.h:190-224 | either walk ends at the normalised index |
| Storages.ListStorage.Set | server/tio/ListStorage.h:226-240 | sets the record at the normalised index, a null keeping what was there |
| Storages.ListStorage.Insert | server/tio/ListStorage.h:242-260 | inserts at the normalised index or at either end |
| Storages.ListStorage.Delete | server/tio/ListStorage.h:262-281 | removes the record at the normalised index |
| Storages.ListStorage.Query | server/tio/ListStorage.h:292-343 | the rows between the limits; with no end they are what a snapshot sends |
| Storages.MapStorage.Set | server/tio/MapStorage.h:183-195 | sets the key, and the published events still fold to the map |
| Storages.MapStorage.Insert | server/tio/MapStorage.h:197-214 | refuses a key that is there |
| Storages.MapStorage.Delete | server/tio/MapStorage.h:216-235 | refuses a key that is not there |
| Storages.MapStorage.Query | server/tio/MapStorage.h:247-297 | the rows between the limits in key order; with no end they are what a snapshot sends |
| HttpMachine.AgainLowersRank | submodules/http-parser/http_parser.c:1258-1259 | every re-execution of a byte lowers a rank, so that each byte is done with |
| HttpFraming.ReachableIsSound | submodules/http-parser/http_parser.c:677-2052 | the parser's own assertions hold in every state reached from the initial one, whatever the bytes |
| HttpFraming.LengthDigitExact | submodules/http-parser/http_parser.c:1565-1590 | an accepted digit neither wraps the length nor makes it the sentinel |
| HttpFraming.ChunkDigitExact | submodules/http-parser/http_parser.c:1950-1985 | the same for a chunk size |
| HttpBody.FeedAppend | submodules/http-parser/http_parser.c:634-2083 | the machine has no memory but its fields: feeding two pieces is feeding them joined |
| HttpBody.ContentLengthIsExact | submodules/http-parser/http_parser.c:1466-1479 | a content length is accepted if and only if it is digits and spaces that stay below the limit, and then it is their number |
| HttpBody.ChunkSizeIsExact | submodules/http-parser/http_parser.c:1934-1985 | the same for the hexadecimal size of a chunk |
| HttpBody.BodyWhole | submodules/http-parser/http_parser.c:1882-1932 | exactly the announced bytes are delivered as body, and then the message is complete |
| HttpBody.SizeLineRead | submodules/http-parser/http_parser.c:1934-2013 | a size with any extension announces the chunk, and zero in any spelling leads to the trailer |
| HttpBody.ChunkDelivered | submodules/http-parser/http_parser.c:1934-2052 | a chunk is delivered whole, between its two notifications |
| HttpMessage.HeaderByte | submodules/http-parser/http_parser.c:1248-1834 | a byte of headers is refused, or changes neither a known length nor what decides the body, or is the line feed that ends them |
| HttpMessage.HeadersCases | submodules/http-parser/http_parser.c:1248-1834 | whatever the bytes, they are refused, or are within the headers, or some of them end the headers |
| HttpMessage.ContentLengthBody | submodules/http-parser/http_parser.c:1466-1932 | whatever headers follow a content length, exactly that many bytes behind them are delivered as body, then the message is complete |
| HttpNames.HeaderIsKnown | submodules/http-parser/http_parser.c:1248-1425 | a header is taken for one of those that are known if and only if its name is that word, in either case |
| HttpNames.NamesAreSpelled | submodules/http-parser/http_parser.c:162-170 | the words that are matched, letter by letter |
| HttpNames.TransferEncodingLine | submodules/http-parser/http_parser.c:1457-1464 | behind the line of a transfer encoding the message is chunked if and only if it was before or the value is the word chunked |
| HttpNames.ContentLengthMessage | submodules/http-parser/http_parser.c:1248-1932 | from the first letter of the header on: exactly as many bytes as it says are delivered as body |
| HttpNames.ChunkedMessage | submodules/http-parser/http_parser.c:1248-2052 | from the first letter of the header on: the body is the joined data of the chunks |
| HttpMessage.ConnectHasNoBody | submodules/http-parser/http_parser.c:1836-1852 | a CONNECT ends with its headers, whatever they announce |
| HttpMessage.ChunkedBody | submodules/http-parser/http_parser.c:1836-2052 | any headers, any chunks with extensions, a last chunk that writes zero, any trailer: the body is the joined data, and the message is complete at the end of the trailer and not before |
| HttpBulk.AtMostOneMark | submodules/http-parser/http_parser.c:2071-2075 | at most one kind of data is pending |
| HttpBulk.StrictIsNotRejected | submodules/http-parser/http_parser.c:1510-1558 | data that the strict machine takes is taken by a call |
| HttpSplits.StrictIs | submodules/http-parser/http_parser.c:1527-1530 | the strict machine takes what the lenient one takes if and only if every byte of a header value is a header character |
| HttpSplits.EverySplitIffStrict | submodules/http-parser/http_parser.c:634-2083 | every way to cut data into calls is taken call by call if and only if the strict machine takes the data |
| HttpSplits.EverySplitIffChecked | submodules/http-parser/http_parser.c:634-2083 | equivalently, if and only if one call takes it whole and every byte of a header value is a header character |
| HttpSplits.OneCallTakesAll | submodules/http-parser/http_parser.c:1535-1558 | one call takes any text of a value that means nothing, if its first byte is a header character |
| HttpSplits.OneByteIsChecked | submodules/http-parser/http_parser.c:1527-1530 | a byte in a call of its own is taken there if and only if it is a header character |
| HttpSplits.CutMakesADifference | submodules/http-parser/http_parser.c:1527-1558 | a header that is taken in one call and refused in two |
| HttpParser.Parser.constructor | submodules/http-parser/http_parser.c:2144-2153 | a new parser is sound |
| HttpParser.Parser.MemChr | submodules/http-parser/http_parser.c:1539-1544 | the first place of a byte |
| HttpParser.Parser.ScanName | submodules/http-parser/http_parser.c:1298-1425 | a header name read in bulk leaves what the machine leaves |
| HttpParser.Parser.ScanValue | submodules/http-parser/http_parser.c:1506-1695 | so does a header value |
| HttpParser.Parser.ReadBody | submodules/http-parser/http_parser.c:1882-1916 | so does a body |
| HttpParser.Parser.ReadChunk | submodules/http-parser/http_parser.c:2015-2036 | so does the data of a chunk |
| HttpParser.Parser.OneByte | submodules/http-parser/http_parser.c:702-2060 | so does a byte with its re-executions |
| HttpParser.Parser.Execute | submodules/http-parser/http_parser.c:634-2083 | below the header limit a call fails if and only if it refuses the data; otherwise fields, data told and bytes taken are those of the machine |
| HttpParser.Parser.ExecuteAll | submodules/http-parser/http_parser.c:634-2083 | calls on pieces succeed if and only if each piece is taken, and then leave what feeding the bytes one by one leaves |
| Pr1.ParseBack | client/c/tioclient.c:724-762 | what was built from valid fields is what is parsed |
| Pr1.ParseIsExact | client/c/tioclient.c:724-762 | what is parsed is what would have been built |
| Pr1.ReceiveBack | client/c/tioclient.c:802-868 | a message is received as it was sent, and nothing behind it is touched |
| Pr1.FramingBack | client/c/tioclient.c:802-868 | a stream of messages splits into exactly those messages |
| Pr1Buffer.StreamBuffer.EnsureSpaceLeft | client/c/tioclient.c:359-380 | there is room, and a larger buffer holds what the old one held |
| Pr1Buffer.StreamBuffer.Write | client/c/tioclient.c:415-422 | appends to the contents |
| Pr1Buffer.Builder.AddField | client/c/tioclient.c:480-494 | the header filled in before the data survives a move of the buffer: one field more |
| Pr1Buffer.Builder.GetBuffer | client/c/tioclient.c:568-585 | the finished message of all the fields |
| Pr1Buffer.Parse | client/c/tioclient.c:724-762 | parses field by field what the whole payload holds |
| Pr1Buffer.FindById | client/c/tioclient.c:764-775 | the first field with the id, or none if there is none |
| ClientBatch.Connection.Push | client/c/tioclient.c:1474-1498 | the circular list reached by its end is a queue: one event more at its end |
| ClientBatch.Connection.Pop | client/c/tioclient.c:1500-1524 | the oldest event leaves it |
| ClientBatch.Connection.DispatchPendingEvents | client/c/tioclient.c:2119-2140 | dispatches the oldest events, in order |
| ClientBatch.Connection.OnEventReceive | client/c/tioclient.c:1638-1644 | queues the event, and dispatches all when the counter is at its limit |
| ClientBatch.Connection.FinishNetworkBatch | client/c/tioclient.c:2663-2681 | takes, dispatches and leaves what its specification says |
| ClientBatch.LateEventStalls | client/c/tioclient.c:2663-2681 | a batch with all its answers that does not finish |
| ClientBatch.BatchIsExactIff | client/c/tioclient.c:1801-1850 | batches take exactly their answers, whatever events come between, if and only if the limit is at most one more than the commands |
| SendPipeline.Session.FillBuffer | server/tio/TioTcpSession.cpp:1137-1157 | as many whole messages as fit, in order |
| SendPipeline.Session.SendPendingBinaryData | server/tio/TioTcpSession.cpp:1119-1187 | at most one binary write is in flight; nothing sent is lost or reordered |
| SendPipeline.Session.OnBinaryMessageSent | server/tio/TioTcpSession.cpp:1189-1217 | the buffer is on the wire, the counter goes down by it and is never negative; more leaves the queue if and only if its first message fits the buffer |
| SendPipeline.Session.SendBinaryMessage | server/tio/TioTcpSession.cpp:1241-1253 | the message is queued behind all others |
| SendPipeline.Session.SendBinaryMessages | server/tio/TioTcpSession.cpp:1255-1269 | the messages of a snapshot are queued together |
| SendPipeline.Session.SendString | server/tio/TioTcpSession.cpp:810-837 | dropped, and the server told, exactly when far too much is pending; queued last when anything is pending; in order unless texts wait and nothing is counted, which needs binary data and a text snapshot still being sent |
| SendPipeline.TextOvertaken | server/tio/TioTcpSession.cpp:810-837 | a run from a new session: a text that queued behind a binary message is overtaken by the next text, and nothing sends it |
| SendPipeline.Session.OnWrite | server/tio/TioTcpSession.cpp:882-908 | the text is on the wire and the next one follows |
| SendPipeline.Session.WriteOut | server/tio/TioTcpSession.cpp:1119-1217 | with messages that fit the buffer, everything accepted ends on the wire, in order, and nothing is counted as pending |
| TextProtocol.SerializeData | server/tio/TioTcpProtocol.h:85-129 | writes the words and the payload that the round trips are about |
| TextProtocol.ExtractFieldSet | server/tio/TioTcpProtocol.h:213-255 | the fields the words announce and the size of their payload, or the first error |
| TextProtocol.ExtractFieldsFromBuffer | server/tio/TioTcpProtocol.h:176-211 | every field from its place in the payload, or the first error |
| TextProtocol.FieldSetBack | server/tio/TioTcpProtocol.h:213-255 | the words announce the parts, and exactly the size of the payload |
| TextProtocol.DataAnswerBack | server/tio/TioTcpProtocol.h:139-144 | the client receives the same key, value and metadata, strings with spaces and line ends included, and leaves what follows untouched |
| TextProtocol.EventAnswerBack | server/tio/TioTcpProtocol.h:131-137 | the same for an event, with its handle and name |
| TextProtocol.TextEventBack | server/tio/TioTcpSession.cpp:574-612 | as the session writes an event, it comes back the same if and only if it holds no empty string |
| TextProtocol.DataAnswerIsReadIff | server/tio/TioTcpProtocol.h:85-88 | an answer can be read whatever follows it if and only if it holds anything |
| ProtocolLogger.Logger.FullIs | server/tio/BinaryProtocolLogger.h:44-47 | full means that all slots but one hold unread entries |
| ProtocolLogger.Logger.EmptyTestIs | server/tio/BinaryProtocolLogger.h:69-69 | the test for an empty queue is right if and only if it is not made on an empty queue between the move of the head past the last slot and its wrap |
| ProtocolLogger.Logger.MoveHead | server/tio/BinaryProtocolLogger.h:49-61 | the entry written before there was room is logged once there is, and overwrites nothing unread |
| ProtocolLogger.Logger.WriteEntry | server/tio/BinaryProtocolLogger.h:69-71 | the slot at the tail goes to the file unless head and tail are equal; it is the oldest unread entry unless the test is wrong |
| ProtocolLogger.Run | server/tio/BinaryProtocolLogger.h:49-90 | any schedule, with the wrap in one step, is that of a bounded queue: what is logged is exactly what was handed in, in order, the file is a beginning of it, and what it lacks fits the ring |
| ProtocolLogger.NothingIsLost | server/tio/BinaryProtocolLogger.h:49-61 | what is logged, in hand and still to come is always the same sequence |
| ProtocolLogger.EverythingIsWritten | server/tio/BinaryProtocolLogger.h:49-90 | taking turns, the two threads write out everything handed in |
| ProtocolLogger.TornWrap | server/tio/BinaryProtocolLogger.h:58-60 | a schedule in which the thread takes an empty queue for one with an entry |
| ProtocolLogger.LostEntry | server/tio/BinaryProtocolLogger.h:53-76 | and how it goes on: an entry is logged, is in no slot and never in the file, and both threads are at rest |

## Left out

- Bounds of the file: a file that reaches 2^32 bytes, where offsets wrap; every operation is stated below that.
- Torn writes: a single write to the file is made or not made; a crash falls between two of them.
- Counters of logdb: `_totalRecordCount` and `_totalLogRecordCount`, which nothing reads.
- LdbEngine.Ldb.Create: a file of fewer bytes than a header and more than none, which cannot come from whole pages.
- Storages.ListStorage.GetOffset: the list is a sequence, so that its iterator is an index and the two walks are counts.
- Storages.ListStorage.Set: a set on an empty list, where the source writes through the end iterator.
- TioTcpServer.Server.PublisherPass: a pass during which nothing else happens; the interleavings are those of the machine.
- HttpParser.Parser.Execute: exactly when a call reaches the header limit.
- HttpParser.Parser.ExecuteAll: the count of header bytes at the limit, and data after the connection has been given up to another protocol.
- Callbacks of the parser: calls with no bytes, made for an empty header value, and callbacks that fail, pause or skip the body.
- The request line: any recogniser that works byte by byte; methods, URLs, responses and pauses are not modelled.
- ClientBatch.Connection.FinishNetworkBatch: clusters, receive errors and callbacks that call back into the connection.
- SendPipeline.Session.WriteOut: a message above 10 MB, which never leaves the queue (`OnBinaryMessageSent`); write errors.
- TextProtocol.SerializeData: doubles, whose printing loses precision, so that no round trip holds.
- TextProtocol.ExtractFieldSet: the total wrapping at 2^64.
- The publisher: group subscriptions, wait-and-pop, and the result set of a snapshot changing while it is sent.
- Not modelled at all: `VectorStorage`, `LogDbStorage`, the wrapper class around the HTTP parser, the X1 codec, sockets and clusters, the plugins, authentication, the container and group managers, memory ownership, and the other clients.
