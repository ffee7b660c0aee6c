# Harbor, Canvas and client models in Dafny

A Dafny model of the parts of TPT Keystone where a mistake loses data or corrupts state without an
error, with proofs about every input and every run.

- **Live replication** (`Replication`, `ReplicationProof`, `ReplicationSessions`, `Reapply`, on `ChangeLog`,
  `Cdc`, `Target`, `Connector`).
  SQL Server's poll loop, the 64-message channel, the engine's consumer, the keyed statements on the
  target, and the resume token in memory and on disk form one state machine. Source commits, stops,
  failed statements, failed saves, crashes and restarts are steps that may fall anywhere.
- **Snapshot, verification, cutover** (`Snapshot`, `SnapshotNames`, `Verify`). The table loop, the four-batch channel,
  the 500-row statements and the list of finished tables are a second state machine. The checksum gate
  is a class over the checkpoint.
- **Reactive core** (`Reactive`). Signals, subscriber lists and the effect stack as a class. A memo may
  read different signals from one run to the next.
- **Connection pool** (`Pool`). Each lock section of the Go pool is an atomic step, the dial lies
  between two of them, and the class methods carry out the sections.
- **Wire formats**: the incremental PostgreSQL reader (`PgWire`), SQL Server result sets (`Tds`,
  `TdsWire`), Kafka varints, record batches and fetches (`Varint`, `Kafka`,
  `KafkaFetch`), BSON (`Bson`), CSV (`Csv`). Each
  decoder is a set of loops proved equal to a specification, and each specification is proved to invert
  an encoder written from the format.
- **Arithmetic of the SQL Server source**: day numbers (`Calendar`), scaled decimals and times
  (`Decimal`), log sequence numbers (`Lsn`).

`Wrappers`, `Bytes` and `Arith` hold what the modules share. A panic of the original on a short slice is
an `Err` (in `Bson`, where an inner failure is swallowed and a panic is not, it is `Panicked`).

## What the proofs found

- Changes at the very first LSN are never sent: the loop starts one past the minimum LSN
  (`DurableTokenCoversAllChanges` for every run, `FirstChangeIsMissed` for one).
- On a table without a primary key every captured update and delete is lost (`UnkeyedChangesAreLost`).
- A repeated insert, where the target accepts it, leaves two rows under one key (`InsertOnlyOnce`); repeated
  updates and deletes are harmless (`BackInStep`).
- Two different tables can share a name in the checkpoint, and then the later one is skipped and left empty
  (`QualifiedNamesCollide`, `ExactUnlessSkipped`, `SkippedForAnother`).
- Two tables of one name in different schemas end up in one target table (`ExactUnlessShared`).
- Reading a Kafka partition never ends at a batch with a compacted record, stops at a batch without records,
  and finds a partition empty once retention has moved its start (`ReadOutcome`, `ReadIsExact`).
- The varint readers shift the sign in, so they return a wrong number outside the middle half of the
  integer range (`VarintRoundTrip`, `VarlongRoundTrip` give the number they return).
- The 32-bit length in the row encoding wraps at 4 GiB; for rows of two columns or more that is exactly the
  limit (`ExactLimit`, `WrappedPair`).
- The time decoder is exact if and only if the product fits in 64 bits, which five bytes or fewer always
  do (`TimeRoundTrip`).
- A CSV export reads back unchanged if and only if no line is a single empty field
  (`ExportImportIsLossless`).

## Model

| member | source | states |
|---|---|---|
| `ReplicationProof.InStepAtEveryCommit` | tpt-keystone-harbor/src/engine/mod.rs:99-137 | In every run, when the consumer has just processed the commit token of an LSN, in a session that began in step with the source and met no failed statement, every target table is the source table at that LSN, row for row by key. |
| `ReplicationProof.DurableTokenCoversAllChanges` | tpt-keystone-harbor/src/engine/mod.rs:99-137 | In every run, with any crashes, stops, failed statements and failed saves, a resume token on disk is readable and every forwarded change after the start and up to it has reached the target; no change at or before the start ever does. |
| `ReplicationProof.NeverStuck` | tpt-keystone-harbor/src/sources/mssql.rs:1028-1097 | In every reachable state a restart can read its token, the source can continue its window while the channel has room, and the consumer can act on a waiting message. |
| `ReplicationProof.StepKeepsInv` | tpt-keystone-harbor/src/sources/mssql.rs:1054-1097 | Each of the fourteen kinds of step keeps: tokens cover what was applied, nothing is sent twice or out of order, each commit token follows its complete windows, and the target follows the processed messages. |
| `ReplicationProof.RunKeepsInv` | tpt-keystone-harbor/src/engine/mod.rs:99-137 | The same for runs of any length and interleaving. |
| `ReplicationProof.ChannelBounded` | tpt-keystone-harbor/src/engine/mod.rs:104 | In every run the channel holds at most 64 messages and the source sends only when it holds fewer. |
| `Replication.OnlySavesReachDisk` | tpt-keystone-harbor/src/engine/mod.rs:132-136 | No step but a save that succeeded changes the token on disk, and that one makes it the token in memory. |
| `Replication.OnlyStatementsReachTarget` | tpt-keystone-harbor/src/engine/mod.rs:110-130 | No step but a statement of the consumer changes the target, and none but the source's own the log. |
| `ReplicationProof.PollsExactlyWhenAhead` | tpt-keystone-harbor/src/sources/mssql.rs:1061-1064 | The byte comparison of the poll loop opens a window if and only if the source's LSN is numerically past the last one. |
| `ReplicationProof.TokenOfLsn` | tpt-keystone-harbor/src/sources/mssql.rs:463-475 | A ten-byte LSN survives being printed into a token and parsed on resume, and the token is never the empty one the engine ignores. |
| `ReplicationProof.NextPending` | tpt-keystone-harbor/src/sources/mssql.rs:1076-1091 | Whatever the source is about to send is a forwarded change of the table being scanned, with an LSN above the last window and within the current one. |
| `ReplicationSessions.NextSessionBeginsInStep` | tpt-keystone-harbor/src/engine/mod.rs:99-137 | A session in step whose last processed message was a commit, ended with a save that succeeded, is followed by a session that begins in step, whatever the source did in between. |
| `ReplicationSessions.TokenOfLastCommit` | tpt-keystone-harbor/src/engine/mod.rs:116-118 | After a commit the token in memory is that commit's and reads back as its LSN. |
| `ReplicationSessions.GrowthKeepsInStep` | tpt-keystone-harbor/src/sources/mssql.rs:1054-1064 | A target in step with the source at an LSN stays so while the source moves on. |
| `ReplicationSessions.FirstChangeIsMissed` | tpt-keystone-harbor/src/sources/mssql.rs:1061-1093 | For every table with a change at the starting LSN and one after it there is a run that reaches a commit in step with the later change applied, and then a durable token past the start, while the first change was never applied. |
| `ReplicationSessions.SomeExample` | tpt-keystone-harbor/src/sources/mssql.rs:484-501 | Such tables exist: two inserts into an empty table with one key column. |
| `Reapply.BackInStep` | tpt-keystone-harbor/src/engine/mod.rs:110-130 | A window without inserts, sent again from its beginning to a table that had already seen any part of it, brings the table in step with the source at the window's end. |
| `Reapply.EffectsTwice` | tpt-keystone-harbor/src/targets/keystone.rs:82-102 | Doing a beginning of a list of updates and deletes first makes no difference to doing all of it. |
| `Reapply.ApplyAllRepresents` | tpt-keystone-harbor/src/targets/keystone.rs:82-102 | A list of update and delete statements does to the rows what it does to the key-to-row map, keys present or not. |
| `Reapply.InsertOnlyOnce` | tpt-keystone-harbor/src/targets/keystone.rs:79-81 | After an insert the rows stand for a key-to-row map if and only if the key was new. |
| `ReplicationProof.CommitCovers` | tpt-keystone-harbor/src/engine/mod.rs:110-130 | When a commit token reaches the head of the queue, every change up to its LSN has already been applied. |
| `ReplicationProof.TableAdvances` | tpt-keystone-harbor/src/engine/mod.rs:119-125 | Applying the next change of a table's window moves the target table from one replayed prefix to the next. |
| `ChangeLog.ApplyFollowsSource` | tpt-keystone-harbor/src/sources/mssql.rs:484-501 | Mapping a captured row to an event and applying it to any target table that represents the source gives one that represents the source after the change; rows that are not forwarded change nothing. |
| `ChangeLog.UnkeyedChangesAreLost` | tpt-keystone-harbor/src/targets/keystone.rs:125-149 | Without a primary key the event of any update or delete leaves the target as it was. |
| `ChangeLog.CatchUp` | tpt-keystone-harbor/src/sources/mssql.rs:1066-1093 | Replaying a window on the state at its lower LSN gives the state at its upper LSN. |
| `ChangeLog.WindowsJoin` | tpt-keystone-harbor/src/sources/mssql.rs:1066-1093 | Consecutive half-open windows join into one with no change lost or repeated. |
| `ChangeLog.WindowGrows` | tpt-keystone-harbor/src/sources/mssql.rs:1054-1064 | Raising the upper LSN only appends to a window. |
| `ChangeLog.ReplayedBefore` | tpt-keystone-harbor/src/sources/mssql.rs:1084-1090 | The state reached before a window's k-th change is the source state just before that change. |
| `ChangeLog.StateAtStart` | tpt-keystone-harbor/src/sources/mssql.rs:1031-1052 | The state at the starting LSN is the initial one, whatever the log holds. |
| `Cdc.EventKeyIsKeyOf` | tpt-keystone-harbor/src/sources/mssql.rs:484-501 | The key of an event is the row with every non-key column blanked. |
| `Cdc.EventOfCode` | tpt-keystone-harbor/src/sources/mssql.rs:484-501 | From the text of a change row: blanks around decimal digits that stand for 1 give the deletion of the row's key, 2 the insertion of the row, 4 the update of that key to the row, and any other number, 3 among them, no event. |
| `Cdc.EventOfDigit` | tpt-keystone-harbor/src/sources/mssql.rs:495-500 | The same for the single digits that are sent. |
| `Cdc.OperationText` | tpt-keystone-harbor/src/sources/mssql.rs:486-491 | Blanks around a signed decimal number read as the number its digits stand for by place, and as an error when that has more than 64 bits. |
| `Cdc.OtherTextRefused` | tpt-keystone-harbor/src/sources/mssql.rs:486-491 | Text with anything but digits and a sign in front is refused. |
| `Cdc.NoDigitsRefused` | tpt-keystone-harbor/src/sources/mssql.rs:486-491 | So is text without a digit. |
| `Target.SelectsExactlyTheKey` | tpt-keystone-harbor/src/targets/keystone.rs:125-149 | The generated condition selects a row if and only if its primary key is the event's. |
| `Target.InsertRepresents` | tpt-keystone-harbor/src/targets/keystone.rs:77-81 | Inserting a row with a new key is inserting it in the key-to-row map the table stands for. |
| `Target.UpdateRepresents` | tpt-keystone-harbor/src/targets/keystone.rs:82-95 | An update replaces the row of its key and no other, and does nothing when the key is absent. |
| `Target.DeleteRepresents` | tpt-keystone-harbor/src/targets/keystone.rs:96-102 | A delete removes its key and no other. |
| `Target.NeverSelects` | tpt-keystone-harbor/src/targets/keystone.rs:144-146 | An event without an identifiable key changes no row. |
| `Target.SelectsKnownCells` | tpt-keystone-harbor/src/targets/keystone.rs:127-134 | Without a primary key the condition selects the rows that agree with every known cell of the key, and none when no cell is known. |
| `Target.RepresentsMeans` | tpt-keystone-harbor/src/targets/keystone.rs:77-106 | What "represents" promises: as many rows as keys, each row under its own key, no key twice. |
| `Snapshot.RecordedTablesAreCopied` | tpt-keystone-harbor/src/engine/mod.rs:49-91 | In every run, with crashes and lost saves anywhere, each table named in the checkpoint file ends with all its source rows in order. |
| `Snapshot.CleanSnapshotIsExact` | tpt-keystone-harbor/src/engine/mod.rs:49-91 | A session that began exact, met no failure and finished leaves every target table equal to its source, for every batching and interleaving. |
| `Snapshot.EmptyTargetIsExact` | tpt-keystone-harbor/src/engine/mod.rs:49-62 | A fresh migration into empty tables begins exact. |
| `Snapshot.StepKeepsInv` | tpt-keystone-harbor/src/engine/mod.rs:70-91 | Each step keeps every recorded table a copy and, in a clean session, every table exact. |
| `Snapshot.StepFlows` | tpt-keystone-harbor/src/engine/mod.rs:70-91 | Each step conserves the rows, whatever the tables are called: written, in hand, in the channel and unsent always add up to the source table. |
| `Snapshot.RunKeepsInv` | tpt-keystone-harbor/src/engine/mod.rs:49-91 | The same for whole runs. |
| `Snapshot.RecordsStay` | tpt-keystone-harbor/src/engine/checkpoint.rs:46-50 | In every run a recorded table stays recorded. |
| `Snapshot.BoundsHold` | tpt-keystone-harbor/src/engine/mod.rs:71 | At most four batches are in the channel, and a statement appends the next 500 rows, or as many as there are. |
| `Snapshot.CopyEnds` | tpt-keystone-harbor/src/engine/mod.rs:87-90 | A copy ends when both halves have, with success if and only if both succeeded. |
| `Snapshot.CopiedInFull` | tpt-keystone-harbor/src/engine/mod.rs:87-90 | When both halves of the copy succeed, the table holds what it held before followed by the whole source table. |
| `Snapshot.WriteOk` | tpt-keystone-harbor/src/targets/keystone.rs:67-75 | A statement of at most 500 rows, whether it took effect or failed, disturbs no recorded table. |
| `Snapshot.MarkRecords` | tpt-keystone-harbor/src/engine/checkpoint.rs:46-50 | Recording a table that was copied in full keeps every recorded table a copy. |
| `SnapshotNames.QualifiedNamesCollide` | tpt-keystone-harbor/src/schema.rs:65-67 | Two tables have one checkpoint name if and only if they are the same, or one schema continues the other after a dot and what it adds begins the other table's name. |
| `SnapshotNames.CleanRunLeaves` | tpt-keystone-harbor/src/engine/mod.rs:49-91 | With no hypothesis on names: every clean session from scratch leaves under each target name the rows of the tables of that name, in order, without those whose checkpoint name an earlier table has. |
| `SnapshotNames.CleanRunExists` | tpt-keystone-harbor/src/engine/mod.rs:49-91 | Whatever the tables are called, a migration into an empty target can complete without a failure and record every table. |
| `SnapshotNames.ExactUnlessSkipped` | tpt-keystone-harbor/src/engine/mod.rs:51-59 | With distinct target names, every clean session from scratch is exact if and only if no table with rows has the checkpoint name of an earlier one. |
| `SnapshotNames.ExactUnlessShared` | tpt-keystone-harbor/src/targets/keystone.rs:40-49 | With distinct checkpoint names, every clean session from scratch is exact if and only if tables that share a target name are empty. |
| `SnapshotNames.SkippedForAnother` | tpt-keystone-harbor/src/engine/mod.rs:52-54 | For any two tables with one checkpoint name, a migration into an empty target can complete without a failure, record both, and leave the second empty. |
| `SnapshotNames.SkipExample` | tpt-keystone-harbor/src/engine/mod.rs:52-54 | The smallest such case: schema `s.t`, table `u` hides schema `s`, table `t.u`. |
| `SnapshotNames.ScratchStep` | tpt-keystone-harbor/src/engine/mod.rs:49-91 | Each step of a clean session from scratch keeps what the target holds equal to what the tables so far contribute. |
| `Verify.RowBuffer` | tpt-keystone-harbor/src/verify.rs:15-28 | The buffer loop produces the concatenated cell encodings. |
| `Verify.EncodingIsUnique` | tpt-keystone-harbor/src/verify.rs:12-28 | Rows of any two widths with cells below 4 GiB have equal encodings only if they are equal. |
| `Verify.ExactLimit` | tpt-keystone-harbor/src/verify.rs:15-28 | For rows of one width with cells below n bytes: the encoding tells them apart if and only if n is at most 2^32, or the rows have fewer than two columns. |
| `Verify.WrappedPair` | tpt-keystone-harbor/src/verify.rs:22 | Two rows of two cells, one of them of 4 GiB, that are different and encode alike. |
| `Verify.VerificationIsExact` | tpt-keystone-harbor/src/verify.rs:47-59 | The mismatch count is the number of differing positions plus the difference in length, both row counts are reported, and a table passes if and only if the checksum lists are equal. |
| `Verify.ChecksumsDecide` | tpt-keystone-harbor/src/verify.rs:30-32 | When the hash separates the encodings compared, the checksum lists are equal if and only if the rows are. |
| `Verify.MigrationEngine.constructor` | tpt-keystone-harbor/src/engine/mod.rs:22-25 | The engine starts from the checkpoint in a readable file, or from the default one. |
| `Verify.MigrationEngine.Open` | tpt-keystone-harbor/src/engine/checkpoint.rs:29-35 | Opening fails if and only if the file is there and cannot be read back. |
| `Verify.MigrationEngine.Save` | tpt-keystone-harbor/src/engine/checkpoint.rs:37-44 | Saving replaces the file by the checkpoint in memory, or fails and leaves it, or fails half-way and leaves a file that cannot be read. |
| `Verify.MigrationEngine.VerifyTables` | tpt-keystone-harbor/src/engine/mod.rs:140-150 | One result a table, in order, which passes if and only if source and target rows are equal; the phase is recorded, a failed save is ignored. |
| `Verify.MigrationEngine.CutoverWith` | tpt-keystone-harbor/src/engine/mod.rs:156-163 | Marks the migration done if and only if every result passed, and reports a failed save. |
| `Verify.MigrationEngine.VerifyAndCutover` | tpt-keystone-harbor/src/main.rs:305-322 | Verify then cutover reaches Done if and only if every table's rows are equal on both sides, and no outcome of the two saves leaves a new file that says Done otherwise. |
| `Reactive.Core.Set` | tpt-keystone-canvas/src/reactive.rs:85-88 | Setting a signal terminates, leaves the effect stack and all earlier values as they were, and leaves no memo stale that was not stale before, save the node itself when it is a memo given some other value. |
| `Reactive.Core.Notify` | tpt-keystone-canvas/src/reactive.rs:95-108 | After the depth-first pass no subscriber of the signal is stale and nothing else became stale. |
| `Reactive.Core.RunEffect` | tpt-keystone-canvas/src/reactive.rs:111-117 | A run never re-enters a running effect, balances the stack, and makes its own memo fresh without making another stale. |
| `Reactive.Core.Get` | tpt-keystone-canvas/src/reactive.rs:71-81 | A read returns the value and subscribes the running effect once. |
| `Reactive.Core.Evaluate` | tpt-keystone-canvas/src/reactive.rs:144-147 | Evaluating a memo's function returns its value on the current signals and subscribes the memo to everything it read. |
| `Reactive.Core.CreateSignal` | tpt-keystone-canvas/src/reactive.rs:61-66 | A new signal disturbs nothing. |
| `Reactive.Core.CreateMemo` | tpt-keystone-canvas/src/reactive.rs:138-149 | A new memo is fresh and disturbs nothing. |
| `Reactive.Core.DropHandle` | tpt-keystone-canvas/src/reactive.rs:119-124 | Dropping a handle removes its memo from the promise and no other. |
| `Reactive.UnreadDoesNotMatter` | tpt-keystone-canvas/src/reactive.rs:71-81 | Value and read set of a memo depend only on the signals it read. |
| `Reactive.WriteDisturbsSubscribers` | tpt-keystone-canvas/src/reactive.rs:85-108 | A raw write can make stale only the signal's subscribers and the signal itself. |
| `Reactive.ComputedIsFresh` | tpt-keystone-canvas/src/reactive.rs:144-147 | A value computed from the earlier signals stays fresh whatever happens to later ones. |
| `Reactive.GrowthKeepsFresh` | tpt-keystone-canvas/src/reactive.rs:73-78 | More subscriptions never make a memo stale. |
| `Reactive.AppendKeeps` | tpt-keystone-canvas/src/reactive.rs:61-66 | Adding a node changes no memo's staleness. |
| `Reactive.RetainKeeps` | tpt-keystone-canvas/src/reactive.rs:104-107 | Clean-up drops exactly the dead subscribers. |
| `Pool.AccountingHolds` | sdk-go/pool.go:109-199 | In every interleaving the open count is idle plus lent plus dialing plus those closed by Close, within 0 and the limit; idle has no duplicates and nothing lent in it; what Acquire hands out is not lent and not broken. |
| `Pool.StepKeepsInv` | sdk-go/pool.go:109-199 | Every lock section and dial outcome keeps the accounting. |
| `Pool.RunKeepsInv` | sdk-go/pool.go:109-199 | The same for any interleaving of sections. |
| `Pool.AcquireOk` | sdk-go/pool.go:124-162 | The acquire section keeps the accounting and takes only an idle, healthy, unlent connection. |
| `Pool.WaitsOnlyWhenFull` | sdk-go/pool.go:147-161 | A caller waits only when nothing is idle and the lent and dialing connections fill the limit. |
| `Pool.ReleaseThenAcquire` | sdk-go/pool.go:167-178 | Releasing a healthy connection to an open pool keeps the count, and the next Acquire returns that connection and the very state before the release. |
| `Pool.ReleaseDrops` | sdk-go/pool.go:170-174 | A broken connection, or one released to a closed pool, is no longer idle, lent or counted. |
| `Pool.AcquireMeans` | sdk-go/pool.go:124-162 | In an open pool the healthy connection released last is handed out and the broken ones above it are dropped; if none is healthy, a slot is reserved for a dial if the lent and dialing ones leave one free. |
| `Pool.DialSettles` | sdk-go/pool.go:147-158 | A dial turns the reserved slot into a lent connection, or leaves the pool as if it had not been tried. |
| `Pool.BrokenNeverReturns` | sdk-go/pool.go:134-145 | A connection that breaks is not handed out by an Acquire and not kept by its Release. |
| `Pool.CloseMeans` | sdk-go/pool.go:183-199 | Close empties the idle list and keeps the count, and a second Close does nothing. |
| `Pool.ClosedForGood` | sdk-go/pool.go:125-128 | In every run a closed pool stays closed, keeps nothing idle, and refuses every Acquire. |
| `Pool.ConfigurationMeans` | sdk-go/pool.go:70-79 | A limit below one becomes one, and as many connections are dialled at once as asked for, within zero and the limit. |
| `Pool.ConnPool.constructor` | sdk-go/pool.go:69-77 | An empty pool with the corrected limit satisfies the accounting. |
| `Pool.ConnPool.AcquireSection` | sdk-go/pool.go:124-162 | The drain loop on the fields does exactly the acquire step. |
| `Pool.ConnPool.DialSucceeded` | sdk-go/pool.go:150-157 | A successful dial turns a reserved slot into a lent connection. |
| `Pool.ConnPool.DialFailed` | sdk-go/pool.go:151-155 | A failed dial gives its slot back. |
| `Pool.ConnPool.ReleaseSection` | sdk-go/pool.go:167-178 | Release puts a healthy connection back, and drops it when broken or closed. |
| `Pool.ConnPool.CloseSection` | sdk-go/pool.go:183-199 | Close drops the idle list once and leaves the count as it was. |
| `Pool.NewPool` | sdk-go/pool.go:69-91 | A pool comes back if and only if every eager dial succeeded; otherwise exactly the connections opened before the first failure are closed. |
| `PgWire.Conn.constructor` | tpt-keystone-harbor/src/pgwire.rs:46-50 | The bytes to be read are the buffer and the chunks still to come, joined. |
| `PgWire.Conn.Fill` | tpt-keystone-harbor/src/pgwire.rs:199-207 | Buffering changes no byte of the stream and succeeds if and only if enough bytes remain. |
| `PgWire.Conn.ReadMessage` | tpt-keystone-harbor/src/pgwire.rs:117-197 | However the bytes were cut, a read returns the next message of the whole stream and leaves exactly the rest. |
| `PgWire.Conn.DrainToReady` | tpt-keystone-harbor/src/pgwire.rs:299-303 | Skips exactly through the first ReadyForQuery. |
| `PgWire.Conn.Query` | tpt-keystone-harbor/src/pgwire.rs:277-312 | Consumes exactly through the first ReadyForQuery, after an error too, and returns the first error or the rows, columns and tag of the reply. |
| `PgWire.RowsFollowLastDescription` | tpt-keystone-harbor/src/pgwire.rs:288-293 | The rows are the DataRows after the last RowDescription, under its column names. |
| `PgWire.FirstErrorFound` | tpt-keystone-harbor/src/pgwire.rs:297-304 | The error a query reports is the first one in the reply. |
| `PgWire.NoErrorFound` | tpt-keystone-harbor/src/pgwire.rs:286-311 | A reply without an error is a result. |
| `PgWire.TagIsLast` | tpt-keystone-harbor/src/pgwire.rs:294 | The command tag is the last one in the reply, and none if there is none. |
| `PgWire.RowsWithoutDescription` | tpt-keystone-harbor/src/pgwire.rs:281-293 | Without a description the data rows come back under no column names. |
| `PgWire.UnnamedError` | tpt-keystone-harbor/src/pgwire.rs:217-233 | An error without a message field is reported by the fallback text. |
| `PgWire.UnknownErrorText` | tpt-keystone-harbor/src/pgwire.rs:232 | The fallback text, character for character. |
| `PgWire.StreamRoundTrip` | tpt-keystone-harbor/src/pgwire.rs:117-197 | A sequence of well-formed messages parses back to those messages and leaves what follows. |
| `PgWire.MessageRoundTrip` | tpt-keystone-harbor/src/pgwire.rs:117-128 | One message takes exactly its own bytes. |
| `PgWire.BodyRoundTrip` | tpt-keystone-harbor/src/pgwire.rs:129-195 | Every modelled body decodes to the message it encodes. |
| `PgWire.CellsRoundTrip` | tpt-keystone-harbor/src/pgwire.rs:171-185 | A data row's cells, NULLs included, decode back. |
| `PgWire.FieldsRoundTrip` | tpt-keystone-harbor/src/pgwire.rs:156-170 | Field descriptions decode to their names and type numbers. |
| `PgWire.PartsRoundTrip` | tpt-keystone-harbor/src/pgwire.rs:217-233 | An error's message is its last M field, or the fixed text when there is none. |
| `PgWire.ReadFields` | tpt-keystone-harbor/src/pgwire.rs:156-170 | The field loop meets its specification. |
| `PgWire.ReadCells` | tpt-keystone-harbor/src/pgwire.rs:171-185 | The cell loop meets its specification, the clamp of an overlong cell included. |
| `PgWire.ReadErrorFields` | tpt-keystone-harbor/src/pgwire.rs:217-233 | The field loop of errors and notices meets its specification. |
| `PgWire.DecodeMessage` | tpt-keystone-harbor/src/pgwire.rs:129-195 | The dispatch on the tag meets its specification. |
| `TdsWire.StreamRoundTrip` | tpt-keystone-harbor/src/sources/mssql.rs:763-832 | Any mix of column descriptions, rows and old-style formats, followed by any ending, is read to exactly its rows, each under the columns announced last; the reply fails only when a cell's text does. |
| `TdsWire.CompressedRowFails` | tpt-keystone-harbor/src/sources/mssql.rs:809 | After any valid stream a compressed row fails the reply. |
| `TdsWire.RowRoundTrip` | tpt-keystone-harbor/src/sources/mssql.rs:798-808 | A row is read cell by cell and leaves what follows it. |
| `TdsWire.CellRoundTrip` | tpt-keystone-harbor/src/sources/mssql.rs:151-192 | Every cell of every column kind is read to its value, NULL included, and uses up exactly its own bytes. |
| `TdsWire.ChunksRead` | tpt-keystone-harbor/src/sources/mssql.rs:206-216 | A chunked value decodes to its chunks joined, however it was cut. |
| `TdsWire.PlpRead` | tpt-keystone-harbor/src/sources/mssql.rs:199-219 | A chunked cell is read for every announced total length but the NULL mark, which is all the reader looks at. |
| `TdsWire.LongRead` | tpt-keystone-harbor/src/sources/mssql.rs:224-238 | A legacy text cell is read past its pointer and timestamp. |
| `TdsWire.TypeInfoRoundTrip` | tpt-keystone-harbor/src/sources/mssql.rs:71-145 | The type information of every supported type is read to the right column description and nothing after it is touched. |
| `TdsWire.AcceptedTypes` | tpt-keystone-harbor/src/sources/mssql.rs:75-143 | A type byte is accepted if and only if it is one of the 35 named types. |
| `TdsWire.ColumnsRead` | tpt-keystone-harbor/src/sources/mssql.rs:783-796 | A column list decodes to its descriptions in order. |
| `TdsWire.MetadataRead` | tpt-keystone-harbor/src/sources/mssql.rs:772-797 | A description replaces the columns and the no-metadata mark clears them. |
| `Tds.ParseResultSet` | tpt-keystone-harbor/src/sources/mssql.rs:763-832 | The token loop meets its specification. |
| `Tds.ReadToken` | tpt-keystone-harbor/src/sources/mssql.rs:769-828 | The dispatch on a token meets its specification: stop, fail, or go on. |
| `Tds.ReadRow` | tpt-keystone-harbor/src/sources/mssql.rs:801-806 | The cell loop of a row meets its specification. |
| `Tds.ReadColumns` | tpt-keystone-harbor/src/sources/mssql.rs:783-796 | The column loop meets its specification. |
| `Tds.ReadColumn` | tpt-keystone-harbor/src/sources/mssql.rs:785-794 | One column header meets its specification. |
| `Tds.ReadTypeInfo` | tpt-keystone-harbor/src/sources/mssql.rs:71-145 | Type information meets its specification. |
| `Tds.SkipTableName` | tpt-keystone-harbor/src/sources/mssql.rs:131-138 | The part loop meets its specification. |
| `Tds.ReadCell` | tpt-keystone-harbor/src/sources/mssql.rs:151-192 | Reading a cell of each length kind meets its specification. |
| `Tds.ReadSized` | tpt-keystone-harbor/src/sources/mssql.rs:155-157 | Taking a counted number of bytes as text meets its specification. |
| `Tds.ReadPlpCell` | tpt-keystone-harbor/src/sources/mssql.rs:199-219 | A chunked cell meets its specification. |
| `Tds.ReadLongCell` | tpt-keystone-harbor/src/sources/mssql.rs:224-238 | A legacy text cell meets its specification. |
| `Tds.ReadPlpChunks` | tpt-keystone-harbor/src/sources/mssql.rs:206-216 | The chunk loop meets its specification. |
| `Kafka.BatchRoundTrip` | tpt-keystone-harbor/src/sources/kafka.rs:285-382 | An uncompressed version 2 batch followed by any bytes decodes to its keys and values, with offset base plus position and timestamp first plus delta. |
| `Kafka.RecordRoundTrip` | tpt-keystone-harbor/src/sources/kafka.rs:322-373 | A record takes exactly its own bytes, headers included. |
| `Kafka.HeadersRoundTrip` | tpt-keystone-harbor/src/sources/kafka.rs:358-373 | Any headers are skipped exactly. |
| `Kafka.DecodeRecordBatch` | tpt-keystone-harbor/src/sources/kafka.rs:285-382 | The record loop meets its specification, the clamp of a length past the buffer or below -12 included. |
| `Kafka.ReadRecord` | tpt-keystone-harbor/src/sources/kafka.rs:323-373 | The body of the record loop meets its specification. |
| `Kafka.ReadHeaders` | tpt-keystone-harbor/src/sources/kafka.rs:358-373 | The header loop meets its specification. |
| `Kafka.OffsetsRight` | tpt-keystone-harbor/src/sources/kafka.rs:374-379 | The decoder's offsets are the log's if and only if every record's offset delta is its position. |
| `Kafka.DenseIsRight` | tpt-keystone-harbor/src/sources/kafka.rs:374-379 | In a batch from which nothing was compacted away they are. |
| `Kafka.OthersRefused` | tpt-keystone-harbor/src/sources/kafka.rs:295-318 | Bytes with another magic number, or with a compression in the attributes, are refused whatever else they hold. |
| `Kafka.LengthClamped` | tpt-keystone-harbor/src/sources/kafka.rs:290-292 | A batch length past the buffer, or below -12, means the rest of the buffer; one from -12 to -1 fails. |
| `Kafka.HeaderMustFit` | tpt-keystone-harbor/src/sources/kafka.rs:286-311 | A buffer with a length but no room for the header fails. |
| `Kafka.NegativeHeaderCount` | tpt-keystone-harbor/src/sources/kafka.rs:356-358 | A negative number of headers is none. |
| `KafkaFetch.ParseFetchResponse` | tpt-keystone-harbor/src/sources/kafka.rs:251-281 | The loops over topics and partitions meet their specification. |
| `KafkaFetch.ReadParts` | tpt-keystone-harbor/src/sources/kafka.rs:264-277 | The partition loop meets its specification. |
| `KafkaFetch.NegativeLengthFails` | tpt-keystone-harbor/src/sources/kafka.rs:147-160 | A topic name with a negative length, the null string among them, fails. |
| `KafkaFetch.ResponseRoundTrip` | tpt-keystone-harbor/src/sources/kafka.rs:251-281 | A response with any topics and partitions is read to the first batches of its partitions, in order, and the last high watermark, whatever the error codes. |
| `KafkaFetch.ReplyRead` | tpt-keystone-harbor/src/sources/kafka.rs:251-281 | The reply to a request for an offset is read to the records of the batch that reaches it. |
| `KafkaFetch.ReadOutcome` | tpt-keystone-harbor/src/sources/kafka.rs:401-416 | From offset zero: a partition whose start has moved reads as empty, one whose first gap comes before a batch without records is read for ever, and any other ends, at the first batch without records. |
| `KafkaFetch.NeverEnds` | tpt-keystone-harbor/src/sources/kafka.rs:403-415 | Once the loop comes to a batch with a gap it asks for that batch again in every round. |
| `KafkaFetch.Ends` | tpt-keystone-harbor/src/sources/kafka.rs:403-415 | Otherwise it ends within one request a batch and one more, with every batch read once. |
| `KafkaFetch.ReadIsExact` | tpt-keystone-harbor/src/sources/kafka.rs:394-418 | The loop ends with every record of the partition, once, in order and at its own offset, if and only if the start has not moved and no batch up to the last one with records has a gap, or there are no records. |
| `KafkaFetch.ReadPartition` | tpt-keystone-harbor/src/sources/kafka.rs:402-415 | The loop as written, on the bytes of the replies, returns what its specification collects and the last watermark. |
| `KafkaFetch.ReadAll` | tpt-keystone-harbor/src/sources/kafka.rs:394-418 | All partitions, in order, and the last watermark. |
| `KafkaFetch.AllRead` | tpt-keystone-harbor/src/sources/kafka.rs:394-418 | Of readable partitions that is every record of every partition. |
| `Varint.VarintRoundTrip` | tpt-keystone-harbor/src/sources/kafka.rs:163-183 | For every 32-bit integer: the number read from its zigzag encoding, which is the integer exactly on the middle half of the range and off by 2^31 elsewhere, and the bytes used. |
| `Varint.VarlongRoundTrip` | tpt-keystone-harbor/src/sources/kafka.rs:185-205 | The same for 64 bits, off by 2^63. |
| `Varint.RawRoundTrip` | tpt-keystone-harbor/src/sources/kafka.rs:163-178 | The shift loop adds up the encoded groups while they fit the register. |
| `Varint.OrAbove` | tpt-keystone-harbor/src/sources/kafka.rs:173 | The bitwise OR of bits that lie above those already there is their sum. |
| `Varint.VarintLength` | tpt-keystone-harbor/src/sources/kafka.rs:167-181 | Reading succeeds if and only if one of the first five (for the long form ten) bytes ends the number, and consumes through it. |
| `Varint.ReadLoop` | tpt-keystone-harbor/src/sources/kafka.rs:163-183 | The loop over bytes meets its specification at both widths. |
| `Varint.ReadVarint` | tpt-keystone-harbor/src/sources/kafka.rs:163-183 | The 32-bit reader. |
| `Varint.ReadVarlong` | tpt-keystone-harbor/src/sources/kafka.rs:185-205 | The 64-bit reader. |
| `Bson.DocumentRoundTrip` | tpt-keystone-harbor/src/sources/mongodb.rs:127-151 | A built document of any nesting, followed by any bytes, decodes to its fields in order. |
| `Bson.ValueRoundTrip` | tpt-keystone-harbor/src/sources/mongodb.rs:153-221 | Every value of the ten kinds, a binary of any subtype and an array with any element names included, decodes to its view and uses exactly its own bytes. |
| `Bson.FieldsRoundTrip` | tpt-keystone-harbor/src/sources/mongodb.rs:127-151 | A list of elements decodes to their names and values in order. |
| `Bson.ArrayIgnoresNames` | tpt-keystone-harbor/src/sources/mongodb.rs:177-185 | An array is its values in order; the names of its elements play no part. |
| `Bson.UnknownKindEnds` | tpt-keystone-harbor/src/sources/mongodb.rs:219 | An element of any other kind is kept by name as Unknown; what comes before it is read and nothing after it is. |
| `Bson.FieldsThen` | tpt-keystone-harbor/src/sources/mongodb.rs:135-149 | Elements in front of anything are read, and then what follows. |
| `Bson.StringLength` | tpt-keystone-harbor/src/sources/mongodb.rs:161-168 | For every declared length: a string cut there, Unknown and everything consumed when it lies past the end, a panic when it leaves no room for the terminator. |
| `Bson.BinaryLength` | tpt-keystone-harbor/src/sources/mongodb.rs:211-218 | The same for binary data. |
| `Bson.NestedLength` | tpt-keystone-harbor/src/sources/mongodb.rs:169-185 | A nested document that claims no more than its length field is kept as an empty one, and one that claims too much is Unknown. |
| `Bson.DocumentLength` | tpt-keystone-harbor/src/sources/mongodb.rs:128-132 | The outermost document is cut at its declared length, and is the whole buffer when that lies past the end. |
| `Bson.ReadDoc` | tpt-keystone-harbor/src/sources/mongodb.rs:127-151 | The element loop meets its specification and ends. |
| `Bson.ReadValue` | tpt-keystone-harbor/src/sources/mongodb.rs:153-221 | The case analysis meets its specification, swallowed inner failures included. |
| `Csv.ExportImportIsLossless` | tpt-keystone-cli/src/format.rs:133-146 | An export parses back to its header and rows, NULL as the empty string, if and only if there are two columns or more, or one column with no empty line. |
| `Csv.RoundTrip` | tpt-keystone-cli/src/data.rs:37-75 | For any lines of any text, parsing what is printed gives them back without the ones that are empty or a single empty field. |
| `Csv.AnyLineEnds` | tpt-keystone-cli/src/data.rs:37-75 | Lines each ended by a line feed or by a carriage return and a line feed, and a last line ended by nothing, parse to those lines without the blank ones. |
| `Csv.QuotesInside` | tpt-keystone-cli/src/data.rs:45-58 | Quotes may open and close anywhere in a field. |
| `Csv.UnclosedScan` | tpt-keystone-cli/src/data.rs:45-55 | Text that ends inside quotes leaves the field as read so far. |
| `Csv.FieldScan` | tpt-keystone-cli/src/format.rs:125-131 | A printed field is read back whole, whatever it contains. |
| `Csv.QuotedScan` | tpt-keystone-cli/src/data.rs:45-55 | Doubled quotes are undone and nothing inside quotes is special. |
| `Csv.RenderCsv` | tpt-keystone-cli/src/format.rs:133-146 | The line loop meets its specification. |
| `Csv.ParseCsv` | tpt-keystone-cli/src/data.rs:37-75 | The character loop meets its specification. |
| `Csv.Retain` | tpt-keystone-cli/src/data.rs:73 | The filter meets its specification. |
| `Calendar.DateRoundTrip` | tpt-keystone-harbor/src/sources/mssql.rs:366-388 | Every valid date of every year comes back from its day number. |
| `Calendar.DayRoundTrip` | tpt-keystone-harbor/src/sources/mssql.rs:376-388 | Every integer is the day number of the valid date computed for it. |
| `Calendar.NextDayIsNextNumber` | tpt-keystone-harbor/src/sources/mssql.rs:366-374 | The calendar's next day has the next number, and 1 January 1970 has 0. |
| `Calendar.DayOrderIsDateOrder` | tpt-keystone-harbor/src/sources/mssql.rs:366-374 | Day numbers order dates as the calendar does. |
| `Decimal.ScaledRoundTrip` | tpt-keystone-harbor/src/sources/mssql.rs:325-340 | The text of a scaled integer has exactly that many fraction digits and reads back to it, sign included. |
| `Decimal.ScaledTextCanonical` | tpt-keystone-harbor/src/sources/mssql.rs:325-340 | No superfluous zero in front, and a minus sign exactly for a negative value. |
| `Decimal.MantissaRoundTrip` | tpt-keystone-harbor/src/sources/mssql.rs:342-359 | A mantissa is refused if and only if it is wider than 16 bytes, and otherwise reads back with its sign. |
| `Decimal.TimeRoundTrip` | tpt-keystone-harbor/src/sources/mssql.rs:445-456 | Hour, minute, second and fraction recombine to the value if and only if the product fits in 64 bits; five bytes always do. |
| `Decimal.TimeParts` | tpt-keystone-harbor/src/sources/mssql.rs:451-455 | Minutes and seconds are below 60, the hour is below 24 if and only if the units modulo 2^64 are fewer than a day has, and the fraction has exactly the digits of the scale: with the round trip, only one time is left. |
| `Lsn.TokenRoundTrip` | tpt-keystone-harbor/src/sources/mssql.rs:463-475 | Both printed forms of a byte string parse back to it, and the empty one is refused. |
| `Lsn.HexText` | tpt-keystone-harbor/src/sources/mssql.rs:254-262 | Each byte is two lower-case hexadecimal digits, the high one first. |
| `Lsn.SpaceAround` | tpt-keystone-harbor/src/sources/mssql.rs:467-468 | White space of any kind around a token is ignored, and nothing else is. |
| `Lsn.PairsAccepted` | tpt-keystone-harbor/src/sources/mssql.rs:471-475 | Two characters are a byte if and only if both are hexadecimal digits, or the first is a plus sign. |
| `Lsn.CapitalsRead` | tpt-keystone-harbor/src/sources/mssql.rs:471-475 | Capital digits read like small ones. |
| `Lsn.LessIsNumeric` | tpt-keystone-harbor/src/sources/mssql.rs:1061 | On equal lengths the comparison of byte vectors is the numeric one. |
| `Lsn.NumericExactlyOnEqualWidths` | tpt-keystone-harbor/src/sources/mssql.rs:1061 | The comparison of byte vectors of two given lengths is the numeric one if and only if the lengths are equal or the second is zero. |
| `Lsn.HexEncode` | tpt-keystone-harbor/src/sources/mssql.rs:254-262 | The digit loop meets its specification. |

## Left out

- Sockets, TLS, login and startup packets, HTTP, the dashboard, metrics and the command line: input and output.
- SQL text: statements act on abstract tables; quoting, type coercion and DDL are not modelled, and a statement either takes effect or does not.
- ReplicationProof.InStepAtEveryCommit: assumes non-NULL primary keys, keys that an update keeps (SQL Server logs a key change as a delete and an insert), and distinct table names; exactly-once delivery after a crash is not claimed, and `Reapply` says what repetition does.
- ReplicationProof.DurableTokenCoversAllChanges: the source's minimum LSN is one number for all restarts without a token, the next-LSN query never answers NULL, and a save is atomic (a torn one is an outcome in `Verify.MigrationEngine.Save` only).
- ReplicationProof.NeverStuck: says what can happen next, not that it does; a producer blocked on a channel whose consumer ended early stays blocked.
- Snapshot.CleanSnapshotIsExact: the source does not change during the snapshot, saves are atomic, and names are distinct; without the last, `SnapshotNames` says what is left.
- Replication and Snapshot are machines over values: the engine's fields are parts of the state, because two futures share them.
- Verify.MigrationEngine.VerifyTables: takes both row lists as given and assumes the hash separates the encodings compared; reading the rows and xxHash3 itself are not modelled.
- Reactive.Core.CreateMemo: created inside a running effect, a memo may read only what that effect may read; memos read only earlier nodes, so the graph is acyclic. Effects that do more than compute a memo are not modelled.
- Cdc.OperationText: cells are bytes, so of white space only the ASCII kinds are trimmed, and the lossy UTF-8 step is left out.
- Pool.AccountingHolds: assumes one Release for each Acquire; that a waiting caller is ever woken is not claimed (a failed dial does not signal).
- PgWire.Conn.Query: states its outcome for replies of well-formed messages that contain a ReadyForQuery; text is bytes, without the lossy UTF-8 step.
- PgWire.DecodeMessage: authentication, parameter, key and copy messages are only told apart by their tag, since a query ignores them.
- TdsWire.CellRoundTrip: turning raw bytes into text is a parameter, so code pages, lossy UTF-16, floats and the offset of DATETIMEOFFSET are not modelled; the calendar, decimal and time converters are proved in their own modules.
- TdsWire.StreamRoundTrip, Kafka.BatchRoundTrip and Bson.DocumentRoundTrip: speak of well-formed input; on truncated input the loops are proved to meet their specifications and no more is claimed.
- KafkaFetch.ReadAll: the list of partitions is given, the metadata response is not modelled; a broker serves whole batches and its replies stay below 2^31 bytes; tailing several topics is left out.
- KafkaFetch.ReadPartition: has a result only where the original ends; where it does not, `NeverEnds` says so.
- Kafka.BatchRoundTrip: lengths below 2^30 and timestamps whose delta lies in the range the varint reader gets right.
- Bson.ValueRoundTrip: sizes below 2^31, doubles as their eight bytes; rendering documents as JSON is left out.
- Calendar.DayRoundTrip: unbounded integers, without the overflow of 64-bit arithmetic at years near 2^63 / 366.
- The MySQL, Oracle, Neo4j, InfluxDB, Elasticsearch, ODBC, vector and PostGIS sources, type-name tables, query builders, themes, plugins and the autoscaler: they would add easy members only.
- The storage engine, leases, MVCC and the SQL parser described in the documentation are not part of this model.
