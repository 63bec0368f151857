# Durability and read-consistency core of the Cassandra CDC connector

This project is a Dafny model of three pieces of the Cassandra source connector and its commit-log producer:

- **The consistency-downgrade read** of `CassandraClient`. A primary-key select is built and optionally pinned to the coordinator node that produced the mutation. It is executed at the first level of a caller-owned list of consistency levels, and retried at the next level while the cluster answers "not enough replicas available". The result is paired with the level that produced it.
- **The offset store** `OffsetFileWriter`. It holds the commit-log position the producer has reached, in memory and in the one-line file `commitlog_offset.dat`. It reads the position back at start-up and flushes it after each mutation, following its flush policy.
- **The string helpers** `singleQuote` and `isEmpty` of `StringUtil`.

Modules:

- `Wrappers` (wrappers.dfy): `Option` stands for a nullable reference, `Result` for a value-or-exception, `Outcome` for a `void` call that may throw.
- `StringUtil` (string_util.dfy) holds the two string helpers.
- `JavaNumbers` (java_numbers.dfy) models the Java platform behaviour the offset file's text format depends on:
  - `Long.toString`/`Integer.toString`;
  - `Long.parseLong`/`Integer.parseInt`, including the sign, the range check and `NumberFormatException`;
  - `String.split` on a one-character pattern, including Java's removal of trailing empty strings;
  - the first `BufferedReader.readLine`, which returns null on an empty file.
- `OffsetStore` (offset_store.dfy):
  - positions are `CommitLogPosition(segmentId: long, position: int)`;
  - the position text format and its parser;
  - the class `OffsetFileWriter`. Its fields are the in-memory position, the offset file's content (`Option<string>`, `None` while the file does not exist), `timeOfLastFlush`, `notCommittedEvents` and the flush policy. A ghost field `durable` holds the position a restart would read back, and `Valid()` states that loading the file yields exactly `durable`.
- `CassandraClient` (cassandra_client.dfy):
  - metadata lookup, query building and coordinator pinning;
  - the downgrade protocol as a specification function `Downgrade`, with the lemmas that characterise it;
  - the imperative `ExecuteWithDowngradeConsistencyRetry` over a caller-owned `LevelList`, proved equal to `Downgrade`;
  - `SelectRowAsync`;
  - a model of the code as written (see Findings).

Replaced by parameters:

- The cluster is a function `Cluster` from the attempt number and the statement sent to that attempt's outcome. The outcome is a result set or a `Throwable`.
- The clock is a `now` parameter.
- File-system failures are an `ioFails` flag.
- The session metadata is a `Metadata` snapshot: keyspaces by name, nodes by host id.

### Behaviour of the code worth noting

- `notCommittedEvents` is never incremented anywhere in `OffsetFileWriter`. It is only reset to 0.
- Saving opens the file with a plain `FileWriter`, which truncates it before writing. It is not an all-or-nothing replace, so a crash during the write can leave a partial file.
- An empty level list makes `remove(0)` throw (`IndexOutOfBoundsException`). The model returns that exception; it does not require a non-empty list.
- A read is pinned only when the node id is non-null and present in the node metadata. Otherwise it goes out without a node and no error is raised. Whether the node is reachable is never checked.

## Model

| member | source | states |
|---|---|---|
| `StringUtil.SingleQuote` | source/src/main/java/com/datastax/oss/common/sink/util/StringUtil.java:23-25 | the result is two characters longer than `s`, starts and ends with `'`, and its middle is exactly `s`; a null argument gives `'null'` |
| `StringUtil.IsEmpty` | source/src/main/java/com/datastax/oss/common/sink/util/StringUtil.java:27-29 | true for null; for a non-null string, true exactly when it has no characters |
| `StringUtil.SingleQuoteInjective` | source/src/main/java/com/datastax/oss/common/sink/util/StringUtil.java:23-25 | two strings with equal quoted forms are equal |
| `StringUtil.SingleQuotedIsNotEmpty` | source/src/main/java/com/datastax/oss/common/sink/util/StringUtil.java:23-29 | a quoted string is never empty in the sense of `isEmpty` |
| `JavaNumbers.NatToDecimal` | producer/src/main/java/com/datastax/cassandra/cdc/producer/OffsetFileWriter.java:76 | the decimal rendering is a non-empty string of digits with no leading zero |
| `JavaNumbers.DecimalValueOfNatToDecimal` | producer/src/main/java/com/datastax/cassandra/cdc/producer/OffsetFileWriter.java:76 | the digits rendered for `n` denote `n` |
| `JavaNumbers.ToDecimal` | producer/src/main/java/com/datastax/cassandra/cdc/producer/OffsetFileWriter.java:76 | `Long.toString`/`Integer.toString`: the digits of `x` without leading zeros for `x >= 0`, and `-` followed by the digits of `-x` otherwise |
| `JavaNumbers.ParseInteger` | producer/src/main/java/com/datastax/cassandra/cdc/producer/OffsetFileWriter.java:81 | `parseLong`/`parseInt`: succeeds exactly when, after an optional `-` or `+`, at least one digit and only digits follow and the signed value is within the type's bounds, and then returns that value; anything else is a `NumberFormatException` |
| `JavaNumbers.ParseLong` | producer/src/main/java/com/datastax/cassandra/cdc/producer/OffsetFileWriter.java:81 | `Long.parseLong`: succeeds exactly when parsing within the `long` bounds does, with that value |
| `JavaNumbers.ParseInt` | producer/src/main/java/com/datastax/cassandra/cdc/producer/OffsetFileWriter.java:81 | `Integer.parseInt`: succeeds exactly when parsing within the `int` bounds does, with that value |
| `JavaNumbers.ParseIntegerOfToDecimal` | producer/src/main/java/com/datastax/cassandra/cdc/producer/OffsetFileWriter.java:76-81 | parsing the decimal rendering of any in-range integer gives that integer back |
| `JavaNumbers.SplitAll` | producer/src/main/java/com/datastax/cassandra/cdc/producer/OffsetFileWriter.java:80 | at least one piece, no piece contains the separator, and the pieces joined with the separator give back the string |
| `JavaNumbers.DropTrailingEmpty` | producer/src/main/java/com/datastax/cassandra/cdc/producer/OffsetFileWriter.java:80 | a prefix of the pieces that ends in a non-empty piece (or is empty), and only empty pieces are dropped |
| `JavaNumbers.Split` | producer/src/main/java/com/datastax/cassandra/cdc/producer/OffsetFileWriter.java:80 | `split` on the separator: the whole string when the separator is absent; otherwise all pieces between separators up to the last non-empty one, with only trailing empty pieces dropped |
| `JavaNumbers.SplitAroundSeparator` | producer/src/main/java/com/datastax/cassandra/cdc/producer/OffsetFileWriter.java:80 | two separator-free fields, the second non-empty, joined by one separator split back into exactly those two fields |
| `JavaNumbers.FirstLine` | producer/src/main/java/com/datastax/cassandra/cdc/producer/OffsetFileWriter.java:94-96 | `readLine` on a fresh reader is null exactly for empty content, and otherwise the content up to its first `\n` or `\r` (all of it when there is none) |
| `JavaNumbers.FirstLineOfSingleLine` | producer/src/main/java/com/datastax/cassandra/cdc/producer/OffsetFileWriter.java:94-96 | content without line terminators is read back whole as the first line |
| `OffsetStore.SerializePosition` | producer/src/main/java/com/datastax/cassandra/cdc/producer/OffsetFileWriter.java:75-77 | single-line text: the decimal segment id, one separator, the decimal position |
| `OffsetStore.DeserializePosition` | producer/src/main/java/com/datastax/cassandra/cdc/producer/OffsetFileWriter.java:79-82 | parses field 0 as a long and field 1 as an int, with Java's exceptions in Java's order; a success needs a separator; an empty line is a `NumberFormatException` |
| `OffsetStore.SerializedFields` | producer/src/main/java/com/datastax/cassandra/cdc/producer/OffsetFileWriter.java:75-80 | splitting a serialised position gives exactly its two decimal fields |
| `OffsetStore.DeserializeSerialize` | producer/src/main/java/com/datastax/cassandra/cdc/producer/OffsetFileWriter.java:75-82 | for every position, deserialising its serialisation gives it back |
| `OffsetStore.LoadPosition` | producer/src/main/java/com/datastax/cassandra/cdc/producer/OffsetFileWriter.java:93-102 | an empty file is a `NullPointerException`; a successful load needs a separator in the file |
| `OffsetStore.LoadSerialized` | producer/src/main/java/com/datastax/cassandra/cdc/producer/OffsetFileWriter.java:84-102 | a file saved for `p` is loaded back as `p` |
| `OffsetStore.OffsetFlushPolicy.ShouldFlush` | producer/src/main/java/com/datastax/cassandra/cdc/producer/OffsetFileWriter.java:38 | the always-flush policy the store is built with says "flush" for every input |
| `OffsetStore.OffsetFileWriter.Make` | producer/src/main/java/com/datastax/cassandra/cdc/producer/OffsetFileWriter.java:31-38 | before `init`: position (0,0), bookkeeping at `now` and 0, always-flush policy |
| `OffsetStore.OffsetFileWriter.Open` | producer/src/main/java/com/datastax/cassandra/cdc/producer/OffsetFileWriter.java:37-56 | with no file: position (0,0), and the file then holds its serialisation; with a file: the position is the parse of its first line, and a parse error or I/O failure is fatal; a store that opens is valid, its durable position is its in-memory one, and its bookkeeping starts at `now` and 0 |
| `OffsetStore.OffsetFileWriter.Init` | producer/src/main/java/com/datastax/cassandra/cdc/producer/OffsetFileWriter.java:104-113 | load when the file exists; otherwise a failed directory creation or write throws, and a success saves (0,0) |
| `OffsetStore.OffsetFileWriter.LoadOffset` | producer/src/main/java/com/datastax/cassandra/cdc/producer/OffsetFileWriter.java:93-102 | a failed read or parse throws and leaves the position; a success sets the position to the parse |
| `OffsetStore.OffsetFileWriter.SaveOffset` | producer/src/main/java/com/datastax/cassandra/cdc/producer/OffsetFileWriter.java:84-91 | overwrites the file with the serialised in-memory position, which becomes the durable one; a write failure is rethrown and leaves the file as it was |
| `OffsetStore.OffsetFileWriter.Offset` | producer/src/main/java/com/datastax/cassandra/cdc/producer/OffsetFileWriter.java:58-60 | returns the in-memory position |
| `OffsetStore.OffsetFileWriter.MarkOffset` | producer/src/main/java/com/datastax/cassandra/cdc/producer/OffsetFileWriter.java:62-64 | the in-memory position becomes `p`; the file and every other field are unchanged |
| `OffsetStore.OffsetFileWriter.Flush` | producer/src/main/java/com/datastax/cassandra/cdc/producer/OffsetFileWriter.java:66-68 | the file holds the current position, which does not change and becomes durable; a write failure is rethrown |
| `OffsetStore.OffsetFileWriter.Close` | producer/src/main/java/com/datastax/cassandra/cdc/producer/OffsetFileWriter.java:70-73 | the same final save as `flush` |
| `OffsetStore.OffsetFileWriter.MaybeCommitOffset` | producer/src/main/java/com/datastax/cassandra/cdc/producer/OffsetFileWriter.java:115-130 | when the policy says flush: the record's position is marked; after a successful write the file holds it, the event count is 0 and the last-flush time is `now`; after a failed write no exception escapes, the mark stays, and file and bookkeeping keep their old values; when the policy says no, nothing changes |
| `OffsetStore.Reopen` | producer/src/main/java/com/datastax/cassandra/cdc/producer/OffsetFileWriter.java:93-113 | a store opened over the file a valid store left behind starts at that store's durable position, not at (0,0) |
| `OffsetStore.FlushThenReopen` | producer/src/main/java/com/datastax/cassandra/cdc/producer/OffsetFileWriter.java:62-113 | mark `p`, flush, restart: the new store reports `p` |
| `CassandraClient.GetTableMetadata` | source/src/main/java/com/datastax/oss/cdc/CassandraClient.java:217-228 | succeeds exactly when keyspace and table both exist, with their metadata; a missing keyspace and a missing table raise `IllegalArgumentException` with their own messages |
| `CassandraClient.MetadataErrorsDiffer` | source/src/main/java/com/datastax/oss/cdc/CassandraClient.java:221-225 | the missing-keyspace message never equals a missing-table message |
| `CassandraClient.PkColumns` | source/src/main/java/com/datastax/oss/cdc/CassandraClient.java:241-243 | one where-column per primary-key entry, in iteration order |
| `CassandraClient.PkValues` | source/src/main/java/com/datastax/oss/cdc/CassandraClient.java:240-242 | one bind value per primary-key entry, in iteration order |
| `CassandraClient.BuildQuery` | source/src/main/java/com/datastax/oss/cdc/CassandraClient.java:239-244 | the loop builds a select on the keyspace and table restricted on exactly the pk columns, in order, and collects exactly the pk values |
| `CassandraClient.BuildStatement` | source/src/main/java/com/datastax/oss/cdc/CassandraClient.java:245 | the built statement carries the query and the pk as named values, with no level and no node |
| `CassandraClient.CoordinatorNode` | source/src/main/java/com/datastax/oss/cdc/CassandraClient.java:248-251 | a node exactly when the id is non-null and in the node metadata, and then the node stored under it |
| `CassandraClient.PinCoordinator` | source/src/main/java/com/datastax/oss/cdc/CassandraClient.java:247-254 | pinned to the node when the id is known; otherwise the statement unchanged, with no error |
| `CassandraClient.Downgrade` | source/src/main/java/com/datastax/oss/cdc/CassandraClient.java:274-296 | an empty list throws `IndexOutOfBoundsException` with no attempt; otherwise between 1 and `|levels|` levels are consumed |
| `CassandraClient.DowngradeTrace` | source/src/main/java/com/datastax/oss/cdc/CassandraClient.java:279-293 | attempt `i` runs at `levels[i]`; every attempt but the last found replicas unavailable; a success returns the result with the level it ran at; any other failure is returned after that attempt; an unavailable failure ends the chain only when no level is left |
| `CassandraClient.DowngradeExhaustion` | source/src/main/java/com/datastax/oss/cdc/CassandraClient.java:286-293 | when every level is unavailable, all levels are tried and the last unavailable failure is returned |
| `CassandraClient.DowngradeStopsAt` | source/src/main/java/com/datastax/oss/cdc/CassandraClient.java:283-288 | the first attempt that is not an unavailable failure ends the chain after exactly that many attempts, with its result or error |
| `CassandraClient.AtLevel` | source/src/main/java/com/datastax/oss/cdc/CassandraClient.java:280 | the statement sent is the prepared one with exactly its level replaced |
| `CassandraClient.Corrected` | source/src/main/java/com/datastax/oss/cdc/CassandraClient.java:280-283 | each attempt observes the cluster's answer to the statement at that attempt's level |
| `CassandraClient.LevelList.constructor` | source/src/main/java/com/datastax/oss/cdc/CassandraClient.java:278 | the caller's list holds the given levels |
| `CassandraClient.ExecuteWithDowngradeConsistencyRetry` | source/src/main/java/com/datastax/oss/cdc/CassandraClient.java:274-296 | the loop's outcome is `Downgrade`'s, and on return the caller's list is the original minus exactly the attempted prefix |
| `CassandraClient.FirstRow` | source/src/main/java/com/datastax/oss/cdc/CassandraClient.java:262 | `one()`: null exactly for no rows, else the first row |
| `CassandraClient.SelectRowAsync` | source/src/main/java/com/datastax/oss/cdc/CassandraClient.java:234-272 | the pinned pk select is run through `Downgrade`, and the list loses exactly the attempted levels; a failure is propagated; a success gives the first row, the level used and the keyspace metadata, or `NoSuchElementException` when the keyspace is gone |
| `CassandraClient.ThroughThenApply` | source/src/main/java/com/datastax/oss/cdc/CassandraClient.java:282-286 | a failure seen through the `thenApply` stage is the original exception wrapped in a `CompletionException`; a success passes unchanged |
| `CassandraClient.AsWritten` | source/src/main/java/com/datastax/oss/cdc/CassandraClient.java:252-286 | as written, every attempt sends the statement as built, and its failure is observed wrapped |
| `CassandraClient.AsWrittenNeverDowngrades` | source/src/main/java/com/datastax/oss/cdc/CassandraClient.java:282-293 | as written, the chain stops after its first attempt for every list and cluster |
| `CassandraClient.AsWrittenMisreportsLevel` | source/src/main/java/com/datastax/oss/cdc/CassandraClient.java:280-288 | with levels [All, LocalQuorum] and All short of replicas: as written, the read is reported at All; corrected, the read fails at All and succeeds at LocalQuorum |
| `CassandraClient.PinCoordinatorAsWritten` | source/src/main/java/com/datastax/oss/cdc/CassandraClient.java:247-254 | as written, the statement sent is the one built, whatever the node lookup finds |
| `CassandraClient.AsWrittenDropsCoordinator` | source/src/main/java/com/datastax/oss/cdc/CassandraClient.java:245-254 | for a known node id, the as-written statement has no node, while the corrected pin sets it to that node |

## Findings

| source | as written | input that shows it | evidently intended | confidence | as-written member | corrected member |
|---|---|---|---|---|---|---|
| source/src/main/java/com/datastax/oss/cdc/CassandraClient.java:252, 280 | `statement.setNode(node)` and `statement.setConsistencyLevel(cl)` discard their results. The code imports `SimpleStatement` from version 4 of the DataStax Java driver, where statements are immutable and every setter returns a modified copy. So the statement sent has no level and no coordinator, yet the result is reported with `cl`. | levels [ALL, LOCAL_QUORUM]; a cluster with too few replicas for ALL | each attempt is sent at its own level (`statement = statement.setConsistencyLevel(cl)`) and pinned to the known coordinator | not executed; relies on the driver's documented immutability | `CassandraClient.AsWrittenMisreportsLevel` | `CassandraClient.ExecuteWithDowngradeConsistencyRetry` |
| source/src/main/java/com/datastax/oss/cdc/CassandraClient.java:282-286 | `handle` runs on the `thenApply` stage. The `CompletionStage` contract makes a dependent stage fail with a `CompletionException` whose cause is the original exception. So `ex instanceof UnavailableException` is never true, and no downgrade ever happens. | any list of two or more levels; the first attempt fails with `UnavailableException` | test the cause of the exception it receives, and retry on an unavailable-replicas failure while levels remain | not executed; relies on the documented `CompletionStage` semantics | `CassandraClient.AsWrittenNeverDowngrades` | `CassandraClient.DowngradeTrace` |

## Left out

- Session, SSL, authentication and config-loader building, and `close` (source/src/main/java/com/datastax/oss/cdc/CassandraClient.java:60-205). These are driver configuration and foreign library calls.
- The asynchronous composition (`thenApply`, `handle`, `handleAsync`, `thenCompose`, `whenComplete`), cancellation and the blocking `selectRow` wrapper (213-214). The chain is modelled as a sequential loop, and `selectRow` adds nothing beyond `SelectRowAsync` but `ExecutionException` wrapping.
- `CassandraClient.ExecuteWithDowngradeConsistencyRetry`: a propagated failure is returned as the cluster's own exception, not wrapped in a `CompletionException`/`ExecutionException` as the caller of the Java future would see it.
- Driver types are abstracted:
  - rows are a type parameter;
  - a result set is a sequence of rows;
  - keyspace, table and node metadata are maps and records of names and host ids;
  - the query builder's `Select` is a record of keyspace, table and where-columns, with no CQL text rendered;
  - the `Map` of primary-key values is a sequence of its entries in iteration order.
- The `values` list that the pk loop fills is never used by the Java code, because the statement is built with the pk map. The model computes it, and nothing reads it.
- The metadata is read once before the read and once after it. It is modelled as two snapshots, `before` and `after`.
- Logging in both core classes.
- CassandraClient.GetTableMetadata: keyspace and table lookups are exact on the name as stored in the metadata maps. The driver's `getKeyspace`/`getTable` (lines 219, 223) parse their argument as a CQL identifier, case-folding unquoted names, and that normalisation is not modelled.
- Real file I/O, directory creation and `System.currentTimeMillis`. The file is an `Option<string>` field, the clock is a `now` parameter, and one `ioFails` flag per call stands for any failure of reading, creating the directory or writing.
- `OffsetStore.OffsetFileWriter.SaveOffset`: a failed write leaves the file unchanged, whereas a real `FileWriter` may have truncated it before failing.
- `synchronized`, `volatile` and `AtomicReference`: the store is modelled single-threaded.
- `File.pathSeparatorChar` is fixed to `:`.
- The commented-out metrics gauges.
- `OffsetFlushPolicy`, `CommitLogPosition`, `Mutation` and `SourceInfo` are defined outside the modelled files:
  - the policy is a datatype holding only the always-flush policy the store is built with;
  - a position is a (`long`, `int`) pair;
  - a mutation is passed as the position of its source.
- `OffsetStore.OffsetFileWriter.MaybeCommitOffset`: the elapsed time is an unbounded difference, without Java's `long` wrap-around. That difference matters only to policies other than always-flush.
- `JavaNumbers.ParseInteger`: only ASCII digits are accepted, whereas `Character.digit` also accepts other Unicode decimal digits.
- `BlackHoleCommitLogTransfer`: it only delegates to `CommitLogUtil` and `ProducerConfig`, which are not part of this model, and `getErrorCommitLogFiles` does nothing. Nothing could be stated without inventing file-system semantics.
