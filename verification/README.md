# Quad store: a verified model

A Dafny model of the quad store's two storage backends and of two algorithms in its commands.

**The Pebble backend** keeps a set of quads as four sorted keyspaces (SPO, POS, OSP, LSP), a counter per
label and an audit log, all in one ordered map from byte strings to byte strings. The model has the
byte-level key, varint and row encodings, the counter's merge operator, the five write paths (`Commit`, the
bulk loader, the in-memory and the external ingest, the counter rebuild), and the read paths (prefix range
routing, skip scans, the O(1) counter). Each imperative method is proved to have the effect of one function
on the key map (`CommitKv`, `LoadKv`, `Put`, `AddDeltas`, `Replaced`), and each function to act on the
represented store as the batch acts on a plain set and an abstract log (`StoreModel`). A run (`History`) is
a sequence of those store operations, so that an ingest and a rebuild, which make two each, may have other
writers between theirs, and what such interleavings do to the counters is proved (`Interleaving`). The
external ingest is modelled down to run-file bytes, run readers, a sift-up/sift-down heap and the k-way
merge, and ends in the same outcome as the in-memory ingest. Pebble itself is its contract (`Pebble`): an
ordered map, atomic batches applied in order, half-open iterators, and ingestion of strictly increasing,
non-overlapping tables.

**The SQLite store** is a list of partitions, each a file with a quad table, a commits table and an op
table, and a one-place writer slot. The model has opening, routing, the writer, the bulk loader, the reader
and migration. Its central results are that in every reachable state each quad is only where its label
routes, that all partitions together behave as one plain set, that reads are exact, that its runs are those
of a single file, and that migration conserves quads and keeps each commit with its ops. The slots are also
a state machine over all interleavings. Both backends are proved to agree on quads and audit rows.

**What the contracts name is spelt out** in lemmas of its own: keys, audit rows, counters and run files byte
by byte, varints by their digits, which quad a write stores, which quads a pattern matches, what makes a batch
acceptable, where a label routes, what a commit adds to each audit log.

**The commands** contribute greedy set cover with its approximation bound, and union-find with path
compression, whose clusters are the connected components of the similarity graph.

## Files

- `ByteOrder`, `Integers`, `Results`, `Consumers`, `Quads`: byte order, varints, errors, stopping consumers, batches
- `QuadKeys`, `CounterMerge`, `Pebble`, `Keyspaces`, `LabelCount`, `Journal`, `StoreModel`, `History`, `Interleaving`: the key map and what it represents
- `PebbleStore`, `PebbleBulk`, `PebbleReader`, `PebbleStats`, `Replay`: the Pebble store's operations
- `RunFile`, `RunHeap`, `RunMerge`, `IngestSorted`, `IngestExternal`: the two ingests
- `Partitioned`, `PartitionedWriter`, `PartitionedBulk`, `PartitionedReader`, `PartitionedRuns`, `Migration`, `MigrateAudit`, `PartitionedMigrate`, `SlotProtocol`, `Backends`: the SQLite store
- `Greedy`, `Clusters`: the commands

## Assumptions

- Fields and labels written to Pebble contain no NUL byte, as `internal/pebbleq/store.go:190-192` asks of callers. Run files, audit values and the agreement of the two ingests need no such assumption.
- Commit ids are fresh and NUL-free, and a commit has at most 2^32 ops; commit times are signed 64-bit. Ids are UUIDv7 in text form (sections 5.7 and 4 of RFC 9562).
- Varints follow "Base 128 Varints" and "Signed Integers" in the Protocol Buffers encoding specification, with the overflow rules of Go's `encoding/binary`.
- A label router is a function (`partitioned.go:30-31`). Exact reads assume a pattern router that is absent or sends a pattern only where all its matches are written; `ScopedExactIff` says what happens otherwise.
- Each operation on the key map is atomic: the commit of a batch, the ingestion of a set of tables, the scan of a snapshot. A `Commit` and a flush are one operation; an ingest is two, its tables and its counter deltas; a rebuild is two, its scan and its batch. Operations of several writers may fall in any order. Where a read opens several iterators (`LabelCounts`, `Stats`, `CommitStatsAt`), each sees the store as others have left it by then: the key maps the later ones meet are parameters.
- One goroutine uses a handle at a time, as the handles' documentation asks.
- Row orders of SQLite tables and Go maps are arbitrary; marshalled metadata, commit ids, times, the outcome of a bulk insert, and whether the holder of a slot frees it while a call waits for it are parameters.

## Where the code is narrower than its comments

- Counters drift on repeated adds, on removes of absent quads, and on removes with an empty label, which are charged to the batch label although the empty-label keys are deleted (`internal/pebbleq/labelcount.go:134-137`, `internal/pebbleq/store.go:361-366`). `CounterIsCountPlusDrift` gives the exact gap, `CountExactIffNoDrift` says when there is none, and `AddedTwiceDrifts`, `AbsentRemoveDrifts` and `UnlabelledRemoveDrifts` give a run for each.
- Counter deltas merged while a rebuild runs do not "re-emerge" (`internal/pebbleq/labelcount.go:163-166`): those merged between its scan and its batch are lost (`LoadDuringRebuildDrifts`), and a rebuild between the tables and the deltas of an ingest counts them twice (`RebuildDuringIngestDrifts`). `RebuildExactIff` says when a rebuild is exact.
- Two rounds of counter deltas commute, but are not always one round of their sums: a delta that comes and goes on a missing counter leaves a zero counter, and its sum leaves none (`AddDeltasTwice`).
- Op keys hold a varint sequence number, so they sort in op order exactly up to 256 ops (`OpKeyOrder`); the number is a `uint32`, so a commit of more than 2^32 ops overwrites its own rows (`OpKeysDistinct`).
- The Pebble bulk loader does not check per-quad labels; `Commit` and both ingests do.
- The external ingest refuses a key as long as its end marker, 2^32-1 bytes; the in-memory ingest does not. On everything else they accept the same input.
- Writes send a label with an unknown partition name to the default partition; `Migrate` refuses such quads, and such a commit makes it dereference a connection that does not exist (`migrate.go:291-293`), modelled as the error `NilConnection`.
- Running `Migrate` again appends the op rows again, since the op table has no key (`MigrateAgain`).
- A commit is in one partition after a migration exactly if the destination had it in at most one, its source files agree on where its label routes, and that is where the destination had it (`OnePartitionIff`). So running `Migrate` again under another router, into the same destination, splits a commit that the two routers send apart (`TwoRoutersIff`, `SecondRouterSplits`), though re-runs are called safe (`migrate.go:76-78`).
- Of what a single file accepts, a partitioned store refuses exactly what does not fit one partition (`CallableIff`), and a prune acts on one partition only. Otherwise a run, its audit rows and its reads are those of a single file.

## Model

| member | source | states |
|---|---|---|
| `QuadKeys.BuildKey` | internal/pebbleq/store.go:193-210 | the appends build the key: prefix byte, fields, one NUL between neighbours |
| `QuadKeys.KeyLayout` | internal/pebbleq/store.go:246-255 | the four keys of a quad byte by byte: 'q', 'p', 'o' or 'l', then the four fields in that keyspace's order, a NUL between two |
| `QuadKeys.SplitJoin` | internal/pebbleq/store.go:225-230 | splitting a joined field list at NULs, at most n pieces, gives the fields back when all but the last are NUL-free |
| `QuadKeys.JoinSplit` | internal/pebbleq/store.go:225-230 | every byte string is the join of its split, whose pieces before the last are NUL-free |
| `QuadKeys.DecodeEncode` | internal/pebbleq/store.go:225-255 | a quad of NUL-free fields is read back from its key in each of the four keyspaces |
| `QuadKeys.EncodeDecode` | internal/pebbleq/store.go:225-244 | a key that decodes at all is the key of the quad it decodes to, in the keyspace of its prefix |
| `QuadKeys.KeyInjective` | internal/pebbleq/store.go:248-255 | two quads with one key in a keyspace are equal |
| `ByteOrder.LessMeans` | internal/pebbleq/ingest_sorted.go:235-239 | one key is below another exactly if at the first place where they part it has ended or has the smaller byte |
| `QuadKeys.KeyOrder` | internal/pebbleq/store.go:186-210 | byte order of keys is lexicographic order of the field tuples, both ways |
| `ByteOrder.PrefixRange` | internal/pebbleq/store.go:212-220 | the range from a prefix to its bumped bound holds exactly the keys with that prefix |
| `QuadKeys.ScanRange` | internal/pebbleq/store.go:212-220 | the range from a keyspace byte, leading fields and a NUL holds a quad's key exactly if those are its leading fields |
| `Integers.LeRoundTrip` | internal/pebbleq/labelcount.go:94-106 | a number below 256^width is read back from its little-endian bytes of that width, at any width |
| `Integers.FromLePlaces` | internal/pebbleq/labelcount.go:94-106 | little-endian: the first byte counts ones, each next one 256 times more |
| `Integers.UvarintRoundTrip` | internal/pebbleq/store.go:436-458 | an unsigned 64-bit number is read back from its varint, whatever follows it |
| `Integers.UvarintPrefixFree` | internal/pebbleq/store.go:422-458 | no varint of any size is a proper prefix of another: the number and what follows are determined |
| `Integers.UvarintDigits` | internal/pebbleq/store.go:422-431 | a varint's seven-bit groups are the number's base-128 digits, low ones first |
| `Integers.UvarintContinues` | internal/pebbleq/store.go:422-431 | exactly its last byte is below 128, and that byte is not zero unless it is the only one |
| `Integers.UvarintReads` | internal/pebbleq/store.go:923-929 | whatever the buffer, a varint read is the value of the groups up to the first byte below 128, at most ten of them, and fits 64 bits |
| `Integers.ZigZagMeans` | internal/pebbleq/store.go:923-929 | non-negative numbers get the even codes and negative ones the odd, small magnitudes first |
| `Integers.VarintRoundTrip` | internal/pebbleq/store.go:923-929 | a signed 64-bit number is read back from its zig-zag varint, whatever follows it |
| `CounterMerge.CountRoundTrip` | internal/pebbleq/labelcount.go:94-106 | an 8-byte counter decodes to the number modulo 2^64, as a signed 64-bit value |
| `CounterMerge.CountDecoded` | internal/pebbleq/labelcount.go:101-106 | every 8-byte value decodes to a signed 64-bit number that encodes back to it |
| `CounterMerge.ValueMerger.constructor` | internal/pebbleq/labelcount.go:43-53 | a merge starts from the decoded first value |
| `CounterMerge.ValueMerger.MergeNewer` | internal/pebbleq/labelcount.go:62-68 | an 8-byte operand is added to the sum, wrapping; any other is refused and changes nothing |
| `CounterMerge.ValueMerger.MergeOlder` | internal/pebbleq/labelcount.go:70-76 | the same for an operand on the older side |
| `CounterMerge.RunPlan` | internal/pebbleq/labelcount.go:43-83 | running the merger over any bracketing computes the abstract merge of that bracketing |
| `CounterMerge.AnyPlanSums` | internal/pebbleq/labelcount.go:21-31 | every bracketing and every mix of older and newer leaves the sum of the fragments modulo 2^64, and is refused exactly if some fragment is not 8 bytes |
| `CounterMerge.MergeOrderIrrelevant` | internal/pebbleq/labelcount.go:21-31 | two merges of the same multiset of fragments leave the same value: interleaved commits cannot lose a delta |
| `Pebble.ApplyConcat` | internal/pebbleq/store.go:291-293 | applying two batches one after the other is applying their concatenation |
| `Pebble.RangeKeys` | internal/pebbleq/store.go:498-540 | a bounded iterator walks exactly the keys in its half-open range, strictly increasing |
| `Pebble.Iterator.Next` | internal/pebbleq/store.go:541-568 | an iterator steps to the next key of its range, or past the end |
| `Pebble.Iterator.SeekGE` | internal/pebbleq/store.go:772-776 | SeekGE lands on the first key not below the target, or past the end |
| `Pebble.DB.Commit` | internal/pebbleq/store.go:291-293 | a batch is applied whole and in order |
| `Pebble.DB.Ingest` | internal/pebbleq/ingest_sorted.go:182-191 | tables of strictly increasing, non-overlapping key ranges become keys with empty values, the rest of the store staying as it was |
| `Keyspaces.IndexesAfter` | internal/pebbleq/store.go:283-389 | putting some quads' four keys and then deleting others' keeps the four keyspaces an index of one set: the old set plus the first, minus the second |
| `Keyspaces.IndexesUnique` | internal/pebbleq/store.go:246-255 | the key map determines the set it indexes |
| `Keyspaces.ImageSize` | internal/pebbleq/store.go:246-255 | a keyspace holds one key per quad of the set |
| `Keyspaces.ApplyPutOps` | internal/pebbleq/store.go:349-354 | the four Sets of an add, applied, put exactly that quad's keys |
| `Keyspaces.ApplyDropOps` | internal/pebbleq/store.go:362-366 | the four Deletes of a remove, applied, drop exactly that quad's keys |
| `LabelCount.AggregateLabelDeltas` | internal/pebbleq/labelcount.go:125-142 | the loop adds one per add and takes one per remove under each effective label |
| `LabelCount.DeltasInRange` | internal/pebbleq/labelcount.go:125-142 | a label's delta stays between minus the removes and the adds, so an int64 does not wrap below 2^63 rows |
| `LabelCount.AddTallyAt` | internal/pebbleq/labelcount.go:125-142 | a label's aggregated delta is the number of quads under it, times the step |
| `LabelCount.BatchDeltasAre` | internal/pebbleq/labelcount.go:125-142 | a label's delta is the number of adds charged to it less the number of removes, both charged to the batch label if they carry none |
| `LabelCount.CounterLayout` | internal/pebbleq/labelcount.go:86-106 | a counter's key is 'L' and the label, its value the count modulo 2^64 in eight little-endian bytes |
| `LabelCount.ApplyLabelDeltas` | internal/pebbleq/labelcount.go:146-156 | one Merge per label, in any map order and skipping zeros, adds every delta to its counter modulo 2^64 |
| `LabelCount.CounterAfter` | internal/pebbleq/labelcount.go:146-156 | after the deltas each counter is its old value plus its delta modulo 2^64 |
| `LabelCount.AddDeltasTwice` | internal/pebbleq/labelcount.go:146-156 | two rounds of deltas are one round of their sums exactly if no delta comes and goes on a missing counter, negative deltas included |
| `LabelCount.AddDeltasCommute` | internal/pebbleq/labelcount.go:21-31 | any two rounds of deltas may change places |
| `LabelCount.RoundsInAnyOrder` | internal/pebbleq/labelcount.go:21-31 | so may any number: every permutation of the rounds leaves the same key map |
| `LabelCount.AnyMergeOrder` | internal/pebbleq/labelcount.go:43-83 | however Pebble brackets, reorders or defers the merges onto a counter, one with no value yet included, it ends with the value that applying them in turn gives |
| `LabelCount.LoadConcat` | internal/pebbleq/store.go:650-701 | loading two lists in turn is loading their concatenation: flushes may fall anywhere |
| `Journal.EncodeCommitValue` | internal/pebbleq/store.go:406-417 | the commit row is timestamp varint, label length, label, metadata |
| `Journal.TimestampRoundTrip` | internal/pebbleq/store.go:923-929 | every 64-bit timestamp is read back from its commit row |
| `Journal.CommitValueInjective` | internal/pebbleq/store.go:406-417 | a commit row loses nothing: its bytes determine time, label and metadata |
| `Journal.AuditLayout` | internal/pebbleq/store.go:419-458 | the audit rows byte by byte: 'c' and the id; 'C', the id, a NUL and the number; 'a' or 'r' and the four length-prefixed fields |
| `Journal.OpKeyInjective` | internal/pebbleq/store.go:422-431 | op keys are injective in commit id and sequence number |
| `Journal.OpKeysDistinct` | internal/pebbleq/store.go:422-431 | a commit's op keys are all distinct exactly if it has at most 2^32 ops |
| `Journal.OpKeyOrder` | internal/pebbleq/store.go:422-431 | op keys sort in op order exactly for commits of at most 256 ops |
| `Journal.BuildOpValue` | internal/pebbleq/store.go:436-458 | the appends build the op value: tag and four length-prefixed fields |
| `Journal.OpValueInjective` | internal/pebbleq/store.go:436-458 | op values are uniquely decodable, whatever bytes the fields hold and whatever follows |
| `Journal.RowsMapIs` | internal/pebbleq/store.go:355-373 | the op rows of a batch are stored in order under 0, 1, 2, ... and nothing else |
| `Journal.JournaledAfter` | internal/pebbleq/store.go:323-372 | writing a batch's audit rows under a fresh id appends exactly that batch to the abstract log |
| `Journal.LogGains` | internal/pebbleq/store.go:323-372 | an audited batch gains the log its time, label and metadata, and as its ops, numbered from zero, the adds under their own label or the batch's and then the removes as given; all other rows stay, and an unaudited batch leaves no trace |
| `StoreModel.CommitRepresents` | internal/pebbleq/store.go:283-389 | a commit's key writes do to the represented store what the batch does to a plain set and log |
| `StoreModel.CommitStores` | internal/pebbleq/store.go:343-366 | after a commit the key map holds what it held and the quads given, each with its own subject, predicate and object and its own label or the batch's, less those removed |
| `StoreModel.LoadRepresents` | internal/pebbleq/store.go:680-701 | a bulk flush or ingest is a union on the plain set and leaves the log |
| `StoreModel.LoadStores` | internal/pebbleq/ingest_sorted.go:109-115 | after a load it holds what it held and the quads given, each as given under its own label or the default |
| `StoreModel.RebuildRepresents` | internal/pebbleq/labelcount.go:167-213 | with nothing in between, a rebuild sets every counter to the true count, leaves one exactly for each label in use, and keeps every other key |
| `StoreModel.ReplacedCounter` | internal/pebbleq/labelcount.go:158-213 | a rebuild whose scan saw one state and whose batch lands on another leaves each counter at the count of the state scanned |
| `StoreModel.LabelKeysAre` | internal/pebbleq/store.go:730-779 | the label keyspace holds one key for each quad of a label |
| `Quads.ValidateLabel` | internal/pebbleq/store.go:173-184 | the loop accepts the empty label and labels in a known namespace |
| `Quads.LabelOkMeans` | internal/pebbleq/store.go:55-57 | a label is good exactly if it is empty or begins with source:, derived:, human: or meta:, spelt in bytes |
| `Quads.AcceptedMeans` | internal/pebbleq/store.go:283-318 | a batch is accepted exactly if its label and every label given are good and no quad lacks subject, predicate or object |
| `Quads.GivenMeans` | internal/pebbleq/store.go:343-354 | a quad is among those given exactly if one of them agrees with it in subject, predicate and object and its label is that one's own or, if that is empty, the default |
| `Quads.EffectiveGiven` | internal/pebbleq/store.go:343-354 | what a write stores is exactly what it was given |
| `Quads.StoredAfter` | writer.go:221-290 | a quad is there after a batch exactly if it is not removed and was there before or is given, under its own label or the batch's |
| `Quads.OpsAre` | writer.go:267-290 | the audit rows in order: each add as it is stored, then each remove as given |
| `Quads.BoundFieldsNarrow` | internal/pebbleq/store.go:545-560 | a pattern that binds nothing filters nothing, and binding a field narrows a read by exactly that field, whatever else is bound |
| `Quads.ReplayBatch` | writer.go:267-290 | replaying a batch's audit rows one by one is its set operation: adds in, then removes out, a quad in both ending out |
| `PebbleStore.Validate` | internal/pebbleq/store.go:283-318 | the head of Commit rejects exactly the batches that are not acceptable, with an error that names a fault the batch has |
| `PebbleStore.AppendAdds` | internal/pebbleq/store.go:343-361 | the add loop: four Sets and an op row per quad, under its own label or the batch's |
| `PebbleStore.AppendRemoves` | internal/pebbleq/store.go:362-374 | the remove loop: four Deletes and an op row per quad, under its own label, sequence numbers continuing modulo 2^32 |
| `PebbleStore.BuildBatch` | internal/pebbleq/store.go:319-385 | the assembled write batch, applied, is the commit |
| `PebbleStore.Writer.Commit` | internal/pebbleq/store.go:283-389 | succeeds exactly for an open writer and an acceptable batch, and then applies the commit: the quads afterwards are those before and those given, under their own label or the batch's, less those removed; otherwise no key changes and the error names a fault the batch has |
| `PebbleStore.Store.RebuildLabelCounters` | internal/pebbleq/labelcount.go:167-213 | fails only on a closed store; otherwise both phases in turn, with no other writer between them, are the recount |
| `PebbleStore.Store.ScanLabels` | internal/pebbleq/labelcount.go:172-198 | the first phase: the labels of the label keyspace, counted in one scan |
| `PebbleStore.Store.ReplaceCounters` | internal/pebbleq/labelcount.go:199-213 | the second phase: one batch replaces the counter keyspace by the counts given, on whatever the store then holds |
| `PebbleBulk.BulkLoader.Add` | internal/pebbleq/store.go:650-675 | buffers every valid quad, as given under its own label or the default, without checking its label; a full buffer is loaded whole, a refused quad changes nothing |
| `PebbleBulk.BulkLoader.Flush` | internal/pebbleq/store.go:678-701 | loads exactly what is buffered and empties the buffer |
| `PebbleBulk.BulkLoader.Close` | internal/pebbleq/store.go:705-717 | loads what is buffered once; a second close does nothing |
| `PebbleBulk.OpenBulkLoader` | internal/pebbleq/store.go:627-640 | refuses exactly an invalid default label; the buffer holds 500 quads |
| `PebbleBulk.BufferedLoad` | internal/pebbleq/store.go:650-717 | added quads come to the same store whether flushed now or later |
| `PebbleBulk.MigrateToPebble` | pebble_store.go:398-424 | at any batch size the store is loaded with exactly the quads before the first invalid one, and the loader is closed on every path |
| `PebbleBulk.MigrationDriftFree` | pebble_store.go:398-424 | distinct quads migrated into a store without quads or counts leave every counter exact |
| `PebbleReader.Reader.Bounds` | internal/pebbleq/store.go:486-540 | the chosen keyspace and scan bounds for each pattern shape |
| `PebbleReader.ScannedQuads` | internal/pebbleq/store.go:486-540 | the quads scanned are those that agree in the first bound field and in the bound fields that follow it in its keyspace; all of them if none is bound |
| `PebbleReader.Reader.Find` | internal/pebbleq/store.go:484-569 | the consumer gets the hits of the scan in key order up to where it stops |
| `PebbleReader.FindExact` | internal/pebbleq/store.go:484-569 | for every pattern the scan yields exactly the filter of the stored set, each quad once, in byte order of the chosen keyspace |
| `PebbleReader.FoundFieldsNarrow` | internal/pebbleq/store.go:545-560 | an unbound scan finds every stored quad, and binding any field narrows what is found by exactly that field, whichever keyspace is then read |
| `Consumers.TakenIs` | internal/pebbleq/store.go:541-568 | a consumer gets the stream up to its first stop, all of it if it never stops |
| `PebbleReader.Reader.ReadLabelCount` | internal/pebbleq/labelcount.go:109-119 | a missing counter reads 0, an ill-formed one is an error, any other its value |
| `PebbleReader.Reader.Count` | internal/pebbleq/store.go:579-591 | a label-only pattern is answered by the counter, any other by a counted scan: always the number of matches unless the label alone is bound, and then exactly if its counter is the number of its quads |
| `PebbleReader.LabelOnlyFilter` | internal/pebbleq/store.go:579-591 | a pattern that binds the label and nothing else matches exactly the quads of that label |
| `PebbleReader.CountIsScan` | internal/pebbleq/store.go:571-591 | in every reachable state the O(1) count of a label is the number of quads a scan for it yields exactly if the counter has drifted by a multiple of 2^64 |
| `PebbleStats.GroupRange` | internal/pebbleq/store.go:745-776 | one first field's keys are exactly one key range |
| `PebbleStats.JumpExact` | internal/pebbleq/store.go:745-776 | each jump skips that group's keys and no other, and moves forward |
| `PebbleStats.LabelCounts` | internal/pebbleq/store.go:730-779 | the skip scan reports exactly the labels in the store at its start, each with its keys in the store its own sub-scan met; with nothing written meanwhile, the tally of every key |
| `PebbleStats.LabelCountsTrue` | internal/pebbleq/store.go:730-779 | the labels in a store are those of its quads, and a label's keys there are its quads, none if all were removed since |
| `PebbleStats.Stats` | internal/pebbleq/store.go:786-833 | counts all keys of one keyspace and then, by jumps, the distinct first fields of another, in whatever the store holds by then |
| `PebbleStats.StatsTrue` | internal/pebbleq/store.go:786-833 | in any one state these are the number of quads and the set of distinct predicates |
| `PebbleStats.CommitStatsAt` | internal/pebbleq/store.go:848-919 | counts the commits and those the cutoff makes old, then the ops of whatever the store holds by then and those of the commits found old |
| `PebbleStats.CommitStatsTrue` | internal/pebbleq/store.go:848-919 | for every cutoff these are the counts of the abstract logs at the two walks; commits made between the walks do not change the old ones |
| `Replay.RunKeepsRows` | internal/pebbleq/store.go:319-374 | any later state of any run keeps the op rows of every commit made before, as those counts need |
| `History.RunRepresents` | internal/pebbleq/store.go:283-389 | after any run of commits, flushes, table ingests, delta merges and counter replacements, however interleaved, the four keyspaces encode the plain-set replay, and the audit rows its log |
| `History.CounterIsCountPlusDrift` | internal/pebbleq/labelcount.go:7-31 | in every state reachable by store operations, the halves of ingests and rebuilds included, a counter is the true count plus redundant adds, minus absent removes, plus the empty-label correction, minus ingested tables whose deltas are still to come, modulo 2^64; a rebuild leaves the change of the count since its scan as the gap |
| `History.CountExactIffNoDrift` | internal/pebbleq/store.go:571-591 | the O(1) count is the true count exactly if the drift is a multiple of 2^64 |
| `History.RebuildExactIff` | internal/pebbleq/labelcount.go:158-213 | a rebuild leaves the count its scan saw, so it is exact exactly if the label has as many quads when its batch lands |
| `History.CleanRunsDoNotDrift` | internal/pebbleq/labelcount.go:7-31 | runs that add only new quads, remove only present, labelled ones and let nothing between the halves of an ingest never drift, but for the ingest under way |
| `History.ChargedRemoves` | internal/pebbleq/labelcount.go:134-137 | a removal with an empty label is charged to the batch label: the exact difference from the labels actually deleted |
| `Interleaving.SplitIngest` | internal/pebbleq/ingest_sorted.go:182-204 | an ingest with any commits, flushes and ingests of others between its tables and its deltas leaves the key map of an undivided one |
| `Interleaving.CountersInAnyOrder` | internal/pebbleq/labelcount.go:7-31 | any permutation of commits, flushes and ingests leaves every counter the same: concurrent writers lose no delta |
| `Interleaving.AddedTwiceDrifts` | internal/pebbleq/store.go:343-361 | one labelled quad committed twice: counter 2, quads 1 |
| `Interleaving.AbsentRemoveDrifts` | internal/pebbleq/store.go:362-374 | an absent quad removed: counter -1, quads 0 |
| `Interleaving.UnlabelledRemoveDrifts` | internal/pebbleq/labelcount.go:134-137 | a present unlabelled quad removed in a labelled batch: the batch label's counter is -1, its quads 0 |
| `Interleaving.LoadDuringRebuildDrifts` | internal/pebbleq/labelcount.go:163-213 | a load between a rebuild's scan and its batch: counter 0, quads 1 |
| `Interleaving.RebuildDuringIngestDrifts` | internal/pebbleq/ingest_sorted.go:182-204 | a rebuild between an ingest's tables and its deltas: counter 2, quads 1 |
| `IngestSorted.SortKeys` | internal/pebbleq/ingest_sorted.go:235-239 | sorts a key array in place |
| `IngestSorted.DedupSorted` | internal/pebbleq/ingest_sorted.go:244-258 | overwrites the front of its own array with the keys, runs of equals cut to one, and counts the rest |
| `IngestSorted.DedupStrict` | internal/pebbleq/ingest_sorted.go:244-258 | of a sorted list that is strictly increasing with the same elements and the same last one |
| `IngestSorted.FillKeys` | internal/pebbleq/ingest_sorted.go:102-123 | one pass fills four key arrays and the label deltas |
| `IngestSorted.FourTablesIngest` | internal/pebbleq/ingest_sorted.go:145-191 | the four tables can be ingested together and hold exactly the set's keys |
| `IngestSorted.BuildTables` | internal/pebbleq/ingest_sorted.go:102-145 | four sorted, deduplicated tables of the set's keys; the first one's length and its duplicates sum to the input |
| `IngestSorted.HandOver` | internal/pebbleq/ingest_sorted.go:182-188 | the first store operation of an ingest: the tables land together as the set's keys |
| `IngestSorted.MergeCounts` | internal/pebbleq/ingest_sorted.go:190-204 | the second: the deltas merged in one batch, none if there are none |
| `IngestSorted.IngestTables` | internal/pebbleq/ingest_sorted.go:182-204 | with no other writer between them, tables then delta merges leave the store as one load of the quads |
| `IngestSorted.Ingest` | internal/pebbleq/ingest_sorted.go:78-205 | for arbitrary fields succeeds exactly on an open store and acceptable input, with the contents, ingested and duplicate counts of the specification, which counts SPO keys; without NULs the store gains exactly the quads given and counts them; a rejected input leaves it unchanged and the error names a fault it has |
| `IngestSorted.IngestionCounts` | internal/pebbleq/ingest_sorted.go:158-161 | without NULs an ingest adds exactly the quads given, each as given under its own label or the default, and counts the distinct ones and the rest |
| `IngestSorted.IngestOkMeans` | internal/pebbleq/ingest_sorted.go:83-100 | an input is accepted exactly if every label in it is good and no quad lacks subject, predicate or object |
| `RunFile.WriteRunFile` | internal/pebbleq/ingest_sorted_external.go:255-287 | writes the records, refusing exactly a key as long as the end marker |
| `RunFile.RunLayout` | internal/pebbleq/ingest_sorted_external.go:251-287 | a run file byte by byte: each key behind its length in four little-endian bytes, then four bytes 255 |
| `RunFile.ParseWritten` | internal/pebbleq/ingest_sorted_external.go:251-332 | a written file reads back to exactly its keys, then its end, never an error |
| `RunFile.ParseTruncated` | internal/pebbleq/ingest_sorted_external.go:311-332 | any strictly truncated file gives a prefix of the keys and then an error, never the end |
| `RunFile.RunReader.Advance` | internal/pebbleq/ingest_sorted_external.go:311-332 | an advance moves to the next key; at the end or after an error it stays |
| `RunFile.RunReader.Live` | internal/pebbleq/ingest_sorted_external.go:290-332 | a reader neither ended nor failed shows the first key left |
| `RunHeap.Heap.Up` | internal/pebbleq/ingest_sorted_external.go:420-434 | sifting up restores heap order and keeps the readers |
| `RunHeap.Heap.Down` | internal/pebbleq/ingest_sorted_external.go:420-434 | sifting down restores heap order on the first n slots and keeps the rest |
| `RunHeap.Heap.Push` | internal/pebbleq/ingest_sorted_external.go:425-427 | adds one reader and keeps heap order |
| `RunHeap.Heap.Pop` | internal/pebbleq/ingest_sorted_external.go:428-434 | removes one reader of least key and keeps heap order |
| `RunHeap.HeapMinimum` | internal/pebbleq/ingest_sorted_external.go:420-434 | the root of a heap is least of all |
| `RunMerge.MergeStep` | internal/pebbleq/ingest_sorted_external.go:382-397 | taking the least head either repeats the last key emitted or extends the strictly increasing output; the runs' keys and counts are conserved |
| `RunMerge.Emit` | internal/pebbleq/ingest_sorted_external.go:383-395 | a popped key is emitted, or counted as a duplicate of the last; the table never refuses it |
| `RunMerge.Refill` | internal/pebbleq/ingest_sorted_external.go:396-405 | the popped reader advances and is pushed back unless ended; a failed one ends the merge |
| `RunMerge.MergeNext` | internal/pebbleq/ingest_sorted_external.go:382-405 | one turn of the merge loop keeps its state: readers and heap in step, output strictly increasing, keys conserved; fewer are left |
| `RunMerge.MergeRuns` | internal/pebbleq/ingest_sorted_external.go:347-417 | with sorted runs, empty ones and repeats allowed, it succeeds exactly if every file ends cleanly; then the output is strictly increasing, is the union of the runs, and emitted plus deduplicated is the number of keys read |
| `IngestExternal.RunsHoldNext` | internal/pebbleq/ingest_sorted_external.go:119-170 | one more chunk's sorted run keeps the runs holding exactly the keys of the quads done |
| `IngestExternal.HeldFit` | internal/pebbleq/ingest_sorted_external.go:255-287 | a chunk's keys all fit a run file exactly if the quads' fields are short enough, in every keyspace alike |
| `IngestExternal.AllFitMeans` | internal/pebbleq/ingest_sorted_external.go:255-287 | every key fits exactly if each quad's fields, with its own label or the default, come to less than 2^32-5 bytes |
| `IngestExternal.Spill.FlushChunk` | internal/pebbleq/ingest_sorted_external.go:119-170 | writes one run per keyspace and counts the labels, or fails exactly on a bad label or an oversized key |
| `IngestExternal.ReadChunks` | internal/pebbleq/ingest_sorted_external.go:172-195 | every chunk full but the last: all quads spilled, or the input refused |
| `IngestExternal.RunCountCeiling` | internal/pebbleq/ingest_sorted_external.go:172-195 | the runs of a keyspace have room for the input, and one less would not |
| `IngestExternal.MergeKeyspace` | internal/pebbleq/ingest_sorted_external.go:206-226 | merging a keyspace's runs gives its table and drops inputs minus distinct keys; without NULs that is inputs minus distinct quads, the same in every keyspace |
| `IngestExternal.MergeAll` | internal/pebbleq/ingest_sorted_external.go:206-226 | the four merged tables are those of the in-memory ingest's set, with its duplicate count |
| `IngestExternal.IngestExternal` | internal/pebbleq/ingest_sorted_external.go:82-247 | for every chunk size, 500000 if none is given, and arbitrary fields it succeeds exactly when the in-memory ingest does and every quad's fields are short enough, and ends in the same contents, counters, ingested and duplicate totals; without NULs the store gains exactly the quads given; a failure leaves it unchanged and the error names a fault the input has |
| `Replay.RowsReadBack` | internal/pebbleq/store.go:419-458 | the op rows under a commit's key prefix are exactly its logged rows, in sequence order |
| `Replay.CommitsReadBack` | internal/pebbleq/store.go:319-340 | scanning the commit rows gives back every commit: its id, time, label and metadata |
| `Replay.CommitReadBack` | internal/pebbleq/store.go:319-374 | after an audited commit the key map gives back its time, label and metadata beside the commits made before, and as its ops the adds as they were stored and the removes as given |
| `Replay.UnauditedReadBack` | internal/pebbleq/store.go:319-374 | after an unaudited commit it gives back what it gave before |
| `Replay.ReplayRebuilds` | internal/pebbleq/store.go:319-374 | when every write is audited, replaying the rows read back, commit by commit in order, rebuilds the current quads |
| `Replay.ReplayFromKeys` | internal/pebbleq/store.go:319-374 | with ids ascending in commit order, scanning the commit keys gives that order, so the key map alone suffices |
| `Backends.BackendsAgree` | writer.go:158-293 | over any sequence of commits both backends hold the same quads, the same commits and each commit's ops in the same order |
| `Backends.SameOpsRead` | internal/pebbleq/store.go:283-389 | the ops read back from the Pebble key map are the rows of the SQLite op table |
| `Backends.SameCommitsRead` | internal/pebbleq/store.go:319-340 | the commits read back from the Pebble key map are those of the SQLite commits table, times, labels and metadata included |
| `Backends.CommitBoth` | writer.go:158-293 | one batch given to both writers: both accept it or both refuse it, and the stores stay in step |
| `Backends.TableReplays` | writer.go:221-290 | replaying the op table in order rebuilds the quads of any audited, unpruned sequence of commits |
| `Partitioned.SinglePartition` | partitioned.go:227-240 | with one partition every label goes to it, whatever the router says |
| `Partitioned.Open` | quadstore.go:79-99 | a single-file store: one partition, free, to which every label goes |
| `Partitioned.RoutedByName` | partitioned.go:227-240 | a label is written to the partition its router names, and to the default if it names none or an unknown one |
| `Partitioned.ConnByName` | writer.go:116-131 | a handle asked for by name is on the partition so named, on the default for no name, and refused for any other |
| `Partitioned.DefaultConn` | writer.go:116-131 | the default handle is on the partition that unrouted labels are written to |
| `Partitioned.PatternByName` | partitioned.go:253-272 | a pattern is scoped to the partition the pattern router names, or else to that of its bound label, or else not at all |
| `Partitioned.StrictTargetAgrees` | migrate.go:202-209 | where migration accepts a label it agrees with the write path; it refuses exactly the unknown names, which writes send to the default |
| `Partitioned.PatternScopeSound` | partitioned.go:253-272 | a read scoped to one partition goes where all the pattern's matches are written |
| `Partitioned.PlacedAt` | partitioned.go:227-240 | a placed quad is in the store exactly if it is in its own partition |
| `Partitioned.RoutedUpdate` | writer.go:267-290 | routed adds and removes in one file keep the placement and change the whole store as they would one plain set |
| `Partitioned.Store.Add` | quadstore.go:115-125 | inserts a valid quad in the partition of its own label |
| `Partitioned.Store.Delete` | quadstore.go:181-188 | deletes only from the partition the label routes to |
| `Partitioned.Store.PartForQuads` | quadstore.go:167-178 | finds the one partition of all the quads, or refuses |
| `Partitioned.Store.AddBatch` | quadstore.go:131-162 | all quads in one partition and valid, and then the store gains exactly those and no audit row changes; or nothing is written |
| `Partitioned.OpenPartitioned` | partitioned.go:134-192 | accepts exactly a good configuration, reports the first fault in the order of the checks, and builds the partitions in order |
| `Partitioned.ConfigOkMeans` | partitioned.go:134-192 | a configuration is good exactly if it has a label router and partitions, all names non-empty and different, one of them the default |
| `Partitioned.TakeSlot` | writer.go:108-113 | a slot is got only if free or freed while the call waits, and then unless the context is done; otherwise its holder keeps it |
| `PartitionedWriter.WriterFor` | writer.go:103-131 | takes the named partition's slot if free or freed while it waits, and no other; otherwise ends with the context, and an unknown name is refused |
| `PartitionedWriter.Writer.Close` | writer.go:140-147 | frees the slot once; a later close frees nothing |
| `PartitionedWriter.Writer.Validate` | writer.go:166-200 | rejects exactly what is invalid or routed to another partition, with an error that names a fault the batch has |
| `PartitionedWriter.CommitFitsMeans` | writer.go:172-219 | a batch fits exactly if it is accepted and every label it writes or removes under is written to the partition |
| `PartitionedWriter.Writer.Commit` | writer.go:158-293 | succeeds exactly for an open writer and a fitting batch; then the file has the quads it had and those given, less those removed, and the commit's time, label and metadata; a refused batch writes nothing and the error names a fault it has |
| `PartitionedWriter.CommitFileData` | writer.go:221-290 | the quads given go in under their own label or the batch's, those removed go out, and an audited commit has its row |
| `PartitionedWriter.CommitFileOps` | writer.go:221-290 | an audited commit appends to the op table its adds as they are stored, then its removes as given; the rows before stay |
| `PartitionedWriter.RunBatch` | writer.go:221-290 | the transaction's loops have the effect of the batch on quads, commits and ops |
| `PartitionedWriter.Writer.PruneOps` | writer.go:303-325 | deletes the op rows of exactly the commits with a time before the cutoff, and says how many; quads, commits and the other rows stay |
| `PartitionedWriter.PrunedRows` | writer.go:312-316 | a commit with a time before the cutoff loses all its op rows, any other none |
| `PartitionedBulk.BulkLoader.Add` | bulk.go:146-171 | takes exactly a valid quad of the loader's partition while open and not failed, and buffers it as given under its own label or the default, 500 to a flush; otherwise nothing changes and the error is that of the first check it fails |
| `PartitionedBulk.BulkLoader.TakesMeans` | bulk.go:146-165 | an open loader without a failure takes a quad exactly if it has subject, predicate and object and its own label or the default is written to the loader's partition |
| `PartitionedBulk.BulkLoader.Flush` | bulk.go:175-190 | moves the buffer to the file, or fails, keeps the buffer and sticks |
| `PartitionedBulk.BulkLoader.FlushBuf` | bulk.go:293-320 | file and buffer together are conserved, and Added grows by the new rows only |
| `PartitionedBulk.BulkLoader.Close` | bulk.go:199-219 | flushes once more even after a failure, then frees the slot; later calls do nothing |
| `PartitionedBulk.BulkLoaderFor` | bulk.go:79-101 | takes the named partition's slot if free or freed while it waits, and no other; otherwise ends with the context, and an unknown name is refused |
| `PartitionedBulk.BulkLoaderWithLabel` | bulk.go:111-138 | waits for the slot of the partition its default label routes to and is bound to it; refuses exactly an invalid label |
| `PartitionedRuns.StepPlaced` | writer.go:172-200 | every write that passes its checks keeps the placement and acts on the whole store as on one set |
| `PartitionedRuns.RunPlaced` | partitioned.go:223-240 | in every state reached from empty partitions each quad is only where its label routes, and all partitions together hold the plain-set replay |
| `PartitionedRuns.OneFileRun` | partitioned.go:121-128 | every run a partitioned store admits is admitted by a single file, with the same contents after it |
| `PartitionedReader.Reader.Find` | reader.go:33-63 | the consumer takes a prefix of the rows of the partitions in scope, one partition after the other |
| `PartitionedReader.Reader.Count` | reader.go:67-79 | the sum of the matches over the partitions in scope |
| `PartitionedReader.ScopeByName` | quadstore.go:414-419 | a read touches the one partition its pattern is scoped to by name, or else all of them in order |
| `PartitionedReader.ScopedExactIff` | reader.go:28-32 | reading one partition is exact exactly if every match in the store is written there |
| `PartitionedReader.ReadExact` | reader.go:33-79 | with quads placed and a sound pattern router, Find yields exactly the filter of the whole store, each quad once, and Count does not double count |
| `PartitionedRuns.SameAsOneFile` | partitioned.go:121-128 | with a sound pattern router the contents after it, and every Find and Count, are those of that single file |
| `PartitionedRuns.AuditAsOneFile` | writer.go:221-290 | without prunes each commit's row and ops are those of the single file, all in the partition it was written through and none in another |
| `PartitionedRuns.CallableIff` | writer.go:172-200 | of the calls a single file accepts, a partitioned store accepts through some handle exactly those whose quads fit one partition |
| `PartitionedMigrate.OpenLoaders` | migrate.go:99-115 | takes every slot, in partition order, waiting for those taken; if one is not freed, the loaders opened before it are closed and the store is as it was found, but for slots freed by their holders |
| `PartitionedMigrate.CloseOpened` | migrate.go:99-105 | closing the loaders opened so far leaves every file as it was found and takes no slot from a holder |
| `PartitionedMigrate.LoadRow` | migrate.go:202-212 | a row goes to the loader of its strict target; it is refused exactly if invalid or of unknown target |
| `PartitionedMigrate.StreamQuads` | migrate.go:185-229 | all rows loaded and counted under their partitions, or some of them and an error |
| `PartitionedMigrate.CopyQuads` | migrate.go:127-170 | every source table streamed and flushed; QuadsCopied is the rows read and the sum of PerPartition |
| `PartitionedMigrate.CountsDistinct` | migrate.go:127-170 | if no quad is in two source files the quads reported are the distinct ones, in all and by partition |
| `MigrateAudit.GroupCommits` | migrate.go:270-284 | commits grouped by target without loss or repeat, and each id's target noted |
| `MigrateAudit.InsertGroup` | migrate.go:291-319 | one partition's commits inserted, rows already there kept; an unknown target meets no connection |
| `MigrateAudit.RouteOps` | migrate.go:341-396 | each op follows its commit, in table order; ops without a commit are skipped |
| `MigrateAudit.CopyAudit` | migrate.go:238-411 | succeeds exactly if every commit's label routes to a known name; then each file has its routed commits and ops, and no quad changes on any path |
| `MigrateAudit.OpsConserved` | migrate.go:341-411 | the ops reported copied are as many as the op rows the destination gains |
| `PartitionedMigrate.Migrate` | migrate.go:84-181 | succeeds exactly if the destination is partitioned, every slot is free or freed and every quad, and with audit every commit, routes to a known name; leaves the specified files, in which a placed destination has gained exactly the source's quads and stays placed, correct totals and all slots free; a failure leaves only routed source quads, and none if a slot was not freed, and the error names its cause |
| `Migration.MigrationConserves` | migrate.go:70-83 | the destination gains exactly the source's quads and stays placed |
| `Migration.RoutableMeans` | migrate.go:202-209 | a source can be migrated exactly if no quad lacks a field it needs and every label's route is a known name or none |
| `Migration.MigrationIntoEmpty` | migrate.go:70-83 | into empty partitions the union of the destination is the union of the source, each quad in its routed partition |
| `Migration.CopiedCommit` | migrate.go:291-396 | what any partition holds of a commit after copying: rows already there win, then the first source file whose label routes there; ops of every file that routes there, in order |
| `Migration.FirstRowWins` | migrate.go:291-319 | of several source files the first that sends a commit to a partition gives its row |
| `Migration.OnePartitionIff` | migrate.go:231-237 | into any destination a commit ends in one partition exactly if the destination had it in at most one, the source files that have it agree on where its label routes, and that is where the destination had it |
| `Migration.OnePartitionFromEmpty` | migrate.go:231-237 | into empty partitions, exactly if those source files agree |
| `Migration.AuditInOnePartition` | migrate.go:231-237 | then its target partition has the commit and gains all its ops, in order, and no other partition has it or gains any |
| `Migration.TwoRoutersIff` | migrate.go:76-78 | a second run into the same destination under another router leaves a commit in one partition exactly if both routers send it to the same one |
| `Migration.SecondRouterSplits` | migrate.go:231-237 | two routers, one source commit: after the second run it is in both partitions |
| `Migration.MigrateAgain` | migrate.go:76-78 | whatever the source, a second run adds no quad and no commit, but appends every copied commit's op rows again |
| `SlotProtocol.SlotsOwned` | writer.go:103-147 | in every interleaving of asking, acquiring, cancelling and closing, a slot is full exactly while some handle holds it or is about to release it, and never two of them |
| `SlotProtocol.OthersKeepTheirSlots` | bulk.go:199-219 | no step of one handle, a repeated close included, takes a slot another owns |
| `SlotProtocol.ReleaseNeverBlocks` | writer.go:140-147 | freeing the slot of a handle being closed never waits |
| `SlotProtocol.SomeoneAdvances` | migrate.go:99-122 | while any migration, writer or loader is unfinished some process can advance, without any cancellation |
| `SlotProtocol.RunsEnd` | migrate.go:99-122 | every run is at most as long as the work at its start |
| `SlotProtocol.StuckMeansFinished` | migrate.go:99-122 | so a run that cannot go on has finished every process and left every slot empty: no deadlock |
| `Greedy.CountNew` | cmd/ingest-index/greedy.go:81-86 | the inner loop counts the pages not yet covered |
| `Greedy.BestEntry` | cmd/ingest-index/greedy.go:77-91 | finds an entry of most new pages, in any map order |
| `Greedy.GreedyReduce` | cmd/ingest-index/greedy.go:57-110 | under any tie-breaking every selection is a best one, the steps report gain and coverage, no entry is selected twice, and it stops only with every page covered |
| `Greedy.GainsNonIncreasing` | cmd/ingest-index/greedy.go:76-110 | gains are positive and never grow |
| `Greedy.GainsSum` | cmd/ingest-index/greedy.go:76-110 | the gains so far sum to the pages covered |
| `Greedy.StepBound` | cmd/ingest-index/greedy.go:10-18 | for any cover of k entries, uncovered after times k is at most uncovered before times k-1 |
| `Greedy.CoverageBound` | cmd/ingest-index/greedy.go:10-18 | hence uncovered after t selections times k^t is at most the pages times (k-1)^t |
| `Clusters.UnionFind.Find` | cmd/observe/cluster.go:165-173 | terminates, returns the root, and changes no root though it rewrites parents |
| `Clusters.UnionFind.Union` | cmd/observe/cluster.go:174-179 | joins two components and no others, staying acyclic |
| `Clusters.JoinRepresents` | cmd/observe/cluster.go:174-185 | joining the ends of an edge represents exactly the graph with that edge |
| `Clusters.SameRepIffConnected` | cmd/observe/cluster.go:161-185 | same root exactly if connected by pairs at or above the threshold |
| `Clusters.EdgesAre` | cmd/observe/cluster.go:180-185 | the graph has an edge for exactly the pairs of similarity 0.20 or more |
| `Clusters.ConnectedLeast` | cmd/observe/cluster.go:161-185 | being connected is the least equivalence that holds of the edges |
| `Clusters.JoinPairs` | cmd/observe/cluster.go:161-185 | after the pair loop the roots represent the threshold graph |
| `Clusters.ClusterPages` | cmd/observe/cluster.go:161-192 | the clusters are exactly the connected components: every page is in one, as often as it was given, and two pages share one exactly if connected |

## Left out

- Pebble, SQLite and file-system internals (write-ahead logs, compaction, fsync, PRAGMAs, index dropping, VACUUM, checkpoints, temporary files and their names): only the abstract map, table and file contracts are used.
- Failures of the disk and the database, other than the outcome of a SQLite bulk insert, which is a parameter.
- Contexts in the sequential methods, other than in the calls that take a slot. A wait for a slot is one step there, told whether the holder frees it; the steps of all handles, interleaved, are in `SlotProtocol`.
- `sort.Slice` and `sort.Ints` are used by their contracts.
- SQL text, schema migration, JSON, and UUID generation: queries are modelled by their meaning.
- Statistics of bytes written and durations, and progress callbacks.
- `OnlySince` in `Migrate`, `MigrateFromSnapshot`, and the channel wrapper around the external ingest.
- Two partitions naming the same file.
- The SQLite store's `LabelCounts`, `Stats`, `CommitStatsAt`, `Match` iterator and path traversal: they would add only easier members.
- Similarity scores and the pages' texts: `ClusterPages` takes the scored pairs as given, as real numbers.
- The report printing of both commands, including coverage percentages and the singleton filter.
- LabelCount.ApplyLabelDeltas: deltas are mathematical integers before they are encoded; `DeltasInRange` shows that 64-bit ones would not wrap below 2^63 rows.
- PartitionedMigrate.Migrate: source and destination share no file; what other handles write while it waits for their slots is taken as written before it starts; database failures during it are left out.
