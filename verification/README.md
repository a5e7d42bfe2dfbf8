# BenoStreamDB verification models

This project models the parts of BenoStreamDB whose correctness depends on more than one step: the resumable
data pipelines that fill a demo database, the manifest commits of the engine, the lineage check that guards
indexes, the SQL expression printer, and the benchmark tooling that decides what may go into a report. It proves
what holds over every run of those parts: crashes, restarts, retries, interleavings, any batching of the input.
Where the code does not always do what its comments or documentation promise, the model keeps the code's
behaviour and the theorems state exactly when the promise holds.

`dafny verify dfyconfig.toml` checks everything.

## How the project is organised

| files | what they model |
|---|---|
| `EmbedStage`, `PartFiles`, `ShardNames`, `LoadStreams`, `LoadStage`, `DemoLoad`, `DemoPipeline`, `DemoHistory` | the demo pipeline: embedding into shards, directories with missing numbers, the order names sort in, zipping shards with nodes, chunked loading with retry and restart, loading and removing shards, and whole histories of both stages |
| `TierEmbed`, `Sections` | the three-tier pipeline: row numbers, resumable parts, section ids |
| `EdgeResolve` | resolving edge endpoints through the title map |
| `Download` | resumable downloads of dump files |
| `Snapshots`, `CommitProtocol`, `TableRows` | manifest snapshots, concurrent commits with vacuum, and the rows of a table under them |
| `Lineage` | the check that accepts or refuses an index file |
| `SqlExpr`, `SqlText`, `OneOrMany` | printing SQL expressions and lists, from words to text, and the owned iterator |
| `TableSorter`, `Ledger`, `Sweep` | the report's table sorter, the session ledger, the benchmark sweep |
| `Seqs`, `Multiples`, `Strings`, `Sorting`, `Dedup` | shared vocabulary |

Every stateful part is an imperative method or a class whose contract ties the new state to a specification
function; the theorems over all runs are lemmas about those functions. Crashes are inputs: a run's fate says after
how many batches it stops, and a history is a sequence of runs, each started on what the previous one left.

## What turned out not to hold, and exactly when it does

- A load chunk that is retried in place repeats the rows its first attempt had already committed. The table stays a
  prefix of the source exactly when in every retry one of the two attempts committed nothing
  (`LoadStage.HistoryIsPrefixIff`), and a restart after a harmful retry skips source rows and finishes all the same
  (`LoadStage.RestartAfterRetryLosesRows`).
- Shards are removed one file at a time, in the order of a directory listing. A kill in between leaves any subset, and a
  later start that clears the table reads what is left from row 0: nodes get other nodes' vectors
  (`DemoLoad.RebuildTakesOtherVectors`), or none at all once every shard is gone (`DemoLoad.RebuildLosesVectors`). What is
  read is right if and only if the remaining shards are the first numbers (`DemoHistory.StreamRightIff`).
- An embed rerun counts the remaining files and rows, so it never fills the first missing number
  (`EmbedStage.GapStays`) and may write other rows over a valid shard (`EmbedStage.RerunOverwrites`).
- Over every history of embed runs and load starts, the table is a prefix of the nodes with their own embeddings exactly when
  every retry since it was last cleared was harmless and no start since then went beyond the rows of the shards before
  the first missing number (`DemoHistory.TableRightIff`).
- Node batches and embedding batches stay in step over rows [s, e) exactly when the embedding batches end, strictly inside,
  at the multiples of the loader's batch size (`LoadStreams.ChunkLoadsIff`); over the whole table this means that
  every shard but the last is a whole number of batches (`LoadStreams.WholeLoadIffAligned`), and the default shard
  size meets it.
- Part files sort in number order exactly up to 1000 three-digit or 10000 four-digit numbers
  (`ShardNames.NameOrderIff`). The loader reads shards in name order, so with more than 1000 of them it reads other
  vectors (`DemoPipeline.ReadInOrderIff`).
- Part numbers are counted, not read: a corrupt part that is not the last one makes the next run overwrite a valid part
  (`TierEmbed.NextNumberFreeIff`). That state is not reached by the stage's own crashes.
- Section ids are stable across reruns exactly when no two different joined sections of a page share a start byte and no
  two different header-less articles share a page id (`Sections.StableIdsIff`).
- A `.part` file that already is the whole object can never be finished against a server that honours ranges
  (`Download.WholePartNeverCompletes`), and without a Content-Length a truncated body is renamed into place
  (`Download.CompletedIsWholeIff`).
- A section whose commands touch no matching file is stamped all the same when one is within the five-second tolerance;
  the docstring of `_fresh_artifacts` says otherwise (`Sweep.IdleSectionStampedIff`, `Sweep.OverlapStampsIdleSection`).
- The append-only commit drops inline entries. It makes live what a rewrite would exactly when the inline entries agree
  with the listed ones (`Snapshots.FastAppendExactIff`); after an index import it undoes the import
  (`Snapshots.AppendUndoesImport`), and on a synchronised table without a manifest list it leaves only the new
  files live (`Snapshots.AppendForgetsSynced`).
- A synchronised snapshot retires the other files exactly when the kept manifest list names none of them
  (`Snapshots.SyncRetiresIff`).
- A vacuum reads the head through the version cache. The history that readers see only ever grows exactly when every
  vacuum's second pass sees the newest version, or its first pass kept it, or it was not listed
  (`CommitProtocol.HistoryGrowsIff`). A vacuum that misses it deletes a published version; the next writer publishes the
  number after what is left, which is the lost number if the version before it survived
  (`CommitProtocol.MissedVersionIsLost`, `CommitProtocol.StaleVacuumRun`). The lost version can return exactly when a
  pending call has loaded it or a version made on top of it (`CommitProtocol.MissedVersionReturnsIff`).
- A commit that is reported but never becomes part of the history is more than r versions behind, if no vacuum deletes one of
  the last r versions (`CommitProtocol.LostOnlyIfBehind`), and this bound is tight (`CommitProtocol.BoundIsTight`).
- Attaching indexes to a flushed file after a compaction has replaced it makes the file live again, with its rows
  in two files (`TableRows.AttachAfterCompaction`). A compaction that was planned before a row delete and is published
  after it makes the deleted rows visible again, since delete files drop rows by data file path and the input still is
  live (`TableRows.CompactionAfterDelete`). Every row stays visible in exactly one live file exactly when every call is
  published while what it was planned from still is what is there (`TableRows.RowsConservedIff`,
  `TableRows.RunsConserveIff`); for a compaction this means that its inputs are live and hit by the same deletes
  (`TableRows.CompactionInTimeIff`).
- The lineage check keeps stale indexes out exactly when whatever a version and an index may record tells all different
  data apart, which checksums on both sides do and a missing checksum does not (`Lineage.SafeIff`,
  `Lineage.ChecksumsOrCounts`).
- Printed SQL loses the grouping of operators that are not wrapped in `Nested`, one-element tuples, and the space after
  `ANY` in `ILIKE ANY ... ESCAPE` (`SqlExpr.GroupingIsLost`, `SqlExpr.SingletonsAreLost`, `SqlExpr.AnySwallowed`).

## Model

| member | source | states |
|---|---|---|
| EmbedStage.SkipDropsRows | scripts/prepare_demo.py:272-279 | fast-forwarding over any batching drops exactly the first `skip` rows of the source |
| EmbedStage.WriteAllRows | scripts/prepare_demo.py:289-301 | rotating and writing only moves rows from the source into shards, in order |
| EmbedStage.LeavesPrefix | scripts/prepare_demo.py:272-312 | whatever point a run stops at, the finished shards it leaves hold a prefix of what it was to write |
| EmbedStage.RunKeepsInv | scripts/prepare_demo.py:218-313 | one run on shards of a prefix leaves shards of a prefix, with their size bounds |
| EmbedStage.HistoryKeepsPrefix | scripts/prepare_demo.py:224-313 | over every history of crashes and restarts, with its own batching and shard size in each run, the finished shards concatenate to the embeddings of a prefix of the source, and of all of it once a run completes |
| EmbedStage.RunKeepsShards | scripts/prepare_demo.py:262-312 | where no number is missing, no run renumbers, overwrites or drops a shard already in place |
| EmbedStage.RunWithoutGap | scripts/prepare_demo.py:224-262 | on a directory without missing numbers, counting files and rows continues after the last shard |
| EmbedStage.GapStays | scripts/prepare_demo.py:224-262 | whatever its fate, a run leaves a directory without gaps exactly when it found one, and never writes before a gap |
| EmbedStage.RerunOverwrites | scripts/prepare_demo.py:262-301 | with the first of two shards gone, a run takes the other's rows for the first ones and writes the remaining rows over it |
| EmbedStage.AddedRows | scripts/prepare_demo.py:272-302 | on any directory, a run adds non-empty shards with the embeddings from the counted row on |
| PartFiles.NoGapIff | scripts/prepare_demo.py:224-262 | the counted next number lies beyond every file exactly when no number is missing |
| EmbedStage.UniformWriteAll | scripts/prepare_demo.py:289-301 | with equal batches every closed shard has the rotation size rounded up to a whole number of batches |
| EmbedStage.HistoryKeepsUniform | scripts/prepare_demo.py:261-301 | the same over every crash history of a reader that cuts the source every g rows, if the shard sizes of its runs round up to the same number |
| EmbedStage.EmbedDir.OnDisk | scripts/prepare_demo.py:224-231 | counts the finished shards and their rows, whichever numbers are missing |
| EmbedStage.EmbedDir.Rename | scripts/prepare_demo.py:291 | moves a temporary file to its final name, over whatever has it, and touches no other file |
| EmbedStage.EmbedDir.EmbedBatches | scripts/prepare_demo.py:272-302 | the loop fast-forwards, rotates and writes, and ends in the specified state wherever the run dies |
| EmbedStage.EmbedDir.StageEmbed | scripts/prepare_demo.py:218-313 | on any directory, with missing numbers or without, the directory after a run is what the specification of a run says, whatever its fate |
| LoadStreams.ClippedRows | scripts/prepare_demo.py:399-409 | clipping batches to a row range loses, repeats and reorders nothing |
| LoadStreams.ClipShape | scripts/prepare_demo.py:399-409 | the batch sizes of a clipped stream depend only on the batch sizes of the file |
| LoadStreams.RangedBatches | scripts/prepare_demo.py:399-409 | the generator loop yields the clipped batches |
| LoadStreams.EmbArrays | scripts/prepare_demo.py:415-427 | the shard-by-shard generator yields the clipped batches of the concatenated shards |
| LoadStreams.ZipBatches | scripts/prepare_demo.py:429-440 | the zip loop writes paired batches up to the first short or missing one and reports how it ended |
| LoadStreams.LoadNodesChild | scripts/prepare_demo.py:341-450 | one child process writes what the specification of a chunk says, with vectors or, without shards, without |
| LoadStreams.InStepIffAligned | scripts/prepare_demo.py:399-427 | the two streams have the same batch sizes exactly when the shards are whole numbers of batches |
| LoadStreams.ZipPairsByPosition | scripts/prepare_demo.py:429-440 | however the zip ends, each written node has the vector at its own position |
| LoadStreams.ZipLoadsIff | scripts/prepare_demo.py:429-440 | the zip ends well exactly when the embedding batches start with the node batches' sizes |
| LoadStreams.AlignedChunkLoads | scripts/prepare_demo.py:399-440 | on aligned shards every chunk, from any offset, loads every node with its own vector |
| LoadStreams.ChunkWritesRightRows | scripts/prepare_demo.py:429-440 | on any shards at all, of any total length, a chunk writes a prefix of its range of the rows matched by position, and all of it if it ends well |
| LoadStreams.WholeLoadIffAligned | scripts/prepare_demo.py:341-440 | loading the whole table ends well if and only if the shards are aligned |
| LoadStreams.ChunkLoadsIff | scripts/prepare_demo.py:399-440 | a chunk of any rows [s, e) loads if and only if the embedding batches end, strictly inside, exactly at the multiples of the batch size |
| LoadStage.HistoryIsPrefixIff | scripts/prepare_demo.py:508-550 | over every history of starts, spill commits, crashes, in-place retries and restarts, on a source whose chunks may fail, the table is a prefix of the source exactly when, in every retry since it was last cleared, one of the two attempts committed nothing |
| LoadStage.CleanHistory | scripts/prepare_demo.py:508-550 | with harmless retries every history keeps a prefix, repeated rows in the source or not |
| LoadStage.CleanStart | scripts/prepare_demo.py:508-550 | a start that finishes so has loaded the whole source |
| LoadStage.FinishedIsFull | scripts/prepare_demo.py:514-550 | whatever the retries, a start that finishes, the only one to remove shards, leaves a table that counts every row, so that later starts load nothing unless they clear it |
| LoadStage.MappedStart | scripts/prepare_demo.py:508-550 | the books do not depend on what rows hold, and part of every row is loaded like the whole |
| LoadStage.FinishedLoopRows | scripts/prepare_demo.py:527-548 | a finished loop has loaded its range once plus exactly the rows its failed attempts had committed |
| LoadStage.RepeatBreaksPrefix | scripts/prepare_demo.py:538-547 | a chunk keeps a prefix exactly when it loads at once or one of its attempts commits nothing |
| LoadStage.RestartAfterRetryLosesRows | scripts/prepare_demo.py:453-462 | a restart after a harmful retry skips source rows and finishes, which is when shards are removed |
| LoadStage.SingleProcessNeedsEmptyTable | scripts/prepare_demo.py:495-498 | single-process mode is complete and correct only on an empty table |
| DemoLoad.SourceGives | scripts/prepare_demo.py:415-440 | on shards of any sizes and in any order, every chunk writes a prefix of its range of the rows they give, with the vector at the same position, and all of it if it ends well |
| DemoLoad.VisitRemoves | scripts/prepare_demo.py:449-450 | a start removes a shard exactly when it was not asked to keep the shards, has finished and came to that shard; all others hold what they held |
| DemoLoad.RebuildLosesVectors | scripts/prepare_demo.py:441-445 | a finished load that removes all shards, in any order, followed by a rebuild, leaves every row without a vector |
| DemoLoad.RebuildTakesOtherVectors | scripts/prepare_demo.py:329-338 | a finished load that is killed after removing the first of two shards, followed by a rebuild, gives the first nodes the vectors of the others |
| DemoLoad.NodesTable.DeleteShards | scripts/prepare_demo.py:329-338 | removes files one by one, up to where it is killed |
| DemoLoad.NodesTable.LoadChild | scripts/prepare_demo.py:429-450 | a child appends what its attempt commits, all of its chunk exactly if it survives and the streams are in step; only a child over the whole table removes shards |
| DemoLoad.NodesTable.LoadOneChunk | scripts/prepare_demo.py:527-548 | one iteration of the parent: a chunk, its retry, or the death of both, on any shards |
| DemoLoad.NodesTable.LoadChunks | scripts/prepare_demo.py:527-550 | the parent loop leaves the table, the shards and the outcome the specification says |
| DemoLoad.NodesTable.StageLoad | scripts/prepare_demo.py:500-551 | one start of the parent: count, skip, resume or clear, then loop and remove shards up to where it is killed, but none when asked to keep them or when it does not finish |
| DemoPipeline.EmbeddedShards | scripts/prepare_demo.py:261-301 | a completed embed history leaves all embeddings in order in equal shards but for the last |
| DemoPipeline.ReadInOrderIff | scripts/prepare_demo.py:363 | the loader reads the vectors in order if and only if there are at most 1000 shards, for shards that start differently |
| DemoPipeline.EveryChunkLoads | scripts/prepare_demo.py:399-440 | every chunk of every load pairs each node with its own embedding if the rotation size is a whole number of loader batches and the shards' names sort in order |
| DemoPipeline.LoadsIffShardSizeFits | scripts/prepare_demo.py:261-301 | with two or more shards that condition is exact |
| DemoPipeline.DefaultShardSizeFits | scripts/prepare_demo.py:261 | the default of five million rows meets it |
| DemoHistory.EmbedKeepsSound | scripts/prepare_demo.py:218-313 | a run on what removals and runs have left keeps the shards before the first missing number a prefix of the embeddings, and those after it too late |
| DemoHistory.RemoveAllKeepsSound | scripts/prepare_demo.py:329-338 | so does any sequence of removals |
| DemoHistory.StreamRightIff | scripts/prepare_demo.py:415-427 | what is read from such shards are the first embeddings in order if and only if the shards are those of the first numbers |
| DemoHistory.GivenRightIff | scripts/prepare_demo.py:415-440 | the rows they give are right as far as the shards before the first missing number go, and wrong right after |
| DemoHistory.TableRightIff | scripts/prepare_demo.py:218-551 | end to end: over every history of embed runs and load starts, with any batching and shard size, crashes, retries, chunks out of step and kills between any two removals, the table is a prefix of the nodes with their own embeddings if and only if every retry since it was last cleared was harmless and no start since then went beyond the rows of the shards before the first missing number; for different nodes with different embeddings and three-digit shard numbers |
| DemoHistory.WholeHistoryIff | scripts/prepare_demo.py:500-551 | where no start loads from shards with a missing number or without shards, the retries alone decide |
| DemoHistory.FinishedRightIff | scripts/prepare_demo.py:527-551 | after a start that finishes, the table is all nodes with their embeddings under exactly the same condition |
| ShardNames.NameOrderIff | scripts/prepare_demo.py:363 | sorting zero-padded names gives number order exactly when there are at most ten to the padding of them |
| ShardNames.ReadOrderIff | scripts/prepare_demo.py:363 | sorting the first k names leaves them in number order if and only if the padding is wide enough |
| ShardNames.StreamInOrderIff | scripts/prepare_demo.py:363 | the same for the concatenated contents of files that start differently |
| ShardNames.ShardAndPartNames | scripts/build_three_tier.py:419 | up to 1000 shards and 10000 parts are read in order |
| TierEmbed.AssignTextIds | scripts/build_three_tier.py:336-362 | across row groups of any size, row r gets text_id r |
| TierEmbed.FilterSelectsRest | scripts/build_three_tier.py:459-467 | the pushed-down filter selects exactly the rows not yet embedded, for any batching |
| TierEmbed.RunKeepsInv | scripts/build_three_tier.py:418-512 | one run with any fate keeps parts contiguous and a prefix of the texts |
| TierEmbed.RunKeepsWritten | scripts/build_three_tier.py:484-512 | a run that ends by itself or by an exception keeps every embedding it wrote and no corrupt part; a killed one loses less than a part's worth, into a corrupt part; parts closed by rotation have reached their size |
| TierEmbed.RunLeavesNext | scripts/build_three_tier.py:484-512 | what a dying run leaves at the next part number: what was readable there if it opened nothing; after opening a part a corrupt file if killed, and otherwise an empty one unless the part got rows |
| TierEmbed.CompleteSetStays | scripts/build_three_tier.py:418-435 | a run over a complete set of parts only removes a corrupt one |
| TierEmbed.HistoryKeepsPrefix | scripts/build_three_tier.py:418-512 | after any mix of completions, exceptions and kills, each run with its own batching, the valid parts are contiguous and hold the embeddings of a prefix, and of all texts once some run has completed |
| TierEmbed.NextNumberFreeIff | scripts/build_three_tier.py:422-445 | with one corrupt part the counted next number is free exactly when the corrupt part is the last |
| TierEmbed.PartsDir.Discover | scripts/build_three_tier.py:418-431 | counts valid parts and their rows and removes a corrupt one |
| TierEmbed.PartsDir.WriteBatch | scripts/build_three_tier.py:484-499 | opens a part if needed, writes, and closes it at its size |
| TierEmbed.PartsDir.WriteScan | scripts/build_three_tier.py:467-499 | the embedding loop up to where the run stops |
| TierEmbed.PartsDir.StageEmbed | scripts/build_three_tier.py:395-514 | the directory after a run with any fate shows the disk that the specification of a run says, which `RunKeepsWritten` and `RunLeavesNext` pin down |
| Sections.BuildIsSectionTable | scripts/build_three_tier.py:284-316 | the built table is one of the section tables the stage's joins and sorts allow |
| Sections.StableIds | scripts/build_three_tier.py:311-316 | section ids do not depend on the order of the parsed rows if the sort keys identify the rows |
| Sections.UnstableIds | scripts/build_three_tier.py:311-316 | two different joined rows, or two different header-less articles, with the same keys give two different tables |
| Sections.StableIdsIff | scripts/build_three_tier.py:284-316 | the stage can produce only one table, whatever the order of the parsed rows, if and only if the sort keys identify the joined rows and the header-less articles |
| Sections.UniqueKeysIdentify | scripts/build_three_tier.py:288-315 | unique page ids and unique (page, start byte) pairs are enough for stable ids |
| Sections.RealOrOneSynthetic | scripts/build_three_tier.py:288-316 | every article owns exactly its page's sections and no synthetic one, or exactly one synthetic section |
| Sections.TableHolds | scripts/build_three_tier.py:288-309 | a section table lists parsed sections with their articles, and then sections of level 0 from byte 0 to -1 for articles of pages without a parsed one |
| Sections.TableRises | scripts/build_three_tier.py:311-316 | pages rise in both halves of a section table, and the start bytes of a page rise in the first |
| EdgeResolve.KeptAppend | scripts/prepare_demo.py:186-209 | resolving is independent of where the edge list is split |
| EdgeResolve.ResolveEdges | scripts/prepare_demo.py:186-212 | for any split into chunks the stage writes what resolving the whole list gives, with the counts of the whole list; an edge is written if and only if some raw edge stands for it and neither end is a redirect |
| EdgeResolve.CountsAddUp | scripts/prepare_demo.py:200-211 | kept, unresolved and redirect-dropped edges add up to the input |
| EdgeResolve.JoinsNeverMultiply | scripts/prepare_demo.py:194-195 | with unique titles the two left joins give every edge exactly one row, its own, before the filter |
| EdgeResolve.TitleMapIsUnique | scripts/prepare_demo.py:165 | the title map has one row per title |
| EdgeResolve.ExactTitleWins | scripts/prepare_demo.py:161-165 | a title finds the first live page of exactly that title before any lower-cased variant |
| EdgeResolve.EdgeResolvesTo | scripts/prepare_demo.py:187-204 | an edge becomes the edge between its numeric or looked-up endpoints, if both are positive and different, and otherwise nothing |
| EdgeResolve.KeptEdges | scripts/prepare_demo.py:200-208 | kept edges have positive, different endpoints that are not redirects |
| EdgeResolve.KeptIff | scripts/prepare_demo.py:186-208 | stated on the node list: an edge is kept if and only if some raw edge stands for it and neither end is a redirect |
| EdgeResolve.EndpointMeaning | scripts/prepare_demo.py:187-198 | an endpoint stands for the number it spells, or else for the page whose title is its text with spaces for underscores |
| EdgeResolve.PageMeaning | scripts/prepare_demo.py:161-168 | the title map gives the first live page of exactly that title and, only if there is none, the first of that title up to the case of its first letter |
| EdgeResolve.PairsHold | scripts/prepare_demo.py:194-195 | the two left joins keep every pair of matches |
| Download.AttemptKeepsPrefix | scripts/download_wiki_dumps.py:31-61 | after any answer the partial file is a prefix of the object and `pos` its length |
| Download.AttemptKeepsArrived | scripts/download_wiki_dumps.py:38-59 | a 206 adds all that arrived to what was there, even if the body breaks off; only a 200 starts over; an attempt completes exactly when its body ends in order and with the announced length, if any |
| Download.WholeRequestStartsOver | scripts/download_wiki_dumps.py:38-45 | a request without a range starts the file over, whatever status its response has |
| Download.ResumedCallGrows | scripts/download_wiki_dumps.py:29-68 | unless the server falls back to a 200, the file only grows over a call, and a call that does not complete holds all that arrived |
| Download.CompletedIsWholeIff | scripts/download_wiki_dumps.py:41-59 | a renamed file is the whole object exactly when a length was announced or the body was complete |
| Download.CallsKeepPrefix | scripts/download_wiki_dumps.py:21-69 | over any number of calls and attempts the partial file is a prefix, and with announced lengths a finished file is the object |
| Download.BestReplyCompletesIff | scripts/download_wiki_dumps.py:33-59 | the best server completes the download at once unless the partial file already is the object |
| Download.WholePartNeverCompletes | scripts/download_wiki_dumps.py:27-68 | then no number of attempts finishes it |
| Download.WholePartReachable | scripts/build_three_tier.py:69-109 | that state is reachable |
| Download.Downloader.Try | scripts/download_wiki_dumps.py:30-67 | one turn of the retry loop has the specified effect |
| Download.Downloader.DownloadFile | scripts/download_wiki_dumps.py:21-69 | one call has the specified effect, including the early return for a finished file |
| Snapshots.LoadAllEntries | src/core/manifest/manager/load.rs:238-330 | the live entries are the listed ones overridden by the inline ones; in any arrival order if no path is listed twice |
| Snapshots.ArrivalOrder | src/core/manifest/manager/load.rs:294-299 | manifest files may arrive in any order when no path occurs twice in them |
| Snapshots.RemovePaths | src/core/manifest/manager/commit.rs:103-128 | the removal loop removes exactly the given paths, or refuses when one is gone by its turn |
| Snapshots.MergeEntries | src/core/manifest/manager/commit.rs:158-173 | the merging loop is the specified overlay |
| Snapshots.AddKeepsIndexes | src/core/manifest/manager/commit.rs:158-173 | adding entries never leaves a live path with fewer index files, and leaves other paths alone |
| Snapshots.AddTakes | src/core/manifest/manager/commit.rs:158-173 | an added path has the statistics of its last added entry, and of all its index lists, the live one included, one of the longest |
| Snapshots.AddTakesLast | src/core/manifest/manager/commit.rs:158-173 | the last added entry of a path is taken as it is when no other entry of the path has more index files |
| Snapshots.LastIs | src/core/manifest/manager/load.rs:294-299 | of several entries of a path the last one counts |
| Snapshots.TryCommit | src/core/manifest/manager/commit.rs:67-210 | one pass of the commit loop discards, refuses, appends or rewrites as specified, with delete manifests in the consolidation limit |
| Snapshots.ConsolidatesIff | src/core/manifest/manager/commit.rs:130-156 | a commit of new paths extends the manifest list if it names fewer manifests than the limit, the delete manifest counted, and otherwise writes all entries anew |
| Snapshots.ListStaysShort | src/core/manifest/manager/commit.rs:144-156 | however many commits there are, a manifest list never outgrows the limit by more than one write |
| Snapshots.CommitDeletes | src/core/manifest/manager/commit.rs:175-192 | a commit drops no delete file and lists none twice |
| Snapshots.FastAppendExactIff | src/core/manifest/manager/commit.rs:130-156 | the append-only path makes live what a rewrite would, if and only if the inline entries agree with the list and the added list needs no merging |
| Snapshots.FastAppendOfFilesIff | src/core/manifest/manager/commit.rs:130-156 | for files that are each added once, agreement of the inline entries alone decides |
| Snapshots.CommitPathsIff | src/core/manifest/manager/commit.rs:84-210 | the live paths after a commit are the old ones less the removed plus the added, if and only if a fast append finds every inline path listed |
| Snapshots.CommitOrderFreeIff | src/core/manifest/manager/commit.rs:324-342 | a commit keeps the manifest files free of repeated paths exactly when an appended list has none |
| Snapshots.ImportLoads | src/core/manifest/manager/commit.rs:662-716 | an index import gives each live path the last imported entry of that path, leaves the others as they were, and never brings a removed path back |
| Snapshots.AppendUndoesImport | src/core/manifest/manager/commit.rs:324-342 | a fast append right after an import undoes it |
| Snapshots.SyncRetiresIff | src/core/manifest/manager/commit.rs:777-822 | a synchronised snapshot is exactly the live set if and only if the kept manifest list names no other file |
| Snapshots.SyncKeepsIndexes | src/core/manifest/manager/commit.rs:796-805 | files that survive a synchronisation keep their index files |
| Snapshots.AppendForgetsSynced | src/core/manifest/manager/commit.rs:141-156 | a fast append onto a synchronised table without a manifest list leaves only the appended files live |
| CommitProtocol.RunIsSerial | src/core/manifest/manager/commit.rs:60-658 | for every interleaving of writers, cached reads, conflicts and vacuums, every version ever made is the serial execution of the calls on its line, each taking effect once |
| CommitProtocol.SerialIsRun | src/core/manifest/manager/commit.rs:60-658 | every serial execution is a run |
| CommitProtocol.PutOnIntact | src/core/manifest/manager/commit.rs:579-651 | a write whose number is taken leaves its call unfinished; otherwise it extends the newest version's history or makes a version beside it, exactly according to its base |
| CommitProtocol.FinishedIsSettled | src/core/manifest/manager/commit.rs:591-651 | over every run, a call that has finished has made a version, or has met a version on which there was nothing to do |
| CommitProtocol.ConflictLeavesPending | src/core/manifest/manager/commit.rs:629-647 | a write whose number is taken changes nothing but leaves its call to load again |
| CommitProtocol.RetryPublishes | src/core/manifest/manager/commit.rs:60-651 | after a conflict, a load of the newest version and a write publish the call's change on top of it, if it makes one |
| CommitProtocol.StepGrowsIff | src/core/manifest/manager/commit.rs:1108-1151 | a step keeps or extends the history readers see if and only if it is not a vacuum that misses the newest version |
| CommitProtocol.HistoryGrowsIff | src/core/manifest/manager/commit.rs:994-1151 | over a whole run no newest version is ever taken back if and only if every vacuum sees the newest version of its moment |
| CommitProtocol.SeenLater | src/core/manifest/manager/commit.rs:994-1151 | in such a run every history that readers have seen is a prefix of every later one |
| CommitProtocol.MissedVersionIsLost | src/core/manifest/manager/commit.rs:1134-1151 | a vacuum that misses the newest version loses it: the next writer publishes the number after what is left, which is the lost number exactly if the version before it survived, and the lost call is out of the history |
| CommitProtocol.ReturnsIff | src/core/manifest/manager/commit.rs:579-651 | a version out of the history and not older than it can return, in a run whose loads and vacuums see the newest version, if and only if a pending call has loaded it or a version made on top of it |
| CommitProtocol.MissedVersionReturnsIff | src/core/manifest/manager/commit.rs:579-651 | the same for a version that a vacuum has missed, after the next write |
| CommitProtocol.StaleVacuumRun | src/core/cache.rs:241-246 | such a run from the empty table, with a cached head one version behind |
| CommitProtocol.LostOnlyIfBehind | src/core/manifest/manager/commit.rs:579-651 | if no vacuum, whatever head it has loaded, deletes one of the last r versions of its moment, a reported write that is not in the history is more than r versions behind |
| CommitProtocol.BoundIsTight | src/core/manifest/manager/commit.rs:579-651 | for every r there is such a run with a write just one more than r versions behind |
| CommitProtocol.NoVacuumNothingLost | src/core/manifest/manager/commit.rs:579-651 | without vacuums every version ever made is in the history |
| TableRows.CallKeepsOnceIff | src/core/manifest/manager.rs:70-78 | a published call leaves every row that the table should hold visible in exactly one live file, and no other, if and only if it comes in time: its files lose only rows it planned to drop, it saw all rows of what it replaces, what it copies or drops is still visible there, and it revives nothing |
| TableRows.StepConservesIff | src/core/manifest/manager/commit.rs:84-192 | the same for appends, compactions, merges, row deletes by delete file, index attachments and imports published onto a snapshot |
| TableRows.RowsConservedIff | src/core/compaction.rs:262-290 | over every serial history, each row the table should hold is visible in exactly one live file of every version, and no other row is, if and only if every call is published in time |
| TableRows.RunsConserveIff | src/core/table/merge.rs:119-124 | the same for the line of every version of every run with any interleaving |
| TableRows.CompactionInTimeIff | src/core/compaction.rs:332-337 | a compaction is in time exactly when its inputs show what they showed when it was planned: they are live and the same delete files hit them |
| TableRows.GuardedCallsConserve | src/core/compaction.rs:262-290 | without delete files, appends, imports and compactions, which give up when an input is gone, conserve the rows in every version |
| TableRows.GuardedIff | src/core/manifest/manager/commit.rs:84-128 | a call that removes its inputs is never published where one is missing exactly when its flags make it discard or refuse |
| TableRows.AttachInTimeIff | src/core/table/write.rs:1482-1490 | attaching indexes, or any call that lists files again without new delete files, is in time exactly when every file it lists is live or would show nothing |
| TableRows.RelistingIsConsistent | src/core/manifest/manager/commit.rs:158-173 | a call that lists its inputs again is a possible call whatever rows they have |
| TableRows.AttachAfterCompaction | src/core/table/write.rs:1482-1490 | a run in which an attachment after a compaction makes the replaced file live again beside its replacement |
| TableRows.CompactionAfterDelete | src/core/table/maintenance.rs:342-368 | a run in which a compaction published after a row delete on its input makes the deleted rows visible again |
| Lineage.SegmentConfig.WithDeleteFiles | src/lib.rs:317-330 | keeps, in order, the first delete file of every path and none twice |
| Lineage.SegmentConfig.IsIndexValid | src/lib.rs:367-408 | the three checks decide acceptance |
| Lineage.KnowingMoreAcceptsLess | src/lib.rs:367-408 | a segment that knows more accepts, in the same order, only files the other accepts |
| Lineage.AcceptedFilters | src/lib.rs:367-408 | a segment accepts, in order, exactly the files that pass its checks: none from a later snapshot than its own, and all that record nothing |
| Lineage.AcceptedIff | src/lib.rs:367-408 | in every run an index is accepted exactly when the summaries that it and the version record do not tell their data apart and it is not from a later snapshot |
| Lineage.StaleRun | src/lib.rs:367-408 | data that are not told apart make a stale index accepted after one rewrite |
| Lineage.SafeIff | README.md:307 | where each version and each index records its own choice of summaries, no run ever accepts a stale index exactly when any allowed pair of choices tells all different data apart |
| Lineage.ChecksumsOrCounts | src/lib.rs:368-392 | checksums everywhere suffice; where one may be missing only record counts can tell data apart |
| Lineage.FindIndex | src/core/reader/filter.rs:265-275 | finds the first accepted index of the wanted kind on the column |
| Lineage.IndexOrScan | src/core/reader/filter.rs:265-280 | answering through the first usable lexical index, else the first usable bitmap, else by scanning, equals scanning if the policy is safe; in any policy it is the scan of the data the chosen index was built from, and scanning happens only if no accepted index of those kinds is on the column |
| Dedup.FilterSeen | src/lib.rs:324-328 | filtering with a seen set keeps the first element of every key |
| Dedup.FirstByKeyMeaning | src/lib.rs:321-328 | the result has the same keys, each once, and only elements of the list |
| SqlExpr.RoundTrip | mod_copy.rs:1336-1430 | parsing the printed tokens gives the expression back, for every expression whose compound operands are wrapped, that has no one-element tuple and no ILIKE ANY with an escape |
| SqlExpr.RoundTripInto | mod_copy.rs:1636-1661 | the same for a sub-expression followed by whatever its context prints |
| SqlExpr.CaseTrip | mod_copy.rs:1644-1661 | the same for CASE with optional operand and ELSE |
| SqlExpr.PrintInjective | mod_copy.rs:1336-1771 | two such expressions that print alike are equal |
| SqlExpr.WordsInjective | mod_copy.rs:1336-1771 | two such expressions that print the same words are equal, AND and NOT being one word each |
| SqlText.WordsOfSpaced | mod_copy.rs:1336-1771 | cutting a printed text gives its words back, for any spacing that keeps apart words that would run together |
| SqlText.TextInjective | mod_copy.rs:1336-1771 | two such expressions with the same printed text are equal, for any such spacing, so also without a space after prefix operators |
| SqlText.Touching | mod_copy.rs:1336-1771 | punctuation may touch what follows and a symbolic operator what is not symbolic, while a keyword has to be kept apart from names and numbers |
| SqlText.PrimaryWords | mod_copy.rs:1581-1637 | the words of names, literals, parentheses and casts |
| SqlText.CompoundWords | mod_copy.rs:1343 | the parts of a compound identifier have dots between them |
| SqlText.OperatorWords | mod_copy.rs:1405 | operators come between or before their operands |
| SqlText.IsWords | mod_copy.rs:1351-1358 | the words of the IS tests |
| SqlText.DistinctWords | mod_copy.rs:1746-1747 | the words of IS DISTINCT FROM |
| SqlText.InWords | mod_copy.rs:1359-1369 | the words of tuples and IN lists, with commas between their elements |
| SqlText.BetweenWords | mod_copy.rs:1392-1404 | the words of BETWEEN |
| SqlText.LikeWords | mod_copy.rs:1406-1455 | the words of LIKE and ILIKE with ANY and ESCAPE; where the printer leaves out the space after ANY is in `SqlExpr.AnyCollidesIff` |
| SqlText.CaseWords | mod_copy.rs:1644-1661 | the words of CASE |
| SqlExpr.GroupingIsLost | mod_copy.rs:1405 | without wrapping, left- and right-nested operators print alike |
| SqlExpr.SingletonsAreLost | mod_copy.rs:1769-1771 | a one-element tuple prints like a parenthesised expression |
| SqlExpr.AnyCollidesIff | mod_copy.rs:1406-1455 | LIKE or ILIKE with ANY prints like another pattern without it exactly when that pattern's text is the first one's after ANY, with the missing space in one case |
| SqlExpr.AnySwallowed | mod_copy.rs:1438-1446 | two different expressions with the same text: ILIKE ANY n ESCAPE and ILIKE ANYn ESCAPE |
| SqlExpr.AnyKeptApart | mod_copy.rs:1406-1454 | in the other cases ANY before an identifier never reads as part of another |
| OneOrMany.WalkLeavesMiddle | mod_copy.rs:1246-1292 | any interleaving of front and back calls leaves the middle of the sequence |
| OneOrMany.CallYields | mod_copy.rs:1246-1292 | the i-th call yields the next unseen element of its end, and nothing once the sequence is exhausted |
| OneOrMany.WalkConserves | mod_copy.rs:1246-1292 | nothing is lost or yielded twice |
| OneOrMany.IntoIter.constructor | mod_copy.rs:1294-1311 | a new iterator has the dereferenced slice before it |
| OneOrMany.IntoIter.Next | mod_copy.rs:1249-1254 | takes the first remaining element |
| OneOrMany.IntoIter.NextBack | mod_copy.rs:1286-1291 | takes the last remaining element |
| OneOrMany.IntoIter.SizeHint | mod_copy.rs:1256-1261 | the hint is the exact number of remaining elements |
| OneOrMany.IntoIter.Fold | mod_copy.rs:1273-1282 | folds all remaining elements in order |
| OneOrMany.Drive | mod_copy.rs:1194-1311 | for every interleaving the iterator yields the walk of the dereferenced slice, with exact size hints throughout |
| OneOrMany.DisplaySeparated | mod_copy.rs:115-137 | the delimiter loop prints the elements with separators between them |
| OneOrMany.SplitJoin | mod_copy.rs:123-137 | cutting the printed text at the separator gives the elements' texts back |
| OneOrMany.DisplayDetermines | mod_copy.rs:1313-1325 | the printed form determines one or many and the element texts |
| TableSorter.SortBodyMeaning | benchmarks/generate_summary.py:171-187 | a QPS table's body is permuted into (dataset ascending, QPS descending) order, ties as they were; other tables are unchanged |
| TableSorter.RenderedTableSorted | benchmarks/generate_summary.py:143-192 | a rendered header, dashes and rendered rows anywhere in a report are read as a table; if a column is named QPS its rows come out permuted, datasets rising and within a dataset numbers falling with unparsable ones last; without such a column they stay |
| TableSorter.RenderedLines | benchmarks/generate_summary.py:146-160 | rendered headers and rows are rows and no separators, and rendered dashes are a separator |
| TableSorter.SeparatorIff | benchmarks/generate_summary.py:140 | between blanks and bars a separator has blanks, colons, dashes and bars, at least one of them and nothing else |
| TableSorter.IndexOfIs | benchmarks/generate_summary.py:163-169 | the column used is the first of that name, in capitals or not |
| TableSorter.BlocksOfSorted | benchmarks/generate_summary.py:158-192 | the sorted report reads back as the same tables with sorted bodies |
| TableSorter.SortTablesIdempotent | benchmarks/generate_summary.py:143-192 | sorting twice is sorting once |
| TableSorter.OutsideStays | benchmarks/generate_summary.py:158-192 | no line is lost, added or changed, and a line that moves is a row with nothing but rows between it and a header with a separator under it |
| TableSorter.KeyOfRow | benchmarks/generate_summary.py:172-185 | a rendered row is keyed by exactly its dataset and QPS cells; missing or unparsable numbers come last |
| TableSorter.CellsOfRow | benchmarks/generate_summary.py:163-173 | rendered cells and column names read back |
| TableSorter.SortReport | benchmarks/generate_summary.py:154-192 | the line-by-line loop computes the sorted report |
| TableSorter.SortTablesByQps | benchmarks/generate_summary.py:143-192 | the sorter on Markdown lines: a permutation, stable outside bodies, idempotent, and on rendered tables what `RenderedTableSorted` says |
| Ledger.CalibrationsAfter | benchmarks/session_provenance.py:474-477 | after any stamps a session's calibrations are a suffix of its samples: all of them up to 100, then the last 100 |
| Ledger.SessionAfter | benchmarks/session_provenance.py:465-473 | a session was first seen at the time of its first stamp and lists the sections stamped in it, once each, in the order of their first stamps |
| Ledger.SectionAfter | benchmarks/session_provenance.py:479-487 | a section carries the session of its latest stamp and the first occurrences of all its artifacts |
| Ledger.LedgerInvAfter | benchmarks/session_provenance.py:450-489 | after any stamps every section's session exists and lists that section |
| Ledger.NoMismatchIffOneSession | benchmarks/session_provenance.py:514-519 | there is no mismatch exactly when all stamped sections share one session |
| Ledger.RefusedIffMixed | benchmarks/generate_summary.py:313-329 | the report is refused exactly when sections come from different sessions and this is not overridden; the primary session has fewest mismatches |
| Ledger.MismatchesAre | benchmarks/session_provenance.py:492-520 | the mismatches are exactly the sections measured outside the primary session, by rising name, and a session without a record counts as the earliest |
| Ledger.SessionLedger.AddStamp | benchmarks/session_provenance.py:450-489 | on any ledger the in-place update is the specified one, and it keeps the invariant |
| Ledger.SessionLedger.Verify | benchmarks/session_provenance.py:492-520 | counts sections per session and picks a primary one with its mismatches |
| Sweep.StampedIff | benchmarks/run_sweep.py:247-279 | a section is stamped exactly when all its commands succeed and some artifact is at least as new as its start less the tolerance, and then with exactly those artifacts |
| Sweep.FailureCode | benchmarks/run_sweep.py:249-279 | a failing section is recorded with the code of its first failing command, after which none runs, or with -1 if nothing fresh is left |
| Sweep.SectionMoves | benchmarks/run_sweep.py:201-223 | a file no command touches is moved aside by a section exactly when the sweep cleans, the section's globs match it and it predates the sweep |
| Sweep.SweepMoves | benchmarks/run_sweep.py:201-247 | over a whole sweep such a file is moved aside only if some section's globs match it and it predates the sweep, and then always if every section is reached |
| Sweep.ExitZeroIffAllStamped | benchmarks/run_sweep.py:226-291 | a sweep exits with 0 exactly when every section was stamped |
| Sweep.SweepKeepsItsArtifacts | benchmarks/run_sweep.py:201-223 | every artifact written during the sweep and not deleted by a command is there at its end, even with overlapping globs |
| Sweep.SectionLeavesNoStale | benchmarks/run_sweep.py:201-223 | after cleaning no matching artifact is older than the sweep |
| Sweep.IdleSectionStampedIff | benchmarks/run_sweep.py:181-198 | a section whose commands touch no matching file is stamped exactly when one is within the tolerance |
| Sweep.OverlapStampsIdleSection | benchmarks/run_sweep.py:153-170 | the overlapping globs of two sections give such a case |
| Sweep.SweepRun.QuarantineStale | benchmarks/run_sweep.py:201-223 | moves exactly the matching stale artifacts and counts them |
| Sweep.SweepRun.RunCommands | benchmarks/run_sweep.py:249-254 | runs the commands, which may write and delete files, up to the first failure |
| Sweep.SweepRun.RunSections | benchmarks/run_sweep.py:226-291 | the sweep loop has the specified effect and exit code |

## Left out

- The engine beyond manifests and the lineage check (write-ahead log, readers, vector and graph indexes): the load
  stage treats it as something that may have committed any prefix of what was written.
- Manifests: schemas, properties and path qualification against the table root are not part of a snapshot here; delete
  files drop rows by data file path, so equality deletes are not covered.
- TableRows.RowsConservedIff: assumes that no delete file drops rows of a file published after it, which the fresh names
  of data files give.
- What the engine does with rows that carry a column the table was created without, which a load before and one after the
  first shard can bring about.
- Commits: the cap of 100 attempts is an early end of a call; `rollback_to_snapshot`, `commit_manifest` and the vacuum of
  data files are not modelled.
- TableRows.RunsConserveIff: histories of `commit` and `commit_imported_entries`; `commit_synced_snapshot` is modelled only
  as single steps, because it breaks the path invariant as `Snapshots.SyncRetiresIff` states.
- The remaining SQL printers (statements, DDL, DML) and expression kinds (functions, subqueries, intervals, postfix
  factorial): they add flat printing with optional keywords.
- SqlExpr.RoundTrip: works on tokens and printed words.
- SqlText.TextInjective: takes the printer's spaces as any spacing that keeps apart words that would run together, instead of
  spelling them out form by form; names and literals hold no escaped quotes.
- NaN in report cells; Unicode white space and case folding (ASCII only); splitting the report text into lines.
- The 32-bit width of `text_id`; the adoption of a legacy monolithic embeddings file; power loss after a part was closed.
- A remote object that changes between download attempts, since requests carry no If-Range.
- The order polars gives joined and tied rows, which is left open instead; slicing section texts out of page texts.
- Parquet, Arrow, HTTP and file-system internals, clocks, calibration measurements and GPU code are parameters or absent.
- `build_demo_dataset.py`, release and teardown scripts, Python bindings and allocator tuning.
