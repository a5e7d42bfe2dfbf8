/** The embed and load stages together: what the loader needs of the shards is
    what every crash history of the embed stage provides. */
module DemoPipeline {
  import opened Seqs
  import opened Multiples
  import opened PartFiles
  import Embed = EmbedStage
  import opened LoadStreams
  import opened ShardNames
  import opened DemoLoad

  /** Rows per source batch of the embed stage, rows per batch of the loader, and the
      default shard size. */
  const EMBED_BATCH: nat := 200_000
  const LOAD_BATCH: nat := 250_000
  const DEFAULT_SHARD_ROWS: nat := 5_000_000

  /** The shard size at which a run of the embed stage rotates. */
  function ShardSize(shardRows: int): nat {
    RoundUp(Max(shardRows, 1), EMBED_BATCH)
  }

  /** An embed history over the real batching in which some run completes and all runs rotate at the same size. */
  ghost predicate Embedded<N>(nodes: seq<N>, runs: seq<Embed.Run<N>>, size: nat) {
    && (forall i :: 0 <= i < |runs| ==>
          runs[i].batches == Cut(nodes, EMBED_BATCH) && ShardSize(runs[i].shardRows) == size)
    && (exists i :: 0 <= i < |runs| && runs[i].fate == Embed.Completes)
  }

  lemma {:induction false} CutBatching<R>(rows: seq<R>, g: nat)
    requires g > 0
    ensures Embed.Batching(Cut(rows, g), rows, g)
  {
    FlattenCut(rows, g);
    Embed.CutFullButLast(rows, g);
  }

  /** The smallest and the largest number a history rotates at. */
  ghost function Least<N>(runs: seq<Embed.Run<N>>): (r: int)
    ensures forall i :: 0 <= i < |runs| ==> r <= runs[i].shardRows
  {
    if runs == [] then 0 else Min(runs[0].shardRows, Least(runs[1..]))
  }

  ghost function Most<N>(runs: seq<Embed.Run<N>>): (r: int)
    ensures forall i :: 0 <= i < |runs| ==> runs[i].shardRows <= r
  {
    if runs == [] then 0 else Max(runs[0].shardRows, Most(runs[1..]))
  }

  /** The shards a completed embed history leaves: all embeddings in order, in equal
      non-empty shards but for the last. */
  lemma {:induction false} EmbeddedShards<N, V>(nodes: seq<N>, enc: N -> V, runs: seq<Embed.Run<N>>, size: nat)
    requires Embedded(nodes, runs, size)
    ensures var shards := Embed.AfterRuns([], enc, runs);
            Flatten(shards) == Map(enc, nodes) && Embed.Uniform(shards, Map(enc, nodes), size)
  {
    CutBatching(nodes, EMBED_BATCH);
    Embed.HistoryKeepsPrefix([], enc, runs, nodes, Least(runs), Most(runs), EMBED_BATCH);
    Embed.HistoryKeepsUniform(enc, runs, nodes, EMBED_BATCH, size);
  }

  /** The embeddings' shards under their names: at most a thousand of them are read in order. */
  ghost predicate NamesFit<N, V>(enc: N -> V, runs: seq<Embed.Run<N>>) {
    |Embed.AfterRuns([], enc, runs)| <= 1000
  }

  lemma {:induction false} ShardsInOrder<V>(shards: seq<seq<V>>)
    requires |shards| <= 1000
    ensures Read(Filled(shards)) == shards
  {
    ReadInOrder(Filled(shards));
    ListedFilled(shards);
  }

  /** The loader reads the vectors in order if and only if there are at most a thousand shards, for shards that
      start differently. */
  lemma {:induction false} ReadInOrderIff<V>(shards: seq<seq<V>>)
    requires forall i :: 0 <= i < |shards| ==> shards[i] != []
    requires forall i, j :: 0 <= i < j < |shards| ==> shards[i][0] != shards[j][0]
    ensures Flatten(Read(Filled(shards))) == Flatten(shards) <==> |shards| <= 1000
  {
    Thousand();
    StreamInOrderIff(SHARDS, shards);
  }

  /** Every chunk of every load, from any resume offset, pairs each node with its own
      embedding, if the rotation size is a whole number of loader batches and the shards' names sort in order. */
  lemma {:induction false} EveryChunkLoads<N, V>(nodes: seq<N>, enc: N -> V, runs: seq<Embed.Run<N>>, size: nat, s: nat,
                                                 e: nat)
    requires Embedded(nodes, runs, size) && NamesFit(enc, runs)
    requires s <= e <= |nodes| && size % LOAD_BATCH == 0
    ensures LoadChunk(nodes, Read(Filled(Embed.AfterRuns([], enc, runs))), LOAD_BATCH, s, e)
         == Zipped(Pair(nodes, Map(enc, nodes))[s..e], Loaded)
  {
    EmbeddedShards(nodes, enc, runs, size);
    var shards := Embed.AfterRuns([], enc, runs);
    ShardsInOrder(shards);
    forall i | 0 <= i < |shards| - 1
      ensures |shards[i]| % LOAD_BATCH == 0
    {
      assert |shards[i]| == size;
    }
    AlignedChunkLoads(nodes, shards, LOAD_BATCH, s, e);
  }

  /** The condition on the size is exact as soon as there are two shards. */
  lemma {:induction false} LoadsIffShardSizeFits<N, V>(nodes: seq<N>, enc: N -> V, runs: seq<Embed.Run<N>>, size: nat)
    requires Embedded(nodes, runs, size) && NamesFit(enc, runs)
    ensures var shards := Embed.AfterRuns([], enc, runs);
            LoadChunk(nodes, Read(Filled(shards)), LOAD_BATCH, 0, |nodes|).status == Loaded
            <==> |shards| <= 1 || size % LOAD_BATCH == 0
  {
    EmbeddedShards(nodes, enc, runs, size);
    var shards := Embed.AfterRuns([], enc, runs);
    ShardsInOrder(shards);
    WholeLoadIffAligned(nodes, shards, LOAD_BATCH);
    assert |shards| > 1 ==> |shards[0]| == size;
    if |shards| > 1 && size % LOAD_BATCH == 0 {
      forall i | 0 <= i < |shards| - 1
        ensures |shards[i]| % LOAD_BATCH == 0
      {
        assert |shards[i]| == size;
      }
    }
  }

  /** The default shard size meets the condition. */
  lemma {:induction false} DefaultShardSizeFits()
    ensures ShardSize(DEFAULT_SHARD_ROWS) % LOAD_BATCH == 0
  {
    assert ShardSize(DEFAULT_SHARD_ROWS) == DEFAULT_SHARD_ROWS by {
      assert DEFAULT_SHARD_ROWS % EMBED_BATCH == 0;
      MultiplesApart(DEFAULT_SHARD_ROWS, ShardSize(DEFAULT_SHARD_ROWS), EMBED_BATCH);
    }
  }
}
