/** The load stage with its shards: what a start of the loader writes depends on which embedding shards are
    there, in which order their names sort, and whether a chunk finds the two streams in step. */
module DemoLoad {
  import opened Seqs
  import opened Multiples
  import opened PartFiles
  import opened LoadStreams
  import opened ShardNames
  import Load = LoadStage

  /** The shards as the loader reads them. */
  function Read<V>(parts: Dir<V>): seq<seq<V>> { InNameOrder(SHARDS, parts) }

  /** What each child has to write. */
  function NodeSource<N, V>(nodes: seq<N>, parts: Dir<V>, size: nat): Load.Source<(N, Option<V>)>
    requires size > 0
  {
    Load.Source(|nodes|, (s: nat, e: nat) => if s <= e <= |nodes| then ChildRows(nodes, parts, size, s, e)
                                             else Load.Piece([], false))
  }

  function ChildRows<N, V>(nodes: seq<N>, parts: Dir<V>, size: nat, s: nat, e: nat): Load.Piece<(N, Option<V>)>
    requires size > 0 && s <= e <= |nodes|
  {
    var w := ChunkRows(nodes, Read(parts), size, s, e);
    Load.Piece(w.rows, w.status == Loaded)
  }

  /** The rows that the shards can give: by position, or without vectors if there is no shard. */
  function Given<N, V>(nodes: seq<N>, parts: Dir<V>): seq<(N, Option<V>)> {
    if Read(parts) == [] then Bare(nodes) else WithVectors(Matched(nodes, Flatten(Read(parts))))
  }

  /** On shards of any sizes and in any order, every chunk writes a prefix of its range of the given rows, and all of it
      if it ends well. */
  lemma {:induction false} SourceGives<N, V>(nodes: seq<N>, parts: Dir<V>, size: nat)
    requires size > 0
    ensures Load.Gives(NodeSource(nodes, parts, size), Given(nodes, parts))
  {
    var src, rows := NodeSource(nodes, parts, size), Given(nodes, parts);
    forall s, e | 0 <= s <= e <= |nodes|
      ensures Load.GivesPiece(src.piece(s, e), rows, s, e)
    {
      ChunkGives(nodes, parts, size, s, e);
    }
  }

  lemma {:induction false} ChunkGives<N, V>(nodes: seq<N>, parts: Dir<V>, size: nat, s: nat, e: nat)
    requires size > 0 && s <= e <= |nodes|
    ensures Load.GivesPiece(ChildRows(nodes, parts, size, s, e), Given(nodes, parts), s, e)
  {
    var shards := Read(parts);
    if shards == [] {
      assert Bare<N, V>(nodes[s..e]) == Bare<N, V>(nodes)[s..e];
    } else {
      ChunkWritesRightRows(nodes, shards, size, s, e);
      var pairs, rows := Matched(nodes, Flatten(shards)), LoadChunk(nodes, shards, size, s, e).rows;
      VectorsPrefix(rows, Range(pairs, s, e));
      VectorsRange(pairs, s, e);
    }
  }

  lemma {:induction false} VectorsPrefix<N, V>(a: seq<(N, V)>, b: seq<(N, V)>)
    requires a <= b
    ensures WithVectors(a) <= WithVectors(b)
  {
  }

  lemma {:induction false} VectorsRange<N, V>(pairs: seq<(N, V)>, s: nat, e: nat)
    requires s <= e
    ensures WithVectors(Range(pairs, s, e)) == Range(WithVectors(pairs), s, e)
  {
  }

  // ---- one start of the parent, and the removal of the shards --------------------------------------------

  /** The table and the shards that there are. */
  datatype Demo<N, V> = Demo(table: seq<(N, Option<V>)>, parts: Dir<V>)

  /** A start of the parent, and the shards it removes, one by one in some order, before it ends or is killed. */
  datatype Visit = Visit(start: Load.Start, removed: seq<nat>)

  function AfterStart<N, V>(nodes: seq<N>, size: nat, d: Demo<N, V>, run: Load.Start): Load.End<(N, Option<V>)>
    requires size > 0 && run.chunkRows > 0
  {
    Load.AfterStart(NodeSource(nodes, d.parts, size), d.table, run)
  }

  /** Shards are only removed by a start that is asked to and finishes. */
  function AfterVisit<N, V>(nodes: seq<N>, size: nat, d: Demo<N, V>, v: Visit): Demo<N, V>
    requires size > 0 && v.start.chunkRows > 0
  {
    var end := AfterStart(nodes, size, d, v.start);
    Demo(end.table, if v.start.deleteShards && end.finished then RemoveAll(d.parts, v.removed) else d.parts)
  }

  lemma {:induction false} RemovedAt<T>(d: Dir<T>, order: seq<nat>, i: nat)
    requires i < |d|
    ensures |RemoveAll(d, order)| == |d|
    ensures RemoveAll(d, order)[i] == if i in order then None else d[i]
    decreases |order|
  {
    if order != [] {
      RemovedAt(d, order[..|order| - 1], i);
      assert order == order[..|order| - 1] + [order[|order| - 1]];
    }
  }

  /** A shard is gone after a start exactly when it was before, or when the start was not asked to keep the
      shards, finished, and came to that shard; the others hold what they held. */
  lemma {:induction false} VisitRemoves<N, V>(nodes: seq<N>, size: nat, d: Demo<N, V>, v: Visit, i: nat)
    requires size > 0 && v.start.chunkRows > 0 && i < |d.parts|
    ensures var d', end := AfterVisit(nodes, size, d, v), AfterStart(nodes, size, d, v.start);
            && |d'.parts| == |d.parts|
            && (d'.parts[i].None? <==> d.parts[i].None? || (v.start.deleteShards && end.finished && i in v.removed))
            && (d'.parts[i].Some? ==> d'.parts[i] == d.parts[i])
  {
    RemovedAt(d.parts, v.removed, i);
  }

  /** One chunk of all rows, loaded at once. */
  function Whole<N>(nodes: seq<N>, rebuild: bool): Load.Start {
    Load.Start(|nodes|, rebuild, false, true, [Load.ONCE])
  }

  lemma {:induction false} WholeLoads<N, V>(nodes: seq<N>, size: nat, d: Demo<N, V>, rebuild: bool)
    requires size > 0 && nodes != [] && (rebuild || d.table == [])
    requires ChildRows(nodes, d.parts, size, 0, |nodes|).loads
    ensures AfterStart(nodes, size, d, Whole(nodes, rebuild))
         == Load.End(ChildRows(nodes, d.parts, size, 0, |nodes|).rows, true)
  {
    var src, p := NodeSource(nodes, d.parts, size), ChildRows(nodes, d.parts, size, 0, |nodes|);
    assert [Load.ONCE][1..] == [] && [] + p.rows == p.rows && src.piece(0, |nodes|) == p;
    assert Load.ChunkLoop(src, p.rows, |nodes|, |nodes|, []) == Load.End(p.rows, true);
    assert Load.ChunkLoop(src, [], 0, |nodes|, [Load.ONCE]) == Load.End(p.rows, true);
  }

  /** The failing history without shards: load everything and remove them all, then rebuild. No row has a vector. */
  lemma {:induction false} RebuildLosesVectors<N, V>(nodes: seq<N>, size: nat, shards: seq<seq<V>>, order: seq<nat>)
    requires size > 0 && nodes != [] && ChildRows(nodes, Filled(shards), size, 0, |nodes|).loads
    requires Listed(RemoveAll(Filled(shards), order)) == [] && |shards| <= 1000
    ensures var d := AfterVisit(nodes, size, Demo([], Filled(shards)), Visit(Whole(nodes, false), order));
            AfterVisit(nodes, size, d, Visit(Whole(nodes, true), [])).table == Bare(nodes)
  {
    var d0: Demo<N, V> := Demo([], Filled(shards));
    WholeLoads(nodes, size, d0, false);
    var d := AfterVisit(nodes, size, d0, Visit(Whole(nodes, false), order));
    assert Read(d.parts) == [] by {
      RemoveKeepsLength(Filled(shards), order);
      ReadInOrder(d.parts);
    }
    assert nodes[0..|nodes|] == nodes;
    WholeLoads(nodes, size, d, true);
  }

  lemma {:induction false} RemoveKeepsLength<T>(d: Dir<T>, order: seq<nat>)
    ensures |RemoveAll(d, order)| == |d|
    decreases |order|
  {
    if order != [] { RemoveKeepsLength(d, order[..|order| - 1]); }
  }

  lemma {:induction false} Thousand()
    ensures Pow10(3) == 1000
  {
    assert Pow10(3) == 10 * Pow10(2) && Pow10(2) == 10 * Pow10(1) && Pow10(1) == 10 * Pow10(0);
  }

  /** Up to a thousand numbers the shards that are there are read in the order of their numbers. */
  lemma {:induction false} ReadInOrder<V>(parts: Dir<V>)
    requires |parts| <= 1000
    ensures Read(parts) == Listed(parts)
  {
    Thousand();
    InOrderUpTo(SHARDS, parts);
  }

  /** The failing history with some shards left: a finished load is killed after it has removed the first of two shards,
      and a rebuild then gives the first nodes the vectors of the others. */
  lemma {:induction false} RebuildTakesOtherVectors<N, V>(nodes: seq<N>, a: seq<V>, b: seq<V>, size: nat)
    requires 0 < size == |a| == |b| && |nodes| == 2 * size
    ensures var d := AfterVisit(nodes, size, Demo([], Filled([a, b])), Visit(Whole(nodes, false), [0]));
            var run := Load.Start(size, true, false, true, [Load.ONCE]);
            && d.parts == [None, Some(b)]
            && AfterVisit(nodes, size, d, Visit(run, [])).table == WithVectors(Pair(nodes[..size], b))
  {
    var parts, left := Filled([a, b]), [None, Some(b)];
    var d0: Demo<N, V> := Demo([], parts);
    assert ChildRows(nodes, parts, size, 0, |nodes|).loads by { TwoShardsLoad(nodes, a, b, size); }
    WholeLoads(nodes, size, d0, false);
    assert [0][..0] == [] && RemoveAll(parts, [0]) == Remove(RemoveAll(parts, []), 0) == left;
    var d := AfterVisit(nodes, size, d0, Visit(Whole(nodes, false), [0]));
    var src, p := NodeSource(nodes, left, size), ChildRows(nodes, left, size, 0, size);
    assert p == Load.Piece(WithVectors(Pair(nodes[..size], b)), true) by { OneShardGives(nodes, b, size); }
    assert src.piece(0, size) == p && [Load.ONCE][1..] == [] && [] + p.rows == p.rows;
    assert Load.ChunkLoop(src, p.rows, size, size, []) == Load.End(p.rows, false);
    assert Load.ChunkLoop(src, [], 0, size, [Load.ONCE]) == Load.End(p.rows, false);
  }

  lemma {:induction false} TwoShardsLoad<N, V>(nodes: seq<N>, a: seq<V>, b: seq<V>, size: nat)
    requires 0 < size == |a| == |b| && |nodes| == 2 * size
    ensures ChildRows(nodes, Filled([a, b]), size, 0, |nodes|).loads
  {
    var shards := [a, b];
    ReadInOrder(Filled(shards));
    ListedFilled(shards);
    assert shards[1..] == [b] && Flatten([b]) == b + Flatten([b][1..]) && Flatten(shards) == a + Flatten(shards[1..]);
    assert Aligned(shards, size) by { MultipleMod(1, size); }
    AlignedChunkLoads(nodes, shards, size, 0, |nodes|);
  }

  lemma {:induction false} OneShardGives<N, V>(nodes: seq<N>, b: seq<V>, size: nat)
    requires 0 < size == |b| && |nodes| == 2 * size
    ensures ChildRows(nodes, [None, Some(b)], size, 0, size) == Load.Piece(WithVectors(Pair(nodes[..size], b)), true)
  {
    var parts: Dir<V> := [None, Some(b)];
    ReadInOrder(parts);
    assert parts[1..] == [Some(b)] && parts[1..][1..] == [] && Listed(parts) == [b];
    var x, y := Clip(Cut(nodes, size), 0, 0, size), Clip(ShardBatches([b], size), 0, 0, size);
    assert x == [nodes[..size]] && y == [b] by { FirstBatches(nodes, b, size); }
    assert x[1..] == [] && y[1..] == [] && Pair(nodes[..size], b) + [] == Pair(nodes[..size], b);
    assert Zip(x, y) == Zipped(Pair(nodes[..size], b), Loaded);
  }

  lemma {:induction false} FirstBatches<N, V>(nodes: seq<N>, b: seq<V>, size: nat)
    requires 0 < size == |b| && |nodes| == 2 * size
    ensures Clip(Cut(nodes, size), 0, 0, size) == [nodes[..size]] && Clip(ShardBatches([b], size), 0, 0, size) == [b]
  {
    var first := nodes[..size];
    assert Cut(nodes, size)[0] == first && first[0..size] == first;
    assert [b][1..] == [] && ShardBatches([b], size) == Cut(b, size) + ShardBatches([b][1..], size) == [b];
    assert b[0..size] == b;
  }

  // ---- the stage itself ---------------------------------------------------------------------------------------

  class NodesTable<N, V> {
    const nodes: seq<N>
    const size: nat
    var rows: seq<(N, Option<V>)>
    var parts: Dir<V>

    constructor (nodes: seq<N>, size: nat, parts: Dir<V>)
      ensures this.nodes == nodes && this.size == size && this.parts == parts && rows == []
    {
      this.nodes, this.size, this.parts, rows := nodes, size, parts, [];
    }

    ghost function Value(): Demo<N, V>
      reads this
    {
      Demo(rows, parts)
    }

    /** `_delete_shards`, up to where it is killed: one file after the other, in the order of a directory listing. */
    method DeleteShards(order: seq<nat>)
      modifies this`parts
      ensures parts == RemoveAll(old(parts), order)
    {
      for i := 0 to |order|
        invariant parts == RemoveAll(old(parts), order[..i])
      {
        assert order[..i + 1][..i] == order[..i];
        if order[i] < |parts| { parts := parts[order[i] := None]; }
      }
      assert order[..|order|] == order;
    }

    /** One child process over rows [s, e): it appends a prefix of what the chunk has to write, all of it if it ends
        well, which it can only if the streams are in step; and only a child over the whole table removes shards. */
    method LoadChild(s: nat, e: nat, fate: Load.Attempt, deleteShards: bool, order: seq<nat>) returns (ok: bool)
      requires size > 0 && s <= e <= |nodes|
      modifies this
      ensures var p := ChildRows(nodes, old(parts), size, s, e);
              && (ok <==> p.loads && fate.Runs?)
              && rows == old(rows) + Load.Commits(p, fate)
      ensures parts == if ok && deleteShards && s == 0 && e == |nodes| && Read(old(parts)) != []
                       then RemoveAll(old(parts), order) else old(parts)
    {
      var shards := Read(parts);
      var written, status := LoadNodesChild(nodes, shards, size, s, e);
      ok := fate.Runs? && status == Loaded;
      assert written[..|written|] == written;
      rows := rows + written[..if ok then |written| else Min(fate.committed, |written|)];
      if ok && shards != [] && deleteShards && s == 0 && e == |nodes| { DeleteShards(order); }
    }

    /** One iteration of the parent: a chunk and, if it fails, its retry. */
    method LoadOneChunk(s: nat, e: nat, c: Load.Chunk) returns (goOn: bool)
      requires size > 0 && s <= e <= |nodes|
      modifies this
      ensures parts == old(parts)
      ensures Load.End(rows, goOn)
              == var one := Load.OneChunk(ChildRows(nodes, parts, size, s, e), c);
                 Load.End(old(rows) + one.table, one.finished)
    {
      ghost var p, before := ChildRows(nodes, parts, size, s, e), rows;
      goOn := LoadChild(s, e, c.first, false, []);
      if !goOn {
        goOn := LoadChild(s, e, c.second, false, []);
        Regroup(before, Load.Commits(p, c.first), Load.Commits(p, c.second));
      }
    }

    /** The parent loop from row offset `start`. */
    method LoadChunks(start: nat, chunkRows: nat, chunks: seq<Load.Chunk>) returns (finished: bool)
      requires size > 0 && chunkRows > 0 && start <= |nodes|
      modifies this
      ensures parts == old(parts)
      ensures Load.End(rows, finished)
              == Load.ChunkLoop(NodeSource(nodes, parts, size), old(rows), start, chunkRows, chunks)
    {
      ghost var src := NodeSource(nodes, parts, size);
      var s, i := start, 0;
      while s < |nodes|
        invariant 0 <= i <= |chunks| && s <= |nodes| && parts == old(parts)
        invariant Load.ChunkLoop(src, rows, s, chunkRows, chunks[i..])
                  == Load.ChunkLoop(src, old(rows), start, chunkRows, chunks)
        decreases |nodes| - s
      {
        if i == |chunks| { return false; }
        var e := Min(s + chunkRows, |nodes|);
        assert chunks[i..][0] == chunks[i] && chunks[i..][1..] == chunks[i + 1..];
        assert src.piece(s, e) == ChildRows(nodes, parts, size, s, e);
        var goOn := LoadOneChunk(s, e, chunks[i]);
        if !goOn { return false; }
        s, i := e, i + 1;
      }
      return true;
    }

    method StageLoad(v: Visit) returns (finished: bool)
      requires size > 0 && v.start.chunkRows > 0
      modifies this
      ensures Value() == AfterVisit(nodes, size, old(Value()), v)
      ensures finished == AfterStart(nodes, size, old(Value()), v.start).finished
      ensures !v.start.deleteShards || !finished ==> parts == old(parts)
    {
      var run := v.start;
      if run.rebuild { rows := []; }
      var loaded := if run.uncounted then 0 else |rows|;
      if loaded >= |nodes| { return false; }
      if loaded == 0 { rows := []; }
      finished := LoadChunks(loaded, run.chunkRows, run.chunks);
      if finished && run.deleteShards { DeleteShards(v.removed); }
    }
  }
}
