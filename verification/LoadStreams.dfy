/** The two row streams a load chunk zips together: node batches and embedding
    batches, each clipped to the chunk's row range (`_load_nodes_child`). */
module LoadStreams {
  import opened Seqs
  import opened Multiples

  // ---- clipping a stream of batches to a row range ---------------------------

  /** What a batch starting at row `pos` yields for rows [s, e): at most one slice. */
  function Yield<T>(b: seq<T>, pos: nat, s: nat, e: nat): seq<seq<T>>
    requires s <= e
  {
    if pos + |b| > s && pos < e then [b[Max(0, s - pos)..Min(|b|, e - pos)]] else []
  }

  /** The slices of `batches`, the first of which starts at row `pos`, that fall in rows [s, e). */
  function Clip<T>(batches: seq<seq<T>>, pos: nat, s: nat, e: nat): seq<seq<T>>
    requires s <= e
  {
    if batches == [] then []
    else
      var b := batches[0];
      Yield(b, pos, s, e) + (if pos + |b| >= e then [] else Clip(batches[1..], pos + |b|, s, e))
  }

  lemma {:induction false} YieldRows<T>(b: seq<T>, pos: nat, s: nat, e: nat)
    requires s <= e
    ensures Flatten(Yield(b, pos, s, e)) == Range(b, Max(0, s - pos), Max(0, e - pos))
  {
    if pos + |b| > s && pos < e {
      var slice := b[Max(0, s - pos)..Min(|b|, e - pos)];
      assert Flatten([slice]) == slice + Flatten([slice][1..]);
    }
  }

  lemma {:induction false} SliceLeft<T>(a: seq<T>, b: seq<T>, i: nat, j: nat)
    requires i <= j <= |a|
    ensures (a + b)[i..j] == a[i..j]
  {
  }

  lemma {:induction false} SliceRight<T>(a: seq<T>, b: seq<T>, i: nat, j: nat)
    requires i <= j <= |b|
    ensures (a + b)[|a| + i..|a| + j] == b[i..j]
  {
  }

  lemma {:induction false} SliceAcross<T>(a: seq<T>, b: seq<T>, i: nat, j: nat)
    requires i <= |a| && j <= |b|
    ensures (a + b)[i..|a| + j] == a[i..|a|] + b[..j]
  {
    var c := a + b;
    assert c[i..|a| + j] == c[i..|a|] + c[|a|..|a| + j];
    SliceLeft(a, b, i, |a|);
    SliceRight(a, b, 0, j);
  }

  lemma {:induction false} RangeAppend<T>(a: seq<T>, b: seq<T>, s: nat, e: nat)
    requires s <= e
    ensures Range(a + b, s, e) == Range(a, s, e) + Range(b, Max(0, s - |a|), Max(0, e - |a|))
  {
    if e <= |a| {
      RangeLeft(a, b, s, e);
    } else if s >= |a| {
      RangeRight(a, b, s, e);
    } else {
      RangeAcross(a, b, s, e);
    }
  }

  lemma {:induction false} RangeLeft<T>(a: seq<T>, b: seq<T>, s: nat, e: nat)
    requires s <= e <= |a|
    ensures Range(a + b, s, e) == Range(a, s, e) + Range(b, 0, 0)
  {
    SliceLeft(a, b, s, e);
    assert Range(b, 0, 0) == [] && a[s..e] + [] == a[s..e];
  }

  lemma {:induction false} RangeRight<T>(a: seq<T>, b: seq<T>, s: nat, e: nat)
    requires |a| <= s <= e
    ensures Range(a + b, s, e) == Range(a, s, e) + Range(b, s - |a|, e - |a|)
  {
    var i, j := Min(s - |a|, |b|), Min(e - |a|, |b|);
    SliceRight(a, b, i, j);
    assert Range(a, s, e) == [] && [] + b[i..j] == b[i..j];
  }

  lemma {:induction false} RangeAcross<T>(a: seq<T>, b: seq<T>, s: nat, e: nat)
    requires s < |a| < e
    ensures Range(a + b, s, e) == Range(a, s, e) + Range(b, 0, e - |a|)
  {
    var j := Min(e - |a|, |b|);
    SliceAcross(a, b, s, j);
    assert b[0..j] == b[..j];
  }

  lemma {:induction false} ClipFrom<T>(batches: seq<seq<T>>, pos: nat, s: nat, e: nat)
    requires s <= e
    ensures Flatten(Clip(batches, pos, s, e)) == Range(Flatten(batches), Max(0, s - pos), Max(0, e - pos))
    decreases |batches|
  {
    if batches != [] {
      var b, rest := batches[0], batches[1..];
      var next := pos + |b|;
      var there := if next >= e then [] else Clip(rest, next, s, e);
      assert Flatten(there) == Range(Flatten(rest), Max(0, s - next), Max(0, e - next)) by {
        if next < e { ClipFrom(rest, next, s, e); }
      }
      FlattenAppend(Yield(b, pos, s, e), there);
      YieldRows(b, pos, s, e);
      RangeAppend(b, Flatten(rest), Max(0, s - pos), Max(0, e - pos));
    }
  }

  /** Clipping loses, repeats and reorders nothing, whatever the batching. */
  lemma {:induction false} ClippedRows<T>(batches: seq<seq<T>>, s: nat, e: nat)
    requires s <= e
    ensures Flatten(Clip(batches, 0, s, e)) == Range(Flatten(batches), s, e)
  {
    ClipFrom(batches, 0, s, e);
  }

  lemma {:induction false} SizesAppend<T>(a: seq<seq<T>>, b: seq<seq<T>>)
    ensures Sizes(a + b) == Sizes(a) + Sizes(b)
  {}

  lemma {:induction false} YieldShape<A, B>(a: seq<A>, b: seq<B>, pos: nat, s: nat, e: nat)
    requires s <= e && |a| == |b|
    ensures Sizes(Yield(a, pos, s, e)) == Sizes(Yield(b, pos, s, e))
  {}

  lemma {:induction false} TailSizes<A, B>(a: seq<seq<A>>, b: seq<seq<B>>)
    requires Sizes(a) == Sizes(b) && a != []
    ensures b != [] && |a[0]| == |b[0]| && Sizes(a[1..]) == Sizes(b[1..])
  {
    assert |a| == |Sizes(a)| == |Sizes(b)| == |b|;
    assert |a[0]| == Sizes(a)[0] == Sizes(b)[0] == |b[0]|;
    assert Sizes(a[1..]) == Sizes(a)[1..] && Sizes(b[1..]) == Sizes(b)[1..];
  }

  /** The shape of a clipped stream depends only on the batch sizes. */
  lemma {:induction false} ClipShape<A, B>(a: seq<seq<A>>, b: seq<seq<B>>, pos: nat, s: nat, e: nat)
    requires s <= e && Sizes(a) == Sizes(b)
    ensures Sizes(Clip(a, pos, s, e)) == Sizes(Clip(b, pos, s, e))
    decreases |a|
  {
    if a == [] {
      assert |b| == |Sizes(b)| == 0;
    } else {
      TailSizes(a, b);
      var next := pos + |a[0]|;
      YieldShape(a[0], b[0], pos, s, e);
      ClipShape(a[1..], b[1..], next, s, e);
      var x := if next >= e then [] else Clip(a[1..], next, s, e);
      var y := if next >= e then [] else Clip(b[1..], next, s, e);
      SizesAppend(Yield(a[0], pos, s, e), x);
      SizesAppend(Yield(b[0], pos, s, e), y);
    }
  }

  lemma {:induction false} ClipStep<T>(out: seq<seq<T>>, batches: seq<seq<T>>, pos: nat, s: nat, e: nat)
    requires s <= e && batches != []
    ensures var next, more := pos + |batches[0]|, out + Yield(batches[0], pos, s, e);
            out + Clip(batches, pos, s, e) == if next >= e then more else more + Clip(batches[1..], next, s, e)
  {
    var next, first := pos + |batches[0]|, Yield(batches[0], pos, s, e);
    var there := if next >= e then [] else Clip(batches[1..], next, s, e);
    assert Clip(batches, pos, s, e) == first + there;
    Joined(out, first, there);
  }

  lemma {:induction false} Joined<T>(a: seq<T>, b: seq<T>, c: seq<T>)
    ensures a + (b + c) == a + b + c && a + b + [] == a + b
  {
  }

  lemma {:induction false} ClipRest<T>(out: seq<seq<T>>, batches: seq<seq<T>>, later: seq<seq<T>>, i: nat, pos: nat,
                                       s: nat, e: nat)
    requires s <= e && i < |batches|
    ensures var next, more := pos + |batches[i]|, out + Yield(batches[i], pos, s, e);
            out + Clip(batches[i..] + later, pos, s, e)
            == if next >= e then more else more + Clip(batches[i + 1..] + later, next, s, e)
  {
    var rest := batches[i..] + later;
    assert rest[0] == batches[i] && rest[1..] == batches[i + 1..] + later;
    ClipStep(out, rest, pos, s, e);
  }

  /** The generator loop: yields slices until the range ends (`stop`) or the batches run out. */
  method EmitBatches<T>(acc: seq<seq<T>>, batches: seq<seq<T>>, start: nat, s: nat, e: nat, ghost later: seq<seq<T>>)
    returns (out: seq<seq<T>>, pos: nat, stop: bool)
    requires s <= e
    ensures stop ==> out == acc + Clip(batches + later, start, s, e)
    ensures !stop ==> out + Clip(later, pos, s, e) == acc + Clip(batches + later, start, s, e)
  {
    out, pos := acc, start;
    ghost var whole := acc + Clip(batches + later, start, s, e);
    assert batches[0..] == batches;
    for i := 0 to |batches|
      invariant out + Clip(batches[i..] + later, pos, s, e) == whole
    {
      ClipRest(out, batches, later, i, pos, s, e);
      out := out + Yield(batches[i], pos, s, e);
      pos := pos + |batches[i]|;
      if pos >= e { return out, pos, true; }
    }
    assert batches[|batches|..] + later == later;
    stop := false;
  }

  method RangedBatches<T>(batches: seq<seq<T>>, s: nat, e: nat) returns (out: seq<seq<T>>)
    requires s <= e
    ensures out == Clip(batches, 0, s, e)
    ensures Flatten(out) == Range(Flatten(batches), s, e)
  {
    ClippedRows(batches, s, e);
    assert batches + [] == batches;
    var pos, stop;
    out, pos, stop := EmitBatches([], batches, 0, s, e, []);
  }

  // ---- the embedding stream --------------------------------------------------------

  /** The batches read shard after shard: every shard starts a new batch. */
  function ShardBatches<V>(shards: seq<seq<V>>, size: nat): seq<seq<V>>
    requires size > 0
  {
    if shards == [] then [] else Cut(shards[0], size) + ShardBatches(shards[1..], size)
  }

  lemma {:induction false} ShardStep<V>(shards: seq<seq<V>>, i: nat, size: nat)
    requires size > 0 && i < |shards|
    ensures ShardBatches(shards[i..], size) == Cut(shards[i], size) + ShardBatches(shards[i + 1..], size)
  {
    assert shards[i..][1..] == shards[i + 1..];
  }

  method EmbArrays<V>(shards: seq<seq<V>>, size: nat, s: nat, e: nat) returns (out: seq<seq<V>>)
    requires size > 0 && s <= e
    ensures out == Clip(ShardBatches(shards, size), 0, s, e)
  {
    out := [];
    var pos: nat := 0;
    ghost var whole := Clip(ShardBatches(shards, size), 0, s, e);
    assert shards[0..] == shards;
    for i := 0 to |shards|
      invariant out + Clip(ShardBatches(shards[i..], size), pos, s, e) == whole
    {
      ShardStep(shards, i, size);
      var stop;
      out, pos, stop := EmitBatches(out, Cut(shards[i], size), pos, s, e, ShardBatches(shards[i + 1..], size));
      if stop { return; }
    }
  }

  lemma {:induction false} FlattenShardBatches<V>(shards: seq<seq<V>>, size: nat)
    requires size > 0
    ensures Flatten(ShardBatches(shards, size)) == Flatten(shards)
  {
    if shards != [] {
      FlattenCut(shards[0], size);
      FlattenAppend(Cut(shards[0], size), ShardBatches(shards[1..], size));
      FlattenShardBatches(shards[1..], size);
    }
  }

  // ---- when the two streams are in step ------------------------------------------

  /** Every shard but the last is a whole number of batches. */
  ghost predicate Aligned<V>(shards: seq<seq<V>>, size: nat)
    requires size > 0
  {
    forall i :: 0 <= i < |shards| - 1 ==> |shards[i]| % size == 0
  }

  /** Batch boundaries of a cut fall on multiples of the batch size. */
  lemma {:induction false} CutAppend<T>(a: seq<T>, b: seq<T>, size: nat)
    requires size > 0 && |a| % size == 0
    ensures Cut(a + b, size) == Cut(a, size) + Cut(b, size)
    decreases |a|
  {
    if a == [] {
      assert a + b == b;
    } else {
      PeelMultiple(|a|, size);
      assert (a + b)[..size] == a[..size] && (a + b)[size..] == a[size..] + b;
      CutAppend(a[size..], b, size);
      if |a| == size { assert a[..size] == a; }
      if b == [] { assert a + b == a; }
    }
  }

  lemma {:induction false} AlignedCut<V>(shards: seq<seq<V>>, size: nat)
    requires size > 0 && Aligned(shards, size)
    ensures ShardBatches(shards, size) == Cut(Flatten(shards), size)
  {
    if |shards| == 1 {
      assert Flatten(shards) == shards[0] + Flatten(shards[1..]) == shards[0];
    } else if |shards| > 1 {
      assert |shards[0]| % size == 0;
      AlignedCut(shards[1..], size);
      CutAppend(shards[0], Flatten(shards[1..]), size);
    }
  }

  lemma {:induction false} CutShape<A, B>(a: seq<A>, b: seq<B>, size: nat)
    requires size > 0 && |a| == |b|
    ensures Sizes(Cut(a, size)) == Sizes(Cut(b, size))
  {
    if |a| > size {
      CutShape(a[size..], b[size..], size);
      assert Sizes(Cut(a, size)) == [size] + Sizes(Cut(a[size..], size));
      assert Sizes(Cut(b, size)) == [size] + Sizes(Cut(b[size..], size));
    }
  }

  lemma {:induction false} CutHead<T>(rows: seq<T>, size: nat)
    requires size > 0 && rows != []
    ensures Sizes(Cut(rows, size)) == [Min(size, |rows|)] + Sizes(Cut(rows[Min(size, |rows|)..], size))
  {}

  /** If cutting shard by shard has the same shape as cutting the whole, the first
      shard is a whole number of batches (when rows follow it). */
  lemma {:induction false} SameShapeFirst<T>(a: seq<T>, b: seq<T>, rest: seq<nat>, size: nat)
    requires size > 0 && b != [] && Sizes(Cut(a + b, size)) == Sizes(Cut(a, size)) + rest
    ensures Peels(|a|, size) && Sizes(Cut(b, size)) == rest
    decreases |a|
  {
    if a == [] {
      assert a + b == b;
      assert Sizes(Cut(a, size)) == [] && [] + rest == rest;
    } else {
      SameShapePeel(a, b, rest, size);
      SameShapeFirst(a[size..], b, rest, size);
      assert |a[size..]| == |a| - size;
    }
  }

  lemma {:induction false} SameShapePeel<T>(a: seq<T>, b: seq<T>, rest: seq<nat>, size: nat)
    requires size > 0 && a != [] && b != [] && Sizes(Cut(a + b, size)) == Sizes(Cut(a, size)) + rest
    ensures |a| >= size && Sizes(Cut(a[size..] + b, size)) == Sizes(Cut(a[size..], size)) + rest
  {
    CutHead(a, size);
    CutHead(a + b, size);
    var n, m := Min(size, |a|), Min(size, |a + b|);
    var x, y := Sizes(Cut(a[n..], size)), Sizes(Cut((a + b)[m..], size));
    assert [m] + y == [n] + x + rest == [n] + (x + rest);
    assert ([m] + y)[0] == m && ([n] + (x + rest))[0] == n;
    assert y == ([m] + y)[1..] && x + rest == ([n] + (x + rest))[1..];
    assert (a + b)[size..] == a[size..] + b;
  }

  /** The streams have the same batch sizes exactly when the shards are aligned. */
  lemma {:induction false} InStepIffAligned<V>(shards: seq<seq<V>>, size: nat)
    requires size > 0 && forall i :: 0 <= i < |shards| ==> shards[i] != []
    ensures Sizes(ShardBatches(shards, size)) == Sizes(Cut(Flatten(shards), size)) <==> Aligned(shards, size)
  {
    if Aligned(shards, size) { AlignedCut(shards, size); }
    if Sizes(ShardBatches(shards, size)) == Sizes(Cut(Flatten(shards), size)) && |shards| > 1 {
      var a, b := shards[0], Flatten(shards[1..]);
      assert b == shards[1] + Flatten(shards[1..][1..]) && b != [];
      var rest := Sizes(ShardBatches(shards[1..], size));
      assert Sizes(ShardBatches(shards, size)) == Sizes(Cut(a, size)) + rest;
      SameShapeFirst(a, b, rest, size);
      PeelsMod(|a|, size);
      InStepIffAligned(shards[1..], size);
      forall i | 0 <= i < |shards| - 1
        ensures |shards[i]| % size == 0
      {
        if i > 0 { assert shards[i] == shards[1..][i - 1]; }
      }
    }
  }

  // ---- zipping them -------------------------------------------------------------------

  datatype Status = Loaded | ShortEmbeddings | AlignmentLost

  /** The rows a chunk writes before it ends, and how it ends. */
  datatype Zipped<N, V> = Zipped(rows: seq<(N, V)>, status: Status)

  function Pair<N, V>(nodes: seq<N>, vecs: seq<V>): (r: seq<(N, V)>)
    requires |nodes| == |vecs|
    ensures |r| == |nodes| && forall i :: 0 <= i < |r| ==> r[i] == (nodes[i], vecs[i])
  {
    seq(|nodes|, i requires 0 <= i < |nodes| => (nodes[i], vecs[i]))
  }

  function Zip<N, V>(nodes: seq<seq<N>>, vecs: seq<seq<V>>): Zipped<N, V> {
    if nodes == [] then Zipped([], Loaded)
    else if vecs == [] then Zipped([], ShortEmbeddings)
    else if |vecs[0]| != |nodes[0]| then Zipped([], AlignmentLost)
    else
      var rest := Zip(nodes[1..], vecs[1..]);
      Zipped(Pair(nodes[0], vecs[0]) + rest.rows, rest.status)
  }

  /** Whatever the batching and however the zip ends, the rows written pair each node with
      the vector at its own position; a zip that ends well has paired every node. */
  lemma {:induction false} ZipPairsByPosition<N, V>(nodes: seq<seq<N>>, vecs: seq<seq<V>>)
    ensures var k := |Zip(nodes, vecs).rows|;
            && k <= |Flatten(nodes)| && k <= |Flatten(vecs)|
            && Zip(nodes, vecs).rows == Pair(Flatten(nodes)[..k], Flatten(vecs)[..k])
            && (Zip(nodes, vecs).status == Loaded ==> k == |Flatten(nodes)|)
  {
    if nodes != [] && vecs != [] && |vecs[0]| == |nodes[0]| {
      ZipPairsByPosition(nodes[1..], vecs[1..]);
    }
  }

  /** The zip ends well exactly when the embedding batches start with the node batches' sizes. */
  lemma {:induction false} ZipLoadsIff<N, V>(nodes: seq<seq<N>>, vecs: seq<seq<V>>)
    ensures Zip(nodes, vecs).status == Loaded <==> Sizes(nodes) <= Sizes(vecs)
  {
    if nodes != [] && vecs != [] {
      assert Sizes(nodes) == [|nodes[0]|] + Sizes(nodes[1..]);
      assert Sizes(vecs) == [|vecs[0]|] + Sizes(vecs[1..]);
      ZipLoadsIff(nodes[1..], vecs[1..]);
    }
  }

  /** One load chunk: rows [s, e) of the nodes, with the embeddings of the same rows. */
  function LoadChunk<N, V>(nodes: seq<N>, shards: seq<seq<V>>, size: nat, s: nat, e: nat): Zipped<N, V>
    requires size > 0 && s <= e
  {
    Zip(Clip(Cut(nodes, size), 0, s, e), Clip(ShardBatches(shards, size), 0, s, e))
  }

  method ZipBatches<N, V>(batches: seq<seq<N>>, cols: seq<seq<V>>) returns (written: seq<(N, V)>, status: Status)
    ensures Zipped(written, status) == Zip(batches, cols)
  {
    written := [];
    for i := 0 to |batches|
      invariant i <= |cols|
      invariant Zip(batches, cols).status == Zip(batches[i..], cols[i..]).status
      invariant Zip(batches, cols).rows == written + Zip(batches[i..], cols[i..]).rows
    {
      assert batches[i..][1..] == batches[i + 1..];
      if i == |cols| { return written, ShortEmbeddings; }
      assert cols[i..][1..] == cols[i + 1..];
      if |cols[i]| != |batches[i]| { return written, AlignmentLost; }
      written := written + Pair(batches[i], cols[i]);
    }
    return written, Loaded;
  }

  /** What a child writes: rows with their vectors, or, when there is no shard, rows without. */
  datatype Written<N, V> = Written(rows: seq<(N, Option<V>)>, status: Status)

  function WithVectors<N, V>(pairs: seq<(N, V)>): (r: seq<(N, Option<V>)>)
    ensures |r| == |pairs| && forall i :: 0 <= i < |r| ==> r[i] == (pairs[i].0, Some(pairs[i].1))
  {
    seq(|pairs|, i requires 0 <= i < |pairs| => (pairs[i].0, Some(pairs[i].1)))
  }

  function Bare<N, V>(nodes: seq<N>): (r: seq<(N, Option<V>)>)
    ensures |r| == |nodes| && forall i :: 0 <= i < |r| ==> r[i] == (nodes[i], None)
  {
    seq(|nodes|, i requires 0 <= i < |nodes| => (nodes[i], None))
  }

  function ChunkRows<N, V>(nodes: seq<N>, shards: seq<seq<V>>, size: nat, s: nat, e: nat): Written<N, V>
    requires size > 0 && s <= e <= |nodes|
  {
    if shards == [] then Written(Bare(nodes[s..e]), Loaded)
    else
      var z := LoadChunk(nodes, shards, size, s, e);
      Written(WithVectors(z.rows), z.status)
  }

  method WriteBare<N, V>(batches: seq<seq<N>>) returns (written: seq<(N, Option<V>)>)
    ensures written == Bare(Flatten(batches))
  {
    written := [];
    for i := 0 to |batches|
      invariant written == Bare(Flatten(batches[..i]))
    {
      FlattenSnoc(batches[..i], batches[i]);
      assert batches[..i + 1] == batches[..i] + [batches[i]];
      BareAppend<N, V>(Flatten(batches[..i]), batches[i]);
      written := written + Bare(batches[i]);
    }
    assert batches[..|batches|] == batches;
  }

  lemma {:induction false} BareAppend<N, V>(a: seq<N>, b: seq<N>)
    ensures Bare<N, V>(a + b) == Bare<N, V>(a) + Bare<N, V>(b)
  {
  }

  method LoadNodesChild<N, V>(nodes: seq<N>, shards: seq<seq<V>>, size: nat, s: nat, e: nat)
    returns (written: seq<(N, Option<V>)>, status: Status)
    requires size > 0 && s <= e <= |nodes|
    ensures Written(written, status) == ChunkRows(nodes, shards, size, s, e)
  {
    var batches := RangedBatches(Cut(nodes, size), s, e);
    if shards == [] {
      FlattenCut(nodes, size);
      written := WriteBare(batches);
      status := Loaded;
    } else {
      var cols := EmbArrays(shards, size, s, e);
      var pairs;
      pairs, status := ZipBatches(batches, cols);
      written := WithVectors(pairs);
    }
  }

  /** Nodes and vectors by position, as far as both go. */
  function Matched<N, V>(nodes: seq<N>, vecs: seq<V>): (r: seq<(N, V)>)
    ensures |r| == Min(|nodes|, |vecs|) && forall i :: 0 <= i < |r| ==> r[i] == (nodes[i], vecs[i])
  {
    var n := Min(|nodes|, |vecs|);
    Pair(nodes[..n], vecs[..n])
  }

  /** With aligned shards that cover the nodes, every chunk loads, and each node
      gets its own vector. */
  lemma {:induction false} AlignedChunkLoads<N, V>(nodes: seq<N>, shards: seq<seq<V>>, size: nat, s: nat, e: nat)
    requires size > 0 && s <= e <= |nodes| == |Flatten(shards)| && Aligned(shards, size)
    ensures LoadChunk(nodes, shards, size, s, e) == Zipped(Pair(nodes, Flatten(shards))[s..e], Loaded)
  {
    ChunkWritesRightRows(nodes, shards, size, s, e);
    assert Matched(nodes, Flatten(shards)) == Pair(nodes, Flatten(shards));
    AlignedCut(shards, size);
    CutShape(nodes, Flatten(shards), size);
    var a, b := Cut(nodes, size), Cut(Flatten(shards), size);
    ClipShape(a, b, 0, s, e);
    ZipLoadsIff(Clip(a, 0, s, e), Clip(b, 0, s, e));
  }

  /** A chunk never pairs different positions: on any shards at all, what it writes before it
      ends is a prefix of its range of the matched rows, and one that ends well has written its range. */
  lemma {:induction false} ChunkWritesRightRows<N, V>(nodes: seq<N>, shards: seq<seq<V>>, size: nat, s: nat, e: nat)
    requires size > 0 && s <= e <= |nodes|
    ensures var z := LoadChunk(nodes, shards, size, s, e);
            z.rows <= Range(Matched(nodes, Flatten(shards)), s, e) && (z.status == Loaded ==> |z.rows| == e - s)
  {
    var rows := LoadChunk(nodes, shards, size, s, e).rows;
    ChunkPairs(nodes, shards, size, s, e);
    MatchedSlice(nodes, Flatten(shards), s, e, |rows|);
  }

  lemma {:induction false} ChunkPairs<N, V>(nodes: seq<N>, shards: seq<seq<V>>, size: nat, s: nat, e: nat)
    requires size > 0 && s <= e <= |nodes|
    ensures var z := LoadChunk(nodes, shards, size, s, e);
            var k, vecs := |z.rows|, Range(Flatten(shards), s, e);
            && k <= e - s && k <= |vecs| && z.rows == Pair(nodes[s..e][..k], vecs[..k])
            && (z.status == Loaded ==> k == e - s)
  {
    ChunkStreams(nodes, shards, size, s, e);
    ZipOf(Clip(Cut(nodes, size), 0, s, e), Clip(ShardBatches(shards, size), 0, s, e), nodes[s..e],
          Range(Flatten(shards), s, e));
  }

  lemma {:induction false} ZipOf<N, V>(a: seq<seq<N>>, b: seq<seq<V>>, x: seq<N>, y: seq<V>)
    requires Flatten(a) == x && Flatten(b) == y
    ensures var k := |Zip(a, b).rows|;
            && k <= |x| && k <= |y| && Zip(a, b).rows == Pair(x[..k], y[..k])
            && (Zip(a, b).status == Loaded ==> k == |x|)
  {
    ZipPairsByPosition(a, b);
  }

  lemma {:induction false} ChunkStreams<N, V>(nodes: seq<N>, shards: seq<seq<V>>, size: nat, s: nat, e: nat)
    requires size > 0 && s <= e <= |nodes|
    ensures Flatten(Clip(Cut(nodes, size), 0, s, e)) == nodes[s..e]
    ensures Flatten(Clip(ShardBatches(shards, size), 0, s, e)) == Range(Flatten(shards), s, e)
  {
    ClippedRows(Cut(nodes, size), s, e);
    FlattenCut(nodes, size);
    ClippedRows(ShardBatches(shards, size), s, e);
    FlattenShardBatches(shards, size);
  }

  lemma {:induction false} MatchedSlice<N, V>(nodes: seq<N>, vecs: seq<V>, s: nat, e: nat, k: nat)
    requires s <= e <= |nodes| && k <= e - s && k <= |Range(vecs, s, e)|
    ensures Pair(nodes[s..e][..k], Range(vecs, s, e)[..k]) <= Range(Matched(nodes, vecs), s, e)
  {
    var x, y := Pair(nodes[s..e][..k], Range(vecs, s, e)[..k]), Range(Matched(nodes, vecs), s, e);
    forall i | 0 <= i < k
      ensures x[i] == y[i]
    {
      assert nodes[s..e][..k][i] == nodes[s + i] && Range(vecs, s, e)[..k][i] == vecs[s + i];
      assert y[i] == Matched(nodes, vecs)[s + i];
    }
  }

  lemma {:induction false} ClipWhole<T>(batches: seq<seq<T>>, pos: nat, e: nat)
    requires e == pos + |Flatten(batches)| && forall i :: 0 <= i < |batches| ==> batches[i] != []
    ensures Clip(batches, pos, 0, e) == batches
    decreases |batches|
  {
    if batches != [] {
      if |batches| > 1 { assert Flatten(batches[1..]) == batches[1] + Flatten(batches[1..][1..]); }
      var b := batches[0];
      ClipWhole(batches[1..], pos + |b|, e);
      assert b[Max(0, 0 - pos)..Min(|b|, e - pos)] == b;
      assert batches == [b] + batches[1..];
    }
  }

  lemma {:induction false} CutNonempty<T>(rows: seq<T>, size: nat)
    requires size > 0
    ensures forall i :: 0 <= i < |Cut(rows, size)| ==> Cut(rows, size)[i] != []
  {
    if |rows| > size {
      CutNonempty(rows[size..], size);
      assert Cut(rows, size) == [rows[..size]] + Cut(rows[size..], size);
    }
  }

  lemma {:induction false} ShardBatchesNonempty<T>(shards: seq<seq<T>>, size: nat)
    requires size > 0
    ensures forall i :: 0 <= i < |ShardBatches(shards, size)| ==> ShardBatches(shards, size)[i] != []
  {
    if shards != [] {
      CutNonempty(shards[0], size);
      ShardBatchesNonempty(shards[1..], size);
    }
  }

  lemma {:induction false} SumOfSizes<A, B>(a: seq<seq<A>>, b: seq<seq<B>>)
    requires Sizes(a) <= Sizes(b) && |Flatten(a)| == |Flatten(b)|
    requires forall i :: 0 <= i < |b| ==> b[i] != []
    ensures Sizes(a) == Sizes(b)
    decreases |a|
  {
    if a != [] {
      assert |a[0]| == Sizes(a)[0] == Sizes(b)[0] == |b[0]|;
      assert Sizes(a[1..]) == Sizes(a)[1..] && Sizes(b[1..]) == Sizes(b)[1..];
      SumOfSizes(a[1..], b[1..]);
      assert Sizes(a) == [|a[0]|] + Sizes(a[1..]) && Sizes(b) == [|b[0]|] + Sizes(b[1..]);
    }
  }

  /** The alignment condition is exact: loading the whole table in one chunk ends well if
      and only if every shard but the last is a whole number of batches. */
  lemma {:induction false} WholeLoadIffAligned<N, V>(nodes: seq<N>, shards: seq<seq<V>>, size: nat)
    requires size > 0 && |nodes| == |Flatten(shards)|
    requires forall i :: 0 <= i < |shards| ==> shards[i] != []
    ensures LoadChunk(nodes, shards, size, 0, |nodes|).status == Loaded <==> Aligned(shards, size)
  {
    var a, b := Cut(nodes, size), ShardBatches(shards, size);
    FlattenCut(nodes, size);
    FlattenShardBatches(shards, size);
    CutNonempty(nodes, size);
    ShardBatchesNonempty(shards, size);
    ClipWhole(a, 0, |nodes|);
    ClipWhole(b, 0, |nodes|);
    ZipLoadsIff(a, b);
    CutShape(nodes, Flatten(shards), size);
    InStepIffAligned(shards, size);
    if Sizes(a) <= Sizes(b) { SumOfSizes(a, b); }
  }

  // ---- one chunk, exactly -----------------------------------------------------------------

  /** The rows at which batches end. */
  function Ends<T>(batches: seq<seq<T>>, pos: nat): (r: seq<nat>)
    ensures |r| == |batches|
  {
    if batches == [] then [] else [pos + |batches[0]|] + Ends(batches[1..], pos + |batches[0]|)
  }

  ghost predicate Rising(ends: seq<nat>) { forall i, j :: 0 <= i < j < |ends| ==> ends[i] < ends[j] }

  /** The sizes of the pieces into which these ends cut rows [s, e). */
  function Pieces(ends: seq<nat>, s: nat, e: nat): seq<nat> {
    if ends == [] || s >= e then []
    else if ends[0] <= s then Pieces(ends[1..], s, e)
    else [Min(ends[0], e) - s] + Pieces(ends[1..], ends[0], e)
  }

  lemma {:induction false} EndsRise<T>(batches: seq<seq<T>>, pos: nat)
    requires forall i :: 0 <= i < |batches| ==> batches[i] != []
    ensures Rising([pos] + Ends(batches, pos))
    decreases |batches|
  {
    if batches != [] {
      var next := pos + |batches[0]|;
      EndsRise(batches[1..], next);
      StillRising(pos, [next] + Ends(batches[1..], next));
    }
  }

  lemma {:induction false} StillRising(first: nat, rest: seq<nat>)
    requires Rising(rest) && rest != [] && first < rest[0]
    ensures Rising([first] + rest)
  {
    var all := [first] + rest;
    forall i, j | 0 <= i < j < |all|
      ensures all[i] < all[j]
    {
      assert all[j] == rest[j - 1] && (j > 1 ==> rest[0] < rest[j - 1]);
    }
  }

  lemma {:induction false} EndsAbove<T>(batches: seq<seq<T>>, pos: nat, c: nat)
    requires forall i :: 0 <= i < |batches| ==> batches[i] != []
    requires c <= pos
    ensures c !in Ends(batches, pos)
  {
    EndsRise(batches, pos);
    var ends, all := Ends(batches, pos), [pos] + Ends(batches, pos);
    assert forall i :: 0 <= i < |ends| ==> ends[i] == all[i + 1] > all[0];
  }

  lemma {:induction false} EndsLast<T>(batches: seq<seq<T>>, pos: nat)
    requires batches != []
    ensures Ends(batches, pos)[|batches| - 1] == pos + |Flatten(batches)|
    decreases |batches|
  {
    var next := pos + |batches[0]|;
    if |batches| > 1 {
      EndsLast(batches[1..], next);
      assert Ends(batches, pos)[|batches| - 1] == Ends(batches[1..], next)[|batches| - 2];
    } else {
      assert Flatten(batches) == batches[0] + Flatten(batches[1..]) == batches[0] + [];
    }
  }

  lemma {:induction false} ClipPieces<T>(batches: seq<seq<T>>, pos: nat, s: nat, e: nat)
    requires s < e && forall i :: 0 <= i < |batches| ==> batches[i] != []
    ensures Sizes(Clip(batches, pos, s, e)) == Pieces(Ends(batches, pos), Max(s, pos), e)
    decreases |batches|
  {
    if batches != [] {
      var b, next := batches[0], pos + |batches[0]|;
      var here, later := Yield(b, pos, s, e), Ends(batches[1..], next);
      YieldPiece(b, pos, s, e, later);
      if next < e {
        ClipPieces(batches[1..], next, s, e);
        SizesAppend(here, Clip(batches[1..], next, s, e));
      } else {
        assert here + [] == here && Sizes(here) + [] == Sizes(here);
      }
    }
  }

  lemma {:induction false} YieldPiece<T>(b: seq<T>, pos: nat, s: nat, e: nat, later: seq<nat>)
    requires s < e && b != []
    ensures Pieces([pos + |b|] + later, Max(s, pos), e)
         == Sizes(Yield(b, pos, s, e)) + Pieces(later, Max(s, pos + |b|), e)
  {
    var next := pos + |b|;
    assert ([next] + later)[1..] == later;
    if next > s && pos < e {
      assert Sizes(Yield(b, pos, s, e)) == [Min(next, e) - Max(s, pos)];
    } else {
      assert Sizes(Yield(b, pos, s, e)) == [];
    }
  }

  /** No end lies strictly between. */
  ghost predicate SameInside(a: seq<nat>, b: seq<nat>, s: nat, e: nat) {
    forall c: nat :: s < c < e ==> (c in a <==> c in b)
  }

  lemma {:induction false} DropEnd(a: seq<nat>, b: seq<nat>, s: nat, e: nat)
    requires a != [] && a[0] <= s
    ensures SameInside(a, b, s, e) <==> SameInside(a[1..], b, s, e)
  {
    forall c | s < c < e
      ensures c in a <==> c in a[1..]
    {
      assert a == [a[0]] + a[1..];
    }
  }

  /** Two ways of cutting rows give pieces of the same sizes exactly when they cut at the same rows. */
  lemma {:induction false} SamePiecesIff(a: seq<nat>, b: seq<nat>, s: nat, e: nat)
    requires Covers(a, e) && Covers(b, e) && s < e
    ensures Pieces(a, s, e) == Pieces(b, s, e) <==> SameInside(a, b, s, e)
    decreases |a| + |b|
  {
    if a[0] <= s {
      TailCovers(a, e);
      DropEnd(a, b, s, e);
      SamePiecesIff(a[1..], b, s, e);
    } else if b[0] <= s {
      TailCovers(b, e);
      DropEnd(b, a, s, e);
      SamePiecesIff(a, b[1..], s, e);
    } else if a[0] < e && a[0] == b[0] {
      assert SameInside(a, b, s, e) <==> Pieces(a[1..], a[0], e) == Pieces(b[1..], a[0], e) by {
        TailCovers(a, e);
        TailCovers(b, e);
        DropFirst(a, b, s, e);
        SamePiecesIff(a[1..], b[1..], a[0], e);
      }
      SameTail(a[0] - s, Pieces(a[1..], a[0], e), Pieces(b[1..], a[0], e));
    } else {
      FirstCutsDiffer(a, b, s, e);
    }
  }

  /** Rising ends that reach row e. */
  ghost predicate Covers(ends: seq<nat>, e: nat) { Rising(ends) && ends != [] && ends[|ends| - 1] >= e }

  lemma {:induction false} TailCovers(ends: seq<nat>, e: nat)
    requires Covers(ends, e) && ends[0] < e
    ensures Covers(ends[1..], e)
  {
    assert |ends| > 1 && ends[1..][|ends| - 2] == ends[|ends| - 1];
  }

  lemma {:induction false} SameTail(x: nat, a: seq<nat>, b: seq<nat>)
    ensures [x] + a == [x] + b <==> a == b
  {
    assert ([x] + a)[1..] == a && ([x] + b)[1..] == b;
  }

  lemma {:induction false} DropFirst(a: seq<nat>, b: seq<nat>, s: nat, e: nat)
    requires Rising(a) && Rising(b) && a != [] && b != [] && s < a[0] == b[0] < e
    ensures SameInside(a, b, s, e) <==> SameInside(a[1..], b[1..], a[0], e)
  {
    assert a == [a[0]] + a[1..] && b == [b[0]] + b[1..];
    assert forall i :: 0 <= i < |a[1..]| ==> a[1..][i] > a[0];
    assert forall i :: 0 <= i < |b[1..]| ==> b[1..][i] > a[0];
    forall c | s < c < e
      ensures c <= a[0] ==> (c in a <==> c == a[0]) && (c in b <==> c == a[0])
      ensures c > a[0] ==> (c in a <==> c in a[1..]) && (c in b <==> c in b[1..])
    {
    }
  }

  lemma {:induction false} FirstCutsDiffer(a: seq<nat>, b: seq<nat>, s: nat, e: nat)
    requires Rising(a) && Rising(b) && a != [] && b != [] && s < e && s < a[0] && s < b[0]
    requires !(a[0] < e && a[0] == b[0])
    ensures Pieces(a, s, e) == Pieces(b, s, e) <==> SameInside(a, b, s, e)
  {
    var x, y := Min(a[0], e), Min(b[0], e);
    assert Pieces(a, s, e)[0] == x - s && Pieces(b, s, e)[0] == y - s;
    assert forall c :: c in a ==> c >= a[0];
    assert forall c :: c in b ==> c >= b[0];
    if x == y {
      assert Pieces(a[1..], a[0], e) == [] && Pieces(b[1..], b[0], e) == [];
    } else if x < y {
      assert a[0] in a && a[0] !in b;
    } else {
      assert b[0] in b && b[0] !in a;
    }
  }

  lemma {:induction false} CutEnds<T>(rows: seq<T>, size: nat, pos: nat, c: nat)
    requires size > 0 && pos < c < pos + |rows|
    ensures c in Ends(Cut(rows, size), pos) <==> Peels(c - pos, size)
    decreases |rows|
  {
    if |rows| > size {
      var rest := rows[size..];
      assert Ends(Cut(rows, size), pos) == [pos + size] + Ends(Cut(rest, size), pos + size) by {
        assert Cut(rows, size)[1..] == Cut(rest, size);
      }
      if c > pos + size {
        CutEnds(rest, size, pos + size, c);
      } else {
        CutNonempty(rest, size);
        EndsAbove(Cut(rest, size), pos + size, c);
        assert Peels(size, size);
      }
    } else {
      assert Ends([rows], pos) == [pos + |rows|] + Ends([rows][1..], pos + |rows|) == [pos + |rows|];
    }
  }

  /** A chunk [s, e) loads if and only if the embedding batches end, strictly inside it, exactly at the multiples
      of the batch size. */
  lemma {:induction false} ChunkLoadsIff<N, V>(nodes: seq<N>, shards: seq<seq<V>>, size: nat, s: nat, e: nat)
    requires size > 0 && s < e <= |nodes| == |Flatten(shards)|
    ensures LoadChunk(nodes, shards, size, s, e).status == Loaded
       <==> CutsFit(shards, size, s, e)
  {
    var a, b := Cut(nodes, size), ShardBatches(shards, size);
    assert LoadChunk(nodes, shards, size, s, e).status == Loaded <==> SameInside(Ends(a, 0), Ends(b, 0), s, e) by {
      ChunkLoadsIffSizes(nodes, shards, size, s, e);
      SameSizesOfStreams(nodes, shards, size, s, e);
    }
    forall c: nat | s < c < e
      ensures c in Ends(a, 0) <==> IsMultiple(c, size)
    {
      CutEnds(nodes, size, 0, c);
      PeelsIff(c, size);
    }
  }

  lemma {:induction false} SameSizesOfStreams<N, V>(nodes: seq<N>, shards: seq<seq<V>>, size: nat, s: nat, e: nat)
    requires size > 0 && s < e <= |nodes| == |Flatten(shards)|
    ensures var a, b := Cut(nodes, size), ShardBatches(shards, size);
            Sizes(Clip(a, 0, s, e)) == Sizes(Clip(b, 0, s, e)) <==> SameInside(Ends(a, 0), Ends(b, 0), s, e)
  {
    CutNonempty(nodes, size);
    ShardBatchesNonempty(shards, size);
    FlattenCut(nodes, size);
    FlattenShardBatches(shards, size);
    SameSizesIff(Cut(nodes, size), ShardBatches(shards, size), s, e);
  }

  predicate IsMultiple(c: nat, size: nat)
    requires size > 0
  {
    c % size == 0
  }

  ghost predicate CutsFit<V>(shards: seq<seq<V>>, size: nat, s: nat, e: nat)
    requires size > 0
  {
    forall c: nat :: s < c < e ==> (c in Ends(ShardBatches(shards, size), 0) <==> IsMultiple(c, size))
  }

  lemma {:induction false} SameSizesIff<A, B>(a: seq<seq<A>>, b: seq<seq<B>>, s: nat, e: nat)
    requires s < e <= |Flatten(a)| == |Flatten(b)|
    requires forall i :: 0 <= i < |a| ==> a[i] != []
    requires forall i :: 0 <= i < |b| ==> b[i] != []
    ensures Sizes(Clip(a, 0, s, e)) == Sizes(Clip(b, 0, s, e)) <==> SameInside(Ends(a, 0), Ends(b, 0), s, e)
  {
    ClipPieces(a, 0, s, e);
    ClipPieces(b, 0, s, e);
    EndsCover(a, e);
    EndsCover(b, e);
    SamePiecesIff(Ends(a, 0), Ends(b, 0), s, e);
  }

  lemma {:induction false} EndsCover<T>(batches: seq<seq<T>>, e: nat)
    requires 0 < e <= |Flatten(batches)| && forall i :: 0 <= i < |batches| ==> batches[i] != []
    ensures Covers(Ends(batches, 0), e)
  {
    EndsRise(batches, 0);
    EndsLast(batches, 0);
    var ends, all := Ends(batches, 0), [0] + Ends(batches, 0);
    assert forall i :: 0 <= i < |ends| ==> ends[i] == all[i + 1];
  }

  lemma {:induction false} ChunkLoadsIffSizes<N, V>(nodes: seq<N>, shards: seq<seq<V>>, size: nat, s: nat, e: nat)
    requires size > 0 && s < e <= |nodes| == |Flatten(shards)|
    ensures LoadChunk(nodes, shards, size, s, e).status == Loaded
       <==> Sizes(Clip(Cut(nodes, size), 0, s, e)) == Sizes(Clip(ShardBatches(shards, size), 0, s, e))
  {
    var x, y := Clip(Cut(nodes, size), 0, s, e), Clip(ShardBatches(shards, size), 0, s, e);
    ZipLoadsIff(x, y);
    if Sizes(x) <= Sizes(y) {
      ChunkStreams(nodes, shards, size, s, e);
      ShardBatchesNonempty(shards, size);
      ClipNonempty(ShardBatches(shards, size), 0, s, e);
      SumOfSizes(x, y);
    }
  }

  lemma {:induction false} ClipNonempty<T>(batches: seq<seq<T>>, pos: nat, s: nat, e: nat)
    requires s < e && forall i :: 0 <= i < |batches| ==> batches[i] != []
    ensures forall i :: 0 <= i < |Clip(batches, pos, s, e)| ==> Clip(batches, pos, s, e)[i] != []
    decreases |batches|
  {
    if batches != [] { ClipNonempty(batches[1..], pos + |batches[0]|, s, e); }
  }
}
