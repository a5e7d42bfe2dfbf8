/** The resumable embedding stage of the demo pipeline (`stage_embed`): shards are
    written to a temporary file and renamed when they rotate, and a restarted
    run continues after the rows its finished shards already hold. */
module EmbedStage {
  import opened Seqs
  import opened Multiples
  import opened PartFiles

  /** How one run of the stage ends: it finishes, or it dies after writing
      `batches` batches, either before (`rotated == false`) or after the
      rotation that precedes the next batch. */
  datatype Fate = Completes | Dies(batches: nat, rotated: bool)

  /** Shards renamed into place, and the rows in the open temporary file. */
  datatype Progress<V> = Progress(done: seq<seq<V>>, open: Option<seq<V>>)

  /** One run over one batching of the source, with the shard size it reads from its environment. */
  datatype Run<R> = Run(batches: seq<seq<R>>, shardRows: int, fate: Fate)

  // ---- what one run does ----------------------------------------------------

  /** Fast-forward over the first `skip` source rows. */
  function Skip<R>(batches: seq<seq<R>>, skip: nat): seq<seq<R>> {
    if batches == [] || skip == 0 then batches
    else if skip >= |batches[0]| then Skip(batches[1..], skip - |batches[0]|)
    else [batches[0][skip..]] + batches[1..]
  }

  function Tables<R, V>(enc: R -> V, batches: seq<seq<R>>): (r: seq<seq<V>>)
    ensures |r| == |batches|
    ensures forall i :: 0 <= i < |batches| ==> r[i] == Map(enc, batches[i])
  {
    seq(|batches|, i requires 0 <= i < |batches| => Map(enc, batches[i]))
  }

  /** Close and rename the open shard when it has reached `shardRows` rows. */
  function Rotate<V>(p: Progress<V>, shardRows: int): Progress<V> {
    if p.open.Some? && |p.open.value| >= shardRows then Progress(p.done + [p.open.value], None) else p
  }

  function Append<V>(p: Progress<V>, table: seq<V>): Progress<V> {
    Progress(p.done, Some((if p.open.Some? then p.open.value else []) + table))
  }

  function WriteAll<V>(p: Progress<V>, tables: seq<seq<V>>, shardRows: int): Progress<V>
    decreases |tables|
  {
    if tables == [] then p
    else
      var last := |tables| - 1;
      Append(Rotate(WriteAll(p, tables[..last], shardRows), shardRows), tables[last])
  }

  function Close<V>(p: Progress<V>): seq<seq<V>> {
    if p.open.Some? then p.done + [p.open.value] else p.done
  }

  /** The finished shards that a run over the remaining `tables` leaves on disk. */
  function Leaves<V>(done: seq<seq<V>>, tables: seq<seq<V>>, shardRows: int, fate: Fate): seq<seq<V>> {
    match fate
    case Completes => Close(WriteAll(Progress(done, None), tables, shardRows))
    case Dies(n, rotated) =>
      var p := WriteAll(Progress(done, None), tables[..Min(n, |tables|)], shardRows);
      if rotated && n < |tables| then Rotate(p, shardRows).done else p.done
  }

  /** The finished shards after one run that finds `done` on disk. */
  function AfterRun<R, V>(done: seq<seq<V>>, enc: R -> V, run: Run<R>): seq<seq<V>> {
    if |Flatten(done)| >= |Flatten(run.batches)| then done
    else Leaves(done, Tables(enc, Skip(run.batches, |Flatten(done)|)), run.shardRows, run.fate)
  }

  /** The finished shards after a history of runs, each restarted on what the one before left. */
  function AfterRuns<R, V>(done: seq<seq<V>>, enc: R -> V, runs: seq<Run<R>>): seq<seq<V>>
    decreases |runs|
  {
    if runs == [] then done else AfterRuns(AfterRun(done, enc, runs[0]), enc, runs[1..])
  }

  /** The shards that a run adds after skipping `n` rows. */
  function Added<R, V>(n: nat, enc: R -> V, run: Run<R>): seq<seq<V>> {
    if n >= |Flatten(run.batches)| then [] else Leaves([], Tables(enc, Skip(run.batches, n)), run.shardRows, run.fate)
  }

  /** The directory after one run. The run counts rows and files, whatever their numbers, and numbers its own shards
      from the count on. */
  function AfterRunIn<R, V>(d: Dir<V>, enc: R -> V, run: Run<R>): Dir<V> {
    Place(d, |Listed(d)|, Added(|Flatten(Listed(d))|, enc, run))
  }

  // ---- what every history keeps -----------------------------------------------

  ghost predicate Batching<R>(batches: seq<seq<R>>, rows: seq<R>, maxBatch: nat) {
    Flatten(batches) == rows && forall i :: 0 <= i < |batches| ==> |batches[i]| <= maxBatch
  }

  /** Finished shards hold the embeddings of a prefix of the source, in order. Where every run rotates between `lo` and
      `hi` rows, a shard short of `lo` can only be the last one of a finished stage. */
  ghost predicate Inv<V>(shards: seq<seq<V>>, vecs: seq<V>, lo: int, hi: int, maxBatch: nat) {
    && Flatten(shards) <= vecs
    && (forall i :: 0 <= i < |shards| ==> |shards[i]| < Max(hi, 1) + maxBatch)
    && (forall i :: 0 <= i < |shards| - 1 ==> |shards[i]| >= lo)
    && (Flatten(shards) == vecs || forall i :: 0 <= i < |shards| ==> |shards[i]| >= lo)
  }

  lemma {:induction false} SkipDropsRows<R>(batches: seq<seq<R>>, skip: nat, maxBatch: nat)
    requires skip <= |Flatten(batches)|
    requires forall i :: 0 <= i < |batches| ==> |batches[i]| <= maxBatch
    ensures Batching(Skip(batches, skip), Flatten(batches)[skip..], maxBatch)
  {
    if batches == [] || skip == 0 {
    } else if skip >= |batches[0]| {
      SkipDropsRows(batches[1..], skip - |batches[0]|, maxBatch);
    } else {
      var rest := [batches[0][skip..]] + batches[1..];
      assert rest[1..] == batches[1..];
      assert Flatten(rest) == Flatten(batches)[skip..];
    }
  }

  lemma {:induction false} FlattenTables<R, V>(enc: R -> V, batches: seq<seq<R>>)
    ensures Flatten(Tables(enc, batches)) == Map(enc, Flatten(batches))
  {
    if batches != [] {
      FlattenTables(enc, batches[1..]);
      assert Tables(enc, batches)[1..] == Tables(enc, batches[1..]);
    }
  }

  /** Rows finished or pending in a run. */
  function Rows<V>(p: Progress<V>): seq<V> {
    Flatten(p.done) + (if p.open.Some? then p.open.value else [])
  }

  ghost predicate Midway<V>(p: Progress<V>, lo: int, hi: int, maxBatch: nat) {
    && (forall i :: 0 <= i < |p.done| ==> lo <= |p.done[i]| < Max(hi, 1) + maxBatch)
    && (p.open.Some? ==> |p.open.value| < Max(hi, 1) + maxBatch)
  }

  lemma {:induction false} RotateRows<V>(p: Progress<V>, shardRows: int)
    ensures Rows(Rotate(p, shardRows)) == Rows(p)
  {
    if p.open.Some? { FlattenSnoc(p.done, p.open.value); }
  }

  lemma {:induction false} AppendRows<V>(p: Progress<V>, table: seq<V>)
    ensures Rows(Append(p, table)) == Rows(p) + table
  {
    Regroup(Flatten(p.done), if p.open.Some? then p.open.value else [], table);
  }

  /** Writing batches only moves rows from the source into the shards. */
  lemma {:induction false} WriteAllRows<V>(p: Progress<V>, tables: seq<seq<V>>, shardRows: int)
    ensures Rows(WriteAll(p, tables, shardRows)) == Rows(p) + Flatten(tables)
    decreases |tables|
  {
    if tables != [] {
      var last := |tables| - 1;
      WriteAllRows(p, tables[..last], shardRows);
      var q := WriteAll(p, tables[..last], shardRows);
      RotateRows(q, shardRows);
      AppendRows(Rotate(q, shardRows), tables[last]);
      FlattenSnoc(tables[..last], tables[last]);
      assert tables == tables[..last] + [tables[last]];
      Regroup(Rows(p), Flatten(tables[..last]), tables[last]);
    }
  }

  lemma {:induction false} WriteAllMidway<V>(p: Progress<V>, tables: seq<seq<V>>, shardRows: int, lo: int, hi: int,
                                             maxBatch: nat)
    requires lo <= shardRows <= hi && Midway(p, lo, hi, maxBatch)
    requires forall i :: 0 <= i < |tables| ==> |tables[i]| <= maxBatch
    ensures Midway(WriteAll(p, tables, shardRows), lo, hi, maxBatch)
    decreases |tables|
  {
    if tables != [] { WriteAllMidway(p, tables[..|tables| - 1], shardRows, lo, hi, maxBatch); }
  }

  lemma {:induction false} FlattenPrefix<V>(tables: seq<seq<V>>, n: nat)
    requires n <= |tables|
    ensures Flatten(tables[..n]) <= Flatten(tables)
  {
    FlattenAppend(tables[..n], tables[n..]);
    assert tables == tables[..n] + tables[n..];
  }

  lemma {:induction false} LeavesPrefix<V>(done: seq<seq<V>>, tables: seq<seq<V>>, shardRows: int, fate: Fate)
    ensures Flatten(Leaves(done, tables, shardRows, fate)) <= Flatten(done) + Flatten(tables)
    ensures fate == Completes ==> Flatten(Leaves(done, tables, shardRows, fate)) == Flatten(done) + Flatten(tables)
  {
    var p := Progress(done, None);
    match fate
    case Completes =>
      WriteAllRows(p, tables, shardRows);
      var q := WriteAll(p, tables, shardRows);
      if q.open.Some? { FlattenSnoc(q.done, q.open.value); }
    case Dies(n, _) =>
      var written := tables[..Min(n, |tables|)];
      WriteAllRows(p, written, shardRows);
      FlattenPrefix(tables, Min(n, |tables|));
      var q := WriteAll(p, written, shardRows);
      RotateRows(q, shardRows);
      assert Rows(q) <= Flatten(done) + Flatten(tables);
  }

  /** Whatever a run's fate, the shards it leaves satisfy the invariant. */
  lemma {:induction false} LeavesKeepsInv<V>(done: seq<seq<V>>, tables: seq<seq<V>>, shardRows: int, fate: Fate,
                                             lo: int, hi: int, maxBatch: nat)
    requires lo <= shardRows <= hi && Midway(Progress(done, None), lo, hi, maxBatch)
    requires forall i :: 0 <= i < |tables| ==> |tables[i]| <= maxBatch
    ensures Inv(Leaves(done, tables, shardRows, fate), Flatten(done) + Flatten(tables), lo, hi, maxBatch)
  {
    LeavesPrefix(done, tables, shardRows, fate);
    var p := Progress(done, None);
    match fate
    case Completes => WriteAllMidway(p, tables, shardRows, lo, hi, maxBatch);
    case Dies(n, _) => WriteAllMidway(p, tables[..Min(n, |tables|)], shardRows, lo, hi, maxBatch);
  }

  lemma {:induction false} RunKeepsInv<R, V>(done: seq<seq<V>>, enc: R -> V, run: Run<R>, rows: seq<R>, lo: int,
                                             hi: int, maxBatch: nat)
    requires Inv(done, Map(enc, rows), lo, hi, maxBatch)
    requires lo <= run.shardRows <= hi && Batching(run.batches, rows, maxBatch)
    ensures Inv(AfterRun(done, enc, run), Map(enc, rows), lo, hi, maxBatch)
    ensures run.fate == Completes ==> Flatten(AfterRun(done, enc, run)) == Map(enc, rows)
  {
    var n := |Flatten(done)|;
    if n < |rows| {
      SkipDropsRows(run.batches, n, maxBatch);
      var todo := Skip(run.batches, n);
      FlattenTables(enc, todo);
      RestOfMap(Flatten(done), enc, rows);
      LeavesKeepsInv(done, Tables(enc, todo), run.shardRows, run.fate, lo, hi, maxBatch);
      LeavesPrefix(done, Tables(enc, todo), run.shardRows, run.fate);
    }
  }

  /** Over every history of crashes and restarts, with any batching of the source and any shard
      size in each run, finished shards concatenate to the embeddings of a prefix of the
      source and keep their size bounds; if some run completes, they are all of it. */
  lemma {:induction false} HistoryKeepsPrefix<R, V>(done: seq<seq<V>>, enc: R -> V, runs: seq<Run<R>>, rows: seq<R>,
                                                    lo: int, hi: int, maxBatch: nat)
    requires Inv(done, Map(enc, rows), lo, hi, maxBatch)
    requires forall i :: 0 <= i < |runs| ==>
               lo <= runs[i].shardRows <= hi && Batching(runs[i].batches, rows, maxBatch)
    ensures Inv(AfterRuns(done, enc, runs), Map(enc, rows), lo, hi, maxBatch)
    ensures Flatten(done) <= Flatten(AfterRuns(done, enc, runs))
    ensures (exists i :: 0 <= i < |runs| && runs[i].fate == Completes)
            ==> Flatten(AfterRuns(done, enc, runs)) == Map(enc, rows)
    decreases |runs|
  {
    if runs != [] {
      var next := AfterRun(done, enc, runs[0]);
      RunKeepsInv(done, enc, runs[0], rows, lo, hi, maxBatch);
      RunKeepsShards(done, enc, runs[0]);
      FlattenPrefix(next, |done|);
      assert next[..|done|] == done;
      HistoryKeepsPrefix(next, enc, runs[1..], rows, lo, hi, maxBatch);
    }
  }

  lemma {:induction false} WriteAllKeepsShards<V>(p: Progress<V>, tables: seq<seq<V>>, shardRows: int)
    ensures p.done <= WriteAll(p, tables, shardRows).done
    decreases |tables|
  {
    if tables != [] { WriteAllKeepsShards(p, tables[..|tables| - 1], shardRows); }
  }

  /** No run renumbers, overwrites or drops a shard that is already in place. */
  lemma {:induction false} RunKeepsShards<R, V>(done: seq<seq<V>>, enc: R -> V, run: Run<R>)
    ensures done <= AfterRun(done, enc, run)
  {
    var tables := Tables(enc, Skip(run.batches, |Flatten(done)|));
    match run.fate
    case Completes => WriteAllKeepsShards(Progress(done, None), tables, run.shardRows);
    case Dies(n, _) => WriteAllKeepsShards(Progress(done, None), tables[..Min(n, |tables|)], run.shardRows);
  }

  // ---- directories in which numbers are missing ---------------------------------------------

  lemma {:induction false} WriteAllShift<V>(done: seq<seq<V>>, tables: seq<seq<V>>, shardRows: int)
    ensures var p := WriteAll(Progress([], None), tables, shardRows);
            WriteAll(Progress(done, None), tables, shardRows) == Progress(done + p.done, p.open)
    decreases |tables|
  {
    if tables == [] {
      assert done + [] == done;
    } else {
      WriteAllShift(done, tables[..|tables| - 1], shardRows);
      RotateShift(done, WriteAll(Progress([], None), tables[..|tables| - 1], shardRows), shardRows);
    }
  }

  lemma {:induction false} RotateShift<V>(done: seq<seq<V>>, p: Progress<V>, shardRows: int)
    ensures Rotate(Progress(done + p.done, p.open), shardRows)
         == Progress(done + Rotate(p, shardRows).done, Rotate(p, shardRows).open)
  {
    if p.open.Some? { Regroup(done, p.done, [p.open.value]); }
  }

  lemma {:induction false} LeavesShift<V>(done: seq<seq<V>>, tables: seq<seq<V>>, shardRows: int, fate: Fate)
    ensures Leaves(done, tables, shardRows, fate) == done + Leaves([], tables, shardRows, fate)
  {
    match fate
    case Completes =>
      WriteAllShift(done, tables, shardRows);
      var p := WriteAll(Progress([], None), tables, shardRows);
      if p.open.Some? { Regroup(done, p.done, [p.open.value]); }
    case Dies(n, _) =>
      var some := tables[..Min(n, |tables|)];
      WriteAllShift(done, some, shardRows);
      RotateShift(done, WriteAll(Progress([], None), some, shardRows), shardRows);
  }

  /** Where no number is missing, a run continues after the last one. */
  lemma {:induction false} RunWithoutGap<R, V>(d: Dir<V>, enc: R -> V, run: Run<R>)
    requires NoGap(d)
    ensures NoGap(AfterRunIn(d, enc, run)) && Listed(AfterRunIn(d, enc, run)) == AfterRun(Listed(d), enc, run)
  {
    var n := |Flatten(Listed(d))|;
    LeavesShift(Listed(d), Tables(enc, Skip(run.batches, n)), run.shardRows, run.fate);
    PlaceAfter(d, Added(n, enc, run));
  }

  /** A missing number stays missing: no run, whatever its fate, closes a gap or opens one, and where there is one no
      run writes before it. */
  lemma {:induction false} GapStays<R, V>(d: Dir<V>, enc: R -> V, run: Run<R>)
    ensures NoGap(AfterRunIn(d, enc, run)) <==> NoGap(d)
    ensures !NoGap(d) ==> Leading(AfterRunIn(d, enc, run)) == Leading(d)
  {
    if NoGap(d) {
      RunWithoutGap(d, enc, run);
    } else {
      NoGapIff(d);
      LeadingFirst(d);
      var g, c := |Leading(d)|, |Listed(d)|;
      var added := Added(|Flatten(Listed(d))|, enc, run);
      PlaceBeyond(d, c, added);
      var p := Place(d, c, added);
      if added != [] {
        PlaceAt(d, c, added, c);
        PlaceAt(d, c, added, g);
        assert p[c].Some? && p[g].None?;
      }
    }
  }

  lemma {:induction false} SkipRows<R>(batches: seq<seq<R>>, skip: nat)
    requires skip <= |Flatten(batches)| && forall i :: 0 <= i < |batches| ==> batches[i] != []
    ensures Flatten(Skip(batches, skip)) == Flatten(batches)[skip..]
    ensures forall i :: 0 <= i < |Skip(batches, skip)| ==> Skip(batches, skip)[i] != []
  {
    if batches == [] || skip == 0 {
    } else if skip >= |batches[0]| {
      SkipRows(batches[1..], skip - |batches[0]|);
    } else {
      var rest := [batches[0][skip..]] + batches[1..];
      assert rest[1..] == batches[1..];
      assert Flatten(rest) == Flatten(batches)[skip..];
    }
  }

  lemma {:induction false} WriteAllNonempty<V>(tables: seq<seq<V>>, shardRows: int)
    requires forall i :: 0 <= i < |tables| ==> tables[i] != []
    ensures var p := WriteAll(Progress([], None), tables, shardRows);
            (forall i :: 0 <= i < |p.done| ==> p.done[i] != []) && (p.open.Some? ==> p.open.value != [])
    decreases |tables|
  {
    if tables != [] { WriteAllNonempty(tables[..|tables| - 1], shardRows); }
  }

  /** Without empty batches a run adds no empty shard, and what it adds are the embeddings from row `n` on. */
  lemma {:induction false} AddedRows<R, V>(n: nat, enc: R -> V, run: Run<R>)
    requires n <= |Flatten(run.batches)| && forall i :: 0 <= i < |run.batches| ==> run.batches[i] != []
    ensures Flatten(Added(n, enc, run)) <= Map(enc, Flatten(run.batches))[n..]
    ensures forall i :: 0 <= i < |Added(n, enc, run)| ==> Added(n, enc, run)[i] != []
  {
    var todo := Skip(run.batches, n);
    var tables := Tables(enc, todo);
    SkipRows(run.batches, n);
    FlattenTables(enc, todo);
    assert Flatten(tables) == Map(enc, Flatten(run.batches))[n..];
    LeavesPrefix([], tables, run.shardRows, run.fate);
    assert [] + Flatten(tables) == Flatten(tables);
    match run.fate
    case Completes => WriteAllNonempty(tables, run.shardRows);
    case Dies(k, _) => WriteAllNonempty(tables[..Min(k, |tables|)], run.shardRows);
  }

  /** The failing rerun: the first of two shards is gone, so the run takes the rows of the other for the first ones and
      writes the remaining rows over it. The first rows are never embedded. */
  lemma {:induction false} RerunOverwrites<R, V>(enc: R -> V, rows: seq<R>, left: seq<V>, shardRows: int)
    requires 0 < |left| < |rows|
    ensures AfterRunIn([None, Some(left)], enc, Run([rows], shardRows, Completes))
         == [None, Some(Map(enc, rows[|left|..]))]
  {
    var d: Dir<V> := [None, Some(left)];
    var rest := rows[|left|..];
    assert d[1..] == [Some(left)] && d[1..][1..] == [];
    assert Listed(d) == [left] && Flatten([left]) == left + Flatten([left][1..]) == left;
    assert Flatten([rows]) == rows + Flatten([rows][1..]) == rows;
    assert Skip([rows], |left|) == [rest] + [rows][1..] == [rest];
    var tables := Tables(enc, [rest]);
    assert tables == [Map(enc, rest)] && tables[..0] == [];
    assert WriteAll(Progress([], None), tables, shardRows) == Progress([], Some([] + Map(enc, rest)));
    assert [] + Map(enc, rest) == Map(enc, rest);
    assert Leaves([], tables, shardRows, Completes) == [Map(enc, rest)];
    PlaceSnoc(d, 1, [], Map(enc, rest));
    assert [] + [Map(enc, rest)] == [Map(enc, rest)];
  }

  // ---- equal batches make equal shards -------------------------------------------

  /** Every finished shard holds exactly `size` rows, except the last of a finished stage. */
  ghost predicate Uniform<V>(shards: seq<seq<V>>, vecs: seq<V>, size: nat) {
    && Flatten(shards) <= vecs
    && (forall i :: 0 <= i < |shards| - 1 ==> |shards[i]| == size)
    && (Flatten(shards) == vecs || forall i :: 0 <= i < |shards| ==> |shards[i]| == size)
    && (forall i :: 0 <= i < |shards| ==> |shards[i]| > 0)
  }

  ghost predicate UniformMidway<V>(p: Progress<V>, size: nat, g: nat, full: bool)
    requires g > 0
  {
    && (forall i :: 0 <= i < |p.done| ==> |p.done[i]| == size)
    && (p.open.Some? ==> 0 < |p.open.value| <= size && (full ==> |p.open.value| % g == 0))
  }

  ghost predicate FullButLast<V>(tables: seq<seq<V>>, g: nat) {
    && (forall i :: 0 <= i < |tables| - 1 ==> |tables[i]| == g)
    && (tables != [] ==> 0 < |tables[|tables| - 1]| <= g)
  }

  /** `size` is the row count at which a shard made of `g`-row batches rotates. */
  ghost predicate RotatesAt(shardRows: int, g: nat, size: nat)
    requires g > 0
  {
    size % g == 0 && Max(shardRows, 1) <= size < Max(shardRows, 1) + g
  }

  lemma {:induction false} UniformWriteAll<V>(p: Progress<V>, tables: seq<seq<V>>, shardRows: int, g: nat, size: nat)
    requires g > 0 && FullButLast(tables, g) && RotatesAt(shardRows, g, size)
    requires UniformMidway(p, size, g, true)
    ensures UniformMidway(WriteAll(p, tables, shardRows), size, g, tables == [] || |tables[|tables| - 1]| == g)
    decreases |tables|
  {
    if tables != [] {
      var last := |tables| - 1;
      UniformWriteAll(p, tables[..last], shardRows, g, size);
      var q := WriteAll(p, tables[..last], shardRows);
      UniformRotate(q, shardRows, g, size);
      UniformAppend(Rotate(q, shardRows), tables[last], shardRows, g, size);
    }
  }

  lemma {:induction false} UniformAppend<V>(p: Progress<V>, table: seq<V>, shardRows: int, g: nat, size: nat)
    requires g > 0 && RotatesAt(shardRows, g, size) && UniformMidway(p, size, g, true)
    requires p.open.Some? ==> |p.open.value| < shardRows
    requires 0 < |table| <= g
    ensures UniformMidway(Append(p, table), size, g, |table| == g)
  {
    if p.open.Some? { RoomForOne(|p.open.value|, size, g); } else { RoomForOne(0, size, g); }
  }

  lemma {:induction false} UniformRotate<V>(p: Progress<V>, shardRows: int, g: nat, size: nat)
    requires g > 0 && RotatesAt(shardRows, g, size) && UniformMidway(p, size, g, true)
    ensures UniformMidway(Rotate(p, shardRows), size, g, true)
  {
    if p.open.Some? && |p.open.value| >= shardRows { MultiplesApart(|p.open.value|, size, g); }
  }

  lemma {:induction false} CutFullButLast<V>(rows: seq<V>, g: nat)
    requires g > 0
    ensures FullButLast(Cut(rows, g), g)
    ensures rows != [] ==> Cut(rows, g) != []
  {
    if |rows| > g {
      CutFullButLast(rows[g..], g);
      assert Cut(rows, g)[1..] == Cut(rows[g..], g);
    }
  }

  lemma {:induction false} TablesOfCut<R, V>(enc: R -> V, rows: seq<R>, g: nat)
    requires g > 0
    ensures Tables(enc, Cut(rows, g)) == Cut(Map(enc, rows), g)
  {
    if |rows| > g {
      TablesOfCut(enc, rows[g..], g);
      assert Map(enc, rows)[g..] == Map(enc, rows[g..]) && Map(enc, rows)[..g] == Map(enc, rows[..g]);
      assert Tables(enc, Cut(rows, g)) == [Map(enc, rows[..g])] + Tables(enc, Cut(rows[g..], g));
    }
  }

  lemma {:induction false} SkipOfCut<R>(rows: seq<R>, g: nat, skip: nat)
    requires g > 0 && Peels(skip, g) && skip <= |rows|
    ensures Skip(Cut(rows, g), skip) == Cut(rows[skip..], g)
    decreases |rows|
  {
    if skip == 0 {
      assert rows[skip..] == rows;
    } else if |rows| > g {
      SkipOfCut(rows[g..], g, skip - g);
      assert Cut(rows, g)[1..] == Cut(rows[g..], g) && rows[g..][skip - g..] == rows[skip..];
    }
  }

  lemma {:induction false} UniformRows<V>(shards: seq<seq<V>>, size: nat, g: nat)
    requires g > 0 && size % g == 0
    requires forall i :: 0 <= i < |shards| ==> |shards[i]| == size
    ensures |Flatten(shards)| % g == 0
  {
    if shards != [] {
      UniformRows(shards[1..], size, g);
      SumMod(size, |Flatten(shards[1..])|, g);
    }
  }

  /** A run whose reader cuts the source every `g` rows extends uniform shards uniformly. */
  lemma {:induction false} RunKeepsUniform<R, V>(done: seq<seq<V>>, enc: R -> V, run: Run<R>, rows: seq<R>, g: nat,
                                                 size: nat)
    requires g > 0 && run.batches == Cut(rows, g) && RotatesAt(run.shardRows, g, size)
    requires Uniform(done, Map(enc, rows), size)
    ensures Uniform(AfterRun(done, enc, run), Map(enc, rows), size)
  {
    FlattenCut(rows, g);
    var n := |Flatten(done)|;
    if n < |rows| {
      var rest := Map(enc, rows[n..]);
      assert AfterRun(done, enc, run) == Leaves(done, Cut(rest, g), run.shardRows, run.fate) by {
        UniformRows(done, size, g);
        ResumeOnCut(done, enc, run, rows, g);
      }
      assert Flatten(done) + rest == Map(enc, rows) by { RestOfMap(Flatten(done), enc, rows); }
      FlattenCut(rest, g);
      CutFullButLast(rest, g);
      LeavesUniform(done, Cut(rest, g), run.shardRows, run.fate, g, size);
    }
  }

  lemma {:induction false} RestOfMap<R, V>(first: seq<V>, enc: R -> V, rows: seq<R>)
    requires first <= Map(enc, rows)
    ensures first + Map(enc, rows[|first|..]) == Map(enc, rows)
  {
  }

  /** Resuming at a multiple of `g` never splits a batch. */
  lemma {:induction false} ResumeOnCut<R, V>(done: seq<seq<V>>, enc: R -> V, run: Run<R>, rows: seq<R>, g: nat)
    requires g > 0 && run.batches == Cut(rows, g) && |Flatten(done)| < |rows| && |Flatten(done)| % g == 0
    ensures AfterRun(done, enc, run)
         == Leaves(done, Cut(Map(enc, rows[|Flatten(done)|..]), g), run.shardRows, run.fate)
  {
    var n := |Flatten(done)|;
    FlattenCut(rows, g);
    PeelsIff(n, g);
    SkipOfCut(rows, g, n);
    TablesOfCut(enc, rows[n..], g);
  }

  lemma {:induction false} LeavesUniform<V>(done: seq<seq<V>>, tables: seq<seq<V>>, shardRows: int, fate: Fate, g: nat,
                                            size: nat)
    requires g > 0 && FullButLast(tables, g) && RotatesAt(shardRows, g, size)
    requires forall i :: 0 <= i < |done| ==> |done[i]| == size
    ensures Uniform(Leaves(done, tables, shardRows, fate), Flatten(done) + Flatten(tables), size)
  {
    var p := Progress(done, None);
    LeavesPrefix(done, tables, shardRows, fate);
    match fate
    case Completes => UniformWriteAll(p, tables, shardRows, g, size);
    case Dies(n, _) =>
      UniformWriteAll(p, tables[..Min(n, |tables|)], shardRows, g, size);
      if n < |tables| { UniformRotate(WriteAll(p, tables[..n], shardRows), shardRows, g, size); }
  }

  lemma {:induction false} UniformFrom<R, V>(done: seq<seq<V>>, enc: R -> V, runs: seq<Run<R>>, rows: seq<R>, g: nat,
                                             size: nat)
    requires g > 0 && Uniform(done, Map(enc, rows), size)
    requires forall i :: 0 <= i < |runs| ==> runs[i].batches == Cut(rows, g) && RotatesAt(runs[i].shardRows, g, size)
    ensures Uniform(AfterRuns(done, enc, runs), Map(enc, rows), size)
    decreases |runs|
  {
    if runs != [] {
      RunKeepsUniform(done, enc, runs[0], rows, g, size);
      UniformFrom(AfterRun(done, enc, runs[0]), enc, runs[1..], rows, g, size);
    }
  }

  /** Over every crash history of a stage whose reader cuts the source every `g` rows and whose runs
      have the same shard size, rounded up to a multiple of `g`, all shards but the last of a finished
      stage hold exactly that many rows. */
  lemma {:induction false} HistoryKeepsUniform<R, V>(enc: R -> V, runs: seq<Run<R>>, rows: seq<R>, g: nat, size: nat)
    requires g > 0
    requires forall i :: 0 <= i < |runs| ==>
               runs[i].batches == Cut(rows, g) && RoundUp(Max(runs[i].shardRows, 1), g) == size
    ensures Uniform(AfterRuns([], enc, runs), Map(enc, rows), size)
  {
    UniformFrom([], enc, runs, rows, g, size);
  }

  lemma {:induction false} NextBatch<R>(batches: seq<seq<R>>, i: nat, skip: nat, todo: seq<seq<R>>, written: nat)
    requires i < |batches| && written <= |todo| && Skip(batches[i..], skip) == todo[written..]
    ensures if 0 < skip && |batches[i]| <= skip then Skip(batches[i + 1..], skip - |batches[i]|) == todo[written..]
            else written < |todo| && todo[written] == batches[i][skip..] && todo[written + 1..] == batches[i + 1..]
  {
    assert batches[i..] == [batches[i]] + batches[i + 1..];
    if written < |todo| {
      assert todo[written] == todo[written..][0] && todo[written + 1..] == todo[written..][1..];
    }
  }

  lemma {:induction false} WriteNext<V>(p: Progress<V>, tables: seq<seq<V>>, n: nat, shardRows: int)
    requires n < |tables|
    ensures WriteAll(p, tables[..n + 1], shardRows)
         == Append(Rotate(WriteAll(p, tables[..n], shardRows), shardRows), tables[n])
  {
    assert tables[..n + 1][..n] == tables[..n];
  }

  /** Where a run is when it ends, completed or dead. */
  function Reached<V>(tables: seq<seq<V>>, shardRows: int, fate: Fate): Progress<V> {
    if fate.Completes? || fate.batches >= |tables| then WriteAll(Progress([], None), tables, shardRows)
    else
      var p := WriteAll(Progress([], None), tables[..fate.batches], shardRows);
      if fate.rotated then Rotate(p, shardRows) else p
  }

  /** Before batch `n` a run dies where it is, or after the rotation, or goes on. */
  lemma {:induction false} StopsOrGoesOn<V>(tables: seq<seq<V>>, n: nat, shardRows: int, fate: Fate, here: Progress<V>)
    requires n < |tables| && here == WriteAll(Progress([], None), tables[..n], shardRows)
    ensures WriteAll(Progress([], None), tables[..n + 1], shardRows) == Append(Rotate(here, shardRows), tables[n])
    ensures fate == Dies(n, false) ==> Reached(tables, shardRows, fate) == here
    ensures fate == Dies(n, true) ==> Reached(tables, shardRows, fate) == Rotate(here, shardRows)
  {
    WriteNext(Progress([], None), tables, n, shardRows);
  }

  lemma {:induction false} LeavesReached<V>(tables: seq<seq<V>>, shardRows: int, fate: Fate)
    ensures var p := Reached(tables, shardRows, fate);
            Leaves([], tables, shardRows, fate) == if fate.Completes? then Close(p) else p.done
  {
    assert tables[..|tables|] == tables;
  }

  // ---- the stage itself ----------------------------------------------------------

  /** The embeddings directory: `part-NNN.parquet` by number, and the `.tmp` files beside them. */
  class EmbedDir<V> {
    var parts: Dir<V>
    var tmps: map<nat, seq<V>>

    constructor ()
      ensures parts == [] && tmps == map[]
    {
      parts, tmps := [], map[];
    }

    /** Counts the finished shards and their rows. */
    method OnDisk() returns (files: nat, rows: nat)
      ensures files == |Listed(parts)| && rows == |Flatten(Listed(parts))|
    {
      files, rows := 0, 0;
      for i := 0 to |parts|
        invariant files == |Listed(parts[..i])| && rows == |Flatten(Listed(parts[..i]))|
      {
        ListedSnoc(parts, i);
        if parts[i].Some? {
          FlattenSnoc(Listed(parts[..i]), parts[i].value);
          files, rows := files + 1, rows + |parts[i].value|;
        }
      }
      assert parts[..|parts|] == parts;
    }

    /** `os.replace(cur_tmp, cur_final)`, over whatever has that name. */
    method Rename(shard: nat)
      requires shard <= |parts| && shard in tmps
      modifies this
      ensures tmps == old(tmps) - {shard}
      ensures |parts| == Max(old(|parts|), shard + 1) && parts[shard] == Some(old(tmps[shard]))
      ensures forall i :: 0 <= i < old(|parts|) && i != shard ==> parts[i] == old(parts[i])
    {
      parts := if shard < |parts| then parts[shard := Some(tmps[shard])] else parts + [Some(tmps[shard])];
      tmps := tmps - {shard};
    }

    /** The writer's view of a run that began on `base`: the shards it has placed there, the next number, and the open
        temporary file if there is one. */
    ghost predicate Shows(base: Dir<V>, p: Progress<V>, shard: nat, open: bool)
      reads this
    {
      && parts == Place(base, |Listed(base)|, p.done) && shard == |Listed(base)| + |p.done|
      && open == p.open.Some? && tmps == if open then map[shard := p.open.value] else map[]
    }

    method CloseShard(shard: nat, ghost base: Dir<V>, ghost p: Progress<V>)
      requires Shows(base, p, shard, true)
      modifies this
      ensures Shows(base, Progress(p.done + [p.open.value], None), shard + 1, false)
    {
      PlaceSnoc(base, |Listed(base)|, p.done, p.open.value);
      Rename(shard);
      assert parts == Put(old(parts), shard, p.open.value);
    }

    /** Rotation and writing of one batch; a run may die in between. */
    method EmbedBatch(shard: nat, open: bool, table: seq<V>, shardRows: int, dies: bool, ghost base: Dir<V>,
                      ghost p: Progress<V>)
      returns (shard': nat, open': bool)
      requires Shows(base, p, shard, open)
      modifies this
      ensures Shows(base, if dies then Rotate(p, shardRows) else Append(Rotate(p, shardRows), table), shard', open')
    {
      shard', open' := shard, open;
      if open && |tmps[shard]| >= shardRows {
        CloseShard(shard, base, p);
        shard', open' := shard + 1, false;
      }
      if !dies {
        tmps := tmps[shard' := (if open' then tmps[shard'] else []) + table];
        open' := true;
      }
    }

    /** Embeds table `n`, unless the run dies before or after the rotation. */
    method EmbedNext(n: nat, table: seq<V>, shardRows: int, fate: Fate, shard: nat, open: bool, ghost base: Dir<V>,
                     ghost tables: seq<seq<V>>)
      returns (shard': nat, open': bool, died: bool)
      requires n < |tables| && table == tables[n]
      requires Shows(base, WriteAll(Progress([], None), tables[..n], shardRows), shard, open)
      modifies this
      ensures died <==> fate.Dies? && fate.batches == n
      ensures died ==> Shows(base, Reached(tables, shardRows, fate), shard', open')
      ensures !died ==> Shows(base, WriteAll(Progress([], None), tables[..n + 1], shardRows), shard', open')
    {
      ghost var here := WriteAll(Progress([], None), tables[..n], shardRows);
      StopsOrGoesOn(tables, n, shardRows, fate, here);
      if fate == Dies(n, false) { return shard, open, true; }
      shard', open' := EmbedBatch(shard, open, table, shardRows, fate == Dies(n, true), base, here);
      died := fate == Dies(n, true);
    }

    /** The loop over the source's batches: fast-forward, then embed, up to where the run dies. */
    method EmbedBatches<R>(batches: seq<seq<R>>, enc: R -> V, shardRows: int, fate: Fate, first: nat, doneRows: nat)
      returns (shard: nat, open: bool)
      requires first == |Listed(parts)| && tmps == map[]
      modifies this
      ensures Shows(old(parts), Reached(Tables(enc, Skip(batches, doneRows)), shardRows, fate), shard, open)
    {
      ghost var base, todo := parts, Skip(batches, doneRows);
      ghost var tables := Tables(enc, todo);
      shard, open := first, false;
      var skip: nat, written: nat := doneRows, 0;
      for i := 0 to |batches|
        invariant written <= |todo| && Skip(batches[i..], skip) == todo[written..]
        invariant Shows(base, WriteAll(Progress([], None), tables[..written], shardRows), shard, open)
        invariant fate.Dies? ==> fate.batches >= written
      {
        var batch := batches[i];
        NextBatch(batches, i, skip, todo, written);
        if 0 < skip && |batch| <= skip {
          skip := skip - |batch|;
          continue;
        }
        batch, skip := batch[skip..], 0;
        assert Map(enc, batch) == tables[written];
        var died;
        shard, open, died := EmbedNext(written, Map(enc, batch), shardRows, fate, shard, open, base, tables);
        if died { return; }
        written := written + 1;
      }
      assert written == |todo| && tables[..written] == tables;
    }

    /** One run on any directory. */
    method StageEmbed<R>(run: Run<R>, enc: R -> V) returns (finished: bool)
      modifies this
      ensures parts == AfterRunIn(old(parts), enc, run)
      ensures finished ==> tmps == map[]
      ensures run.fate == Completes ==> finished
    {
      tmps := map[];
      var files, doneRows := OnDisk();
      if doneRows >= |Flatten(run.batches)| { return true; }
      ghost var tables, base := Tables(enc, Skip(run.batches, doneRows)), parts;
      LeavesReached(tables, run.shardRows, run.fate);
      var shard, open := EmbedBatches(run.batches, enc, run.shardRows, run.fate, files, doneRows);
      if run.fate.Dies? { return false; }
      if open { CloseShard(shard, base, Reached(tables, run.shardRows, run.fate)); }
      return true;
    }
  }
}
