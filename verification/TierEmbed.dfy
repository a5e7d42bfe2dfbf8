/** The embedding stage of the three-tier pipeline: parts are written in place without a
    temporary file, corrupt parts are removed on start, and a restarted run
    selects the rows whose `text_id` is not below the rows already embedded. */
module TierEmbed {
  import opened Seqs

  datatype Row<T> = Row(textId: nat, text: T)

  // ---- text ids -------------------------------------------------------------------

  /** Row r carries text_id r. */
  ghost predicate Indexed<T>(rows: seq<Row<T>>) {
    forall r :: 0 <= r < |rows| ==> rows[r].textId == r
  }

  /** The chunked section_text loop: each row group numbers its rows from the running offset. */
  method AssignTextIds<T>(groups: seq<seq<T>>) returns (written: seq<seq<Row<T>>>)
    ensures Indexed(Flatten(written))
    ensures |Flatten(written)| == |Flatten(groups)|
    ensures forall r :: 0 <= r < |Flatten(groups)| ==> Flatten(written)[r].text == Flatten(groups)[r]
  {
    written := [];
    var offset := 0;
    for g := 0 to |groups|
      invariant offset == |Flatten(groups[..g])| == |Flatten(written)|
      invariant Indexed(Flatten(written))
      invariant forall r :: 0 <= r < offset ==> Flatten(written)[r].text == Flatten(groups[..g])[r]
    {
      var rows := groups[g];
      assert groups[..g + 1] == groups[..g] + [rows];
      FlattenSnoc(groups[..g], rows);
      if |rows| > 0 {
        var chunk := seq(|rows|, i requires 0 <= i < |rows| => Row(i + offset, rows[i]));
        FlattenSnoc(written, chunk);
        written := written + [chunk];
        offset := offset + |chunk|;
      }
    }
    assert groups[..|groups|] == groups;
  }

  // ---- the resume filter --------------------------------------------------------------

  function Since<T>(rows: seq<Row<T>>, k: nat): seq<Row<T>> {
    if rows == [] then []
    else (if rows[0].textId >= k then [rows[0]] else []) + Since(rows[1..], k)
  }

  /** The scanner's batches: the filter may leave a batch short or empty. */
  function Scan<T>(batches: seq<seq<Row<T>>>, k: nat): (r: seq<seq<Row<T>>>)
    ensures |r| == |batches|
    ensures forall i :: 0 <= i < |batches| ==> r[i] == Since(batches[i], k)
  {
    seq(|batches|, i requires 0 <= i < |batches| => Since(batches[i], k))
  }

  lemma {:induction false} SinceAppend<T>(a: seq<Row<T>>, b: seq<Row<T>>, k: nat)
    ensures Since(a + b, k) == Since(a, k) + Since(b, k)
  {
    if a == [] {
      assert a + b == b;
    } else {
      assert (a + b)[0] == a[0] && (a + b)[1..] == a[1..] + b;
      SinceAppend(a[1..], b, k);
      var first := if a[0].textId < k then [] else [a[0]];
      Regroup(first, Since(a[1..], k), Since(b, k));
    }
  }

  lemma {:induction false} ScanRows<T>(batches: seq<seq<Row<T>>>, k: nat)
    ensures Flatten(Scan(batches, k)) == Since(Flatten(batches), k)
  {
    if batches != [] {
      SinceAppend(batches[0], Flatten(batches[1..]), k);
      ScanRows(batches[1..], k);
      assert Scan(batches, k)[1..] == Scan(batches[1..], k);
    }
  }

  lemma {:induction false} SinceNone<T>(rows: seq<Row<T>>, k: nat)
    requires forall r :: 0 <= r < |rows| ==> rows[r].textId < k
    ensures Since(rows, k) == []
  {
    if rows != [] { SinceNone(rows[1..], k); }
  }

  lemma {:induction false} SinceAll<T>(rows: seq<Row<T>>, k: nat)
    requires forall r :: 0 <= r < |rows| ==> rows[r].textId >= k
    ensures Since(rows, k) == rows
  {
    if rows != [] { SinceAll(rows[1..], k); }
  }

  /** Because text ids are row numbers, the filter selects exactly the rows from `k` on. */
  lemma {:induction false} FilterSelectsRest<T>(batches: seq<seq<Row<T>>>, k: nat)
    requires Indexed(Flatten(batches)) && k <= |Flatten(batches)|
    ensures Flatten(Scan(batches, k)) == Flatten(batches)[k..]
  {
    var rows := Flatten(batches);
    ScanRows(batches, k);
    assert rows == rows[..k] + rows[k..];
    SinceAppend(rows[..k], rows[k..], k);
    SinceNone(rows[..k], k);
    SinceAll(rows[k..], k);
  }

  // ---- one run ----------------------------------------------------------------------------

  /** How a run ends, after writing `batches` batches: by itself, by an exception (the `finally`
      closes the open part) or by a kill (the open part has no footer). `started` says whether the
      writer of a next part had just been created. */
  datatype Fate = Completes | Raises(batches: nat, started: bool) | Killed(batches: nat, started: bool)

  /** A part file on disk; a file without footer cannot be read back. */
  datatype PartFile<V> = Good(rows: seq<V>) | Corrupt

  /** Valid parts in number order, and what lies at the next part number. */
  datatype Disk<V> = Disk(done: seq<seq<V>>, next: Option<PartFile<V>>)

  /** A run in progress: closed parts and the rows of the open one. */
  datatype Progress<V> = Progress(done: seq<seq<V>>, open: Option<seq<V>>)

  /** Write one batch, then close the part if it has reached its size. */
  function Write<V>(p: Progress<V>, table: seq<V>, maxRows: nat): Progress<V> {
    var rows := (if p.open.Some? then p.open.value else []) + table;
    if |rows| >= maxRows then Progress(p.done + [rows], None) else Progress(p.done, Some(rows))
  }

  function WriteAll<V>(p: Progress<V>, tables: seq<seq<V>>, maxRows: nat): Progress<V>
    decreases |tables|
  {
    if tables == [] then p
    else Write(WriteAll(p, tables[..|tables| - 1], maxRows), tables[|tables| - 1], maxRows)
  }

  function Begun<V>(p: Progress<V>, started: bool): Progress<V> {
    if started && p.open.None? then p.(open := Some([])) else p
  }

  /** Closing a part that got no rows leaves a readable but empty file. */
  function Close<V>(p: Progress<V>, before: Option<PartFile<V>>): Disk<V> {
    match p.open
    case None => Disk(p.done, before)
    case Some(rows) => if rows == [] then Disk(p.done, Some(Good([]))) else Disk(p.done + [rows], None)
  }

  function Abandon<V>(p: Progress<V>, before: Option<PartFile<V>>): Disk<V> {
    match p.open
    case None => Disk(p.done, before)
    case Some(_) => Disk(p.done, Some(Corrupt))
  }

  /** What discovery keeps at the next part number: a corrupt file is removed. */
  function Cleaned<V>(next: Option<PartFile<V>>): Option<PartFile<V>> {
    if next == Some(Corrupt) then None else next
  }

  /** How many of the remaining batches a run writes. */
  function StopsAt(total: nat, fate: Fate): (n: nat)
    ensures n <= total && (fate.Completes? ==> n == total)
  {
    if fate.Completes? then total else Min(fate.batches, total)
  }

  /** Whether it stops right after creating the writer of its next part. */
  predicate StopsOpening(total: nat, fate: Fate) {
    !fate.Completes? && fate.started && StopsAt(total, fate) < total
  }

  /** The run when it stops. */
  function Stopped<V>(done: seq<seq<V>>, tables: seq<seq<V>>, maxRows: nat, fate: Fate): Progress<V> {
    Begun(WriteAll(Progress(done, None), tables[..StopsAt(|tables|, fate)], maxRows), StopsOpening(|tables|, fate))
  }

  /** The disk after a run over the remaining `tables`. A leftover empty part is overwritten as
      soon as a writer opens. */
  function Leaves<V>(d: Disk<V>, tables: seq<seq<V>>, maxRows: nat, fate: Fate): Disk<V> {
    var p := Stopped(d.done, tables, maxRows, fate);
    var before := if StopsAt(|tables|, fate) == 0 && !StopsOpening(|tables|, fate) then Cleaned(d.next) else None;
    if fate.Killed? then Abandon(p, before) else Close(p, before)
  }

  function Tables<T, V>(enc: T -> V, batches: seq<seq<Row<T>>>): (r: seq<seq<V>>)
    ensures |r| == |batches|
    ensures forall i :: 0 <= i < |batches| ==> r[i] == Vectors(enc, batches[i])
  {
    seq(|batches|, i requires 0 <= i < |batches| => Vectors(enc, batches[i]))
  }

  function Vectors<T, V>(enc: T -> V, rows: seq<Row<T>>): (r: seq<V>)
    ensures |r| == |rows| && forall i :: 0 <= i < |r| ==> r[i] == enc(rows[i].text)
  {
    seq(|rows|, i requires 0 <= i < |rows| => enc(rows[i].text))
  }

  function AfterRun<T, V>(d: Disk<V>, enc: T -> V, batches: seq<seq<Row<T>>>, maxRows: nat, fate: Fate): Disk<V> {
    var k := |Flatten(d.done)|;
    if k >= |Flatten(batches)| then d.(next := Cleaned(d.next))
    else Leaves(d, Tables(enc, Scan(batches, k)), maxRows, fate)
  }

  /** One run over one batching of the texts. */
  datatype Run<T> = Run(batches: seq<seq<Row<T>>>, fate: Fate)

  function AfterRuns<T, V>(d: Disk<V>, enc: T -> V, maxRows: nat, runs: seq<Run<T>>): Disk<V>
    decreases |runs|
  {
    if runs == [] then d
    else AfterRuns(AfterRun(d, enc, runs[0].batches, maxRows, runs[0].fate), enc, maxRows, runs[1..])
  }

  // ---- what every history keeps -----------------------------------------------------------

  /** Valid parts are numbered without gap, non-empty, bounded, and hold a prefix of the embeddings;
      the file at the next number, if any, holds no rows. */
  ghost predicate Inv<V>(d: Disk<V>, vecs: seq<V>, maxRows: nat, maxBatch: nat) {
    && Flatten(d.done) <= vecs
    && (forall i :: 0 <= i < |d.done| ==> 0 < |d.done[i]| < maxRows + maxBatch)
    && (d.next.Some? ==> d.next.value == Corrupt || d.next.value == Good([]))
  }

  function Rows<V>(p: Progress<V>): seq<V> {
    Flatten(p.done) + (if p.open.Some? then p.open.value else [])
  }

  ghost predicate Midway<V>(p: Progress<V>, maxRows: nat, maxBatch: nat) {
    && (forall i :: 0 <= i < |p.done| ==> 0 < |p.done[i]| < maxRows + maxBatch)
    && (p.open.Some? ==> |p.open.value| < maxRows)
  }

  lemma {:induction false} WriteRows<V>(p: Progress<V>, table: seq<V>, maxRows: nat)
    ensures Rows(Write(p, table, maxRows)) == Rows(p) + table
  {
    var x, y := Flatten(p.done), if p.open.Some? then p.open.value else [];
    assert x + (y + table) == (x + y) + table;
    if |y + table| >= maxRows {
      FlattenSnoc(p.done, y + table);
      assert Rows(Write(p, table, maxRows)) == x + (y + table) + [];
    }
  }

  lemma {:induction false} WriteKeeps<V>(p: Progress<V>, table: seq<V>, maxRows: nat, maxBatch: nat)
    requires maxRows > 0 && Midway(p, maxRows, maxBatch) && |table| <= maxBatch
    ensures Midway(Write(p, table, maxRows), maxRows, maxBatch)
  {}

  lemma {:induction false} WriteAllKeeps<V>(p: Progress<V>, tables: seq<seq<V>>, maxRows: nat, maxBatch: nat)
    requires maxRows > 0 && Midway(p, maxRows, maxBatch)
    requires forall i :: 0 <= i < |tables| ==> |tables[i]| <= maxBatch
    ensures Midway(WriteAll(p, tables, maxRows), maxRows, maxBatch)
    ensures Rows(WriteAll(p, tables, maxRows)) == Rows(p) + Flatten(tables)
    decreases |tables|
  {
    if tables != [] {
      var last := |tables| - 1;
      WriteAllKeeps(p, tables[..last], maxRows, maxBatch);
      WriteKeeps(WriteAll(p, tables[..last], maxRows), tables[last], maxRows, maxBatch);
      WriteRows(WriteAll(p, tables[..last], maxRows), tables[last], maxRows);
      FlattenSnoc(tables[..last], tables[last]);
      assert tables == tables[..last] + [tables[last]];
      var x, y, z := Rows(p), Flatten(tables[..last]), tables[last];
      assert (x + y) + z == x + (y + z);
    }
  }

  lemma {:induction false} CloseKeepsInv<V>(p: Progress<V>, before: Option<PartFile<V>>, vecs: seq<V>, maxRows: nat,
                                            maxBatch: nat)
    requires Midway(p, maxRows, maxBatch) && Rows(p) <= vecs
    requires before.Some? ==> before.value == Corrupt || before.value == Good([])
    ensures Inv(Close(p, before), vecs, maxRows, maxBatch) && Flatten(Close(p, before).done) == Rows(p)
    ensures Inv(Abandon(p, before), vecs, maxRows, maxBatch)
  {
    if p.open.Some? { FlattenSnoc(p.done, p.open.value); }
  }

  lemma {:induction false} StoppedKeeps<V>(done: seq<seq<V>>, tables: seq<seq<V>>, maxRows: nat, fate: Fate,
                                           maxBatch: nat)
    requires maxRows > 0 && Midway(Progress(done, None), maxRows, maxBatch)
    requires forall i :: 0 <= i < |tables| ==> |tables[i]| <= maxBatch
    ensures Midway(Stopped(done, tables, maxRows, fate), maxRows, maxBatch)
    ensures Rows(Stopped(done, tables, maxRows, fate)) <= Flatten(done) + Flatten(tables)
    ensures fate == Completes ==> Rows(Stopped(done, tables, maxRows, fate)) == Flatten(done) + Flatten(tables)
  {
    var n := StopsAt(|tables|, fate);
    var start := Progress(done, None);
    WriteAllKeeps(start, tables[..n], maxRows, maxBatch);
    BegunKeeps(WriteAll(start, tables[..n], maxRows), StopsOpening(|tables|, fate), maxRows, maxBatch);
    assert Rows(start) == Flatten(done);
    FirstRows(Flatten(done), tables, n);
  }

  lemma {:induction false} BegunKeeps<V>(p: Progress<V>, started: bool, maxRows: nat, maxBatch: nat)
    requires maxRows > 0 && Midway(p, maxRows, maxBatch)
    ensures Midway(Begun(p, started), maxRows, maxBatch) && Rows(Begun(p, started)) == Rows(p)
  {}

  lemma {:induction false} FirstRows<V>(rows: seq<V>, tables: seq<seq<V>>, n: nat)
    requires n <= |tables|
    ensures rows + Flatten(tables[..n]) <= rows + Flatten(tables)
    ensures n == |tables| ==> rows + Flatten(tables[..n]) == rows + Flatten(tables)
  {
    FlattenAppend(tables[..n], tables[n..]);
    assert tables == tables[..n] + tables[n..];
  }

  lemma {:induction false} LeavesKeepsInv<V>(d: Disk<V>, tables: seq<seq<V>>, maxRows: nat, fate: Fate, maxBatch: nat)
    requires maxRows > 0 && Inv(d, Flatten(d.done) + Flatten(tables), maxRows, maxBatch)
    requires forall i :: 0 <= i < |tables| ==> |tables[i]| <= maxBatch
    ensures Inv(Leaves(d, tables, maxRows, fate), Flatten(d.done) + Flatten(tables), maxRows, maxBatch)
    ensures fate == Completes ==> Flatten(Leaves(d, tables, maxRows, fate).done) == Flatten(d.done) + Flatten(tables)
  {
    StoppedKeeps(d.done, tables, maxRows, fate, maxBatch);
    var p := Stopped(d.done, tables, maxRows, fate);
    CloseKeepsInv(p, None, Flatten(d.done) + Flatten(tables), maxRows, maxBatch);
    CloseKeepsInv(p, Cleaned(d.next), Flatten(d.done) + Flatten(tables), maxRows, maxBatch);
  }

  lemma {:induction false} FlattenTables<T, V>(enc: T -> V, batches: seq<seq<Row<T>>>)
    ensures Flatten(Tables(enc, batches)) == Vectors(enc, Flatten(batches))
  {
    if batches != [] {
      FlattenTables(enc, batches[1..]);
      assert Tables(enc, batches)[1..] == Tables(enc, batches[1..]);
    }
  }

  lemma {:induction false} SinceShorter<T>(rows: seq<Row<T>>, k: nat)
    ensures |Since(rows, k)| <= |rows|
  {
    if rows != [] { SinceShorter(rows[1..], k); }
  }

  lemma {:induction false} RunKeepsInv<T, V>(d: Disk<V>, enc: T -> V, batches: seq<seq<Row<T>>>, maxRows: nat,
                                             fate: Fate, maxBatch: nat)
    requires maxRows > 0 && Indexed(Flatten(batches))
    requires forall i :: 0 <= i < |batches| ==> |batches[i]| <= maxBatch
    requires Inv(d, Vectors(enc, Flatten(batches)), maxRows, maxBatch)
    ensures Inv(AfterRun(d, enc, batches, maxRows, fate), Vectors(enc, Flatten(batches)), maxRows, maxBatch)
    ensures fate == Completes ==>
            Flatten(AfterRun(d, enc, batches, maxRows, fate).done) == Vectors(enc, Flatten(batches))
  {
    var rows, k := Flatten(batches), |Flatten(d.done)|;
    if k < |rows| {
      FilterSelectsRest(batches, k);
      var scan := Scan(batches, k);
      FlattenTables(enc, scan);
      assert Flatten(d.done) + Vectors(enc, rows[k..]) == Vectors(enc, rows);
      forall i | 0 <= i < |scan|
        ensures |scan[i]| <= maxBatch
      {
        SinceShorter(batches[i], k);
      }
      LeavesKeepsInv(d, Tables(enc, scan), maxRows, fate, maxBatch);
    }
  }

  // ---- what each way of ending keeps --------------------------------------------------------------

  /** Parts closed by rotation have reached their size, and the earlier ones stay. */
  lemma {:induction false} ClosedAreFull<V>(done: seq<seq<V>>, tables: seq<seq<V>>, maxRows: nat)
    ensures var p := WriteAll(Progress(done, None), tables, maxRows);
            done <= p.done && forall i :: |done| <= i < |p.done| ==> |p.done[i]| >= maxRows
    decreases |tables|
  {
    if tables != [] { ClosedAreFull(done, tables[..|tables| - 1], maxRows); }
  }

  lemma {:induction false} LeavesRows<V>(d: Disk<V>, tables: seq<seq<V>>, maxRows: nat, fate: Fate)
    requires maxRows > 0
    ensures var after, n := Leaves(d, tables, maxRows, fate), StopsAt(|tables|, fate);
            var rows := Flatten(d.done) + Flatten(tables[..n]);
            && (!fate.Killed? ==> Flatten(after.done) == rows && after.next != Some(Corrupt))
            && (fate.Killed? ==> Flatten(after.done) <= rows && |rows| < |Flatten(after.done)| + maxRows)
            && (fate.Killed? && Flatten(after.done) != rows ==> after.next == Some(Corrupt))
            && d.done <= after.done
            && (forall i :: |d.done| <= i < |after.done| - 1 ==> |after.done[i]| >= maxRows)
            && (fate.Killed? ==> forall i :: |d.done| <= i < |after.done| ==> |after.done[i]| >= maxRows)
  {
    var n := StopsAt(|tables|, fate);
    var p := WriteAll(Progress(d.done, None), tables[..n], maxRows);
    OpenIsShort(Progress(d.done, None), tables[..n], maxRows);
    ClosedAreFull(d.done, tables[..n], maxRows);
    var q := Begun(p, StopsOpening(|tables|, fate));
    assert Rows(Progress(d.done, None)) == Flatten(d.done) && Rows(q) == Rows(p);
    if q.open.Some? { FlattenSnoc(q.done, q.open.value); }
  }

  lemma {:induction false} OpenIsShort<V>(p: Progress<V>, tables: seq<seq<V>>, maxRows: nat)
    requires maxRows > 0 && (p.open.Some? ==> |p.open.value| < maxRows)
    ensures var q := WriteAll(p, tables, maxRows);
            (q.open.Some? ==> |q.open.value| < maxRows) && Rows(q) == Rows(p) + Flatten(tables)
    decreases |tables|
  {
    if tables != [] {
      var last := |tables| - 1;
      OpenIsShort(p, tables[..last], maxRows);
      WriteRows(WriteAll(p, tables[..last], maxRows), tables[last], maxRows);
      FlattenSnoc(tables[..last], tables[last]);
      assert tables == tables[..last] + [tables[last]];
      Regroup(Rows(p), Flatten(tables[..last]), tables[last]);
    }
  }

  /** What a run keeps: after an exception, or by itself, the embeddings of every batch it has written, with no corrupt
      part; after a kill all of them but fewer than a part's worth, which are in a corrupt part. Parts closed by
      rotation have reached their size. */
  lemma {:induction false} RunKeepsWritten<T, V>(d: Disk<V>, enc: T -> V, batches: seq<seq<Row<T>>>, maxRows: nat,
                                                 fate: Fate)
    requires maxRows > 0 && Indexed(Flatten(batches)) && |Flatten(d.done)| < |Flatten(batches)|
    ensures var after, scan := AfterRun(d, enc, batches, maxRows, fate), Scan(batches, |Flatten(d.done)|);
            var n := if fate.Completes? then |scan| else Min(fate.batches, |scan|);
            var rows := Flatten(d.done) + Vectors(enc, Flatten(scan[..n]));
            && (!fate.Killed? ==> Flatten(after.done) == rows && after.next != Some(Corrupt))
            && (fate.Killed? ==> Flatten(after.done) <= rows && |rows| < |Flatten(after.done)| + maxRows)
            && (fate.Killed? && Flatten(after.done) != rows ==> after.next == Some(Corrupt))
            && d.done <= after.done
            && (forall i :: |d.done| <= i < |after.done| - 1 ==> |after.done[i]| >= maxRows)
            && (fate.Killed? ==> forall i :: |d.done| <= i < |after.done| ==> |after.done[i]| >= maxRows)
  {
    var scan := Scan(batches, |Flatten(d.done)|);
    var n := StopsAt(|scan|, fate);
    LeavesRows(d, Tables(enc, scan), maxRows, fate);
    assert Tables(enc, scan)[..n] == Tables(enc, scan[..n]);
    FlattenTables(enc, scan[..n]);
  }

  lemma {:induction false} LeavesNext<V>(d: Disk<V>, tables: seq<seq<V>>, maxRows: nat, fate: Fate)
    requires maxRows > 0 && !fate.Completes?
    ensures var after, n := Leaves(d, tables, maxRows, fate), Min(fate.batches, |tables|);
            && (n == 0 && !(fate.started && n < |tables|) ==> after == d.(next := Cleaned(d.next)))
            && (n > 0 || (fate.started && n < |tables|) ==>
                  after.next.None? || after.next.value == if fate.Killed? then Corrupt else Good([]))
            && (fate.started && n < |tables| && fate.Killed? ==> after.next == Some(Corrupt))
            && (fate.started && n < |tables| && fate.Raises? ==>
                  (after.next.None? <==> |after.done| > |d.done| && |after.done[|after.done| - 1]| < maxRows))
            && (n == |tables| ==> after == Leaves(d, tables, maxRows, fate.(started := false)))
  {
    var n := StopsAt(|tables|, fate);
    OpenIsShort(Progress(d.done, None), tables[..n], maxRows);
    ClosedAreFull(d.done, tables[..n], maxRows);
  }

  /** What a run that dies leaves at the next part number: what was readable there if it has written and opened
      nothing; after opening a part, a corrupt file if it is killed, and otherwise an empty one unless the part got
      rows. With all batches written there is no part left to open. */
  lemma {:induction false} RunLeavesNext<T, V>(d: Disk<V>, enc: T -> V, batches: seq<seq<Row<T>>>, maxRows: nat,
                                               fate: Fate)
    requires maxRows > 0 && !fate.Completes? && |Flatten(d.done)| < |Flatten(batches)|
    ensures var after, n := AfterRun(d, enc, batches, maxRows, fate), Min(fate.batches, |batches|);
            var opens := fate.started && n < |batches|;
            && (n == 0 && !opens ==>
                  after.done == d.done && after.next == if d.next == Some(Corrupt) then None else d.next)
            && (n > 0 || opens ==> after.next.None? || after.next.value == if fate.Killed? then Corrupt else Good([]))
            && (opens && fate.Killed? ==> after.next == Some(Corrupt))
            && (opens && fate.Raises? ==>
                  (after.next.None? <==> |after.done| > |d.done| && |after.done[|after.done| - 1]| < maxRows))
            && (n == |batches| ==> after == AfterRun(d, enc, batches, maxRows, fate.(started := false)))
  {
    LeavesNext(d, Tables(enc, Scan(batches, |Flatten(d.done)|)), maxRows, fate);
  }

  /** A run over a complete set of parts only removes a corrupt one. */
  lemma {:induction false} CompleteSetStays<T, V>(d: Disk<V>, enc: T -> V, batches: seq<seq<Row<T>>>, maxRows: nat,
                                                  fate: Fate)
    requires |Flatten(d.done)| >= |Flatten(batches)|
    ensures var after := AfterRun(d, enc, batches, maxRows, fate);
            after.done == d.done && after.next == if d.next == Some(Corrupt) then None else d.next
  {}

  ghost predicate Batching<T>(batches: seq<seq<Row<T>>>, rows: seq<Row<T>>, maxBatch: nat) {
    Flatten(batches) == rows && forall i :: 0 <= i < |batches| ==> |batches[i]| <= maxBatch
  }

  ghost predicate SomeCompletes<T>(runs: seq<Run<T>>) { exists i :: 0 <= i < |runs| && runs[i].fate == Completes }

  /** After any mix of completions, exceptions and kills, with any batching of the texts in each run, the valid parts
      hold the embeddings of a prefix of the texts; if some run completes, of all of them. */
  lemma {:induction false} HistoryKeepsPrefix<T, V>(d: Disk<V>, enc: T -> V, rows: seq<Row<T>>, maxRows: nat,
                                                    runs: seq<Run<T>>, maxBatch: nat)
    requires maxRows > 0 && Indexed(rows) && forall i :: 0 <= i < |runs| ==> Batching(runs[i].batches, rows, maxBatch)
    requires Inv(d, Vectors(enc, rows), maxRows, maxBatch)
    ensures Inv(AfterRuns(d, enc, maxRows, runs), Vectors(enc, rows), maxRows, maxBatch)
    ensures SomeCompletes(runs) || Flatten(d.done) == Vectors(enc, rows)
            ==> Flatten(AfterRuns(d, enc, maxRows, runs).done) == Vectors(enc, rows)
    decreases |runs|
  {
    if runs != [] {
      var next := AfterRun(d, enc, runs[0].batches, maxRows, runs[0].fate);
      assert Batching(runs[0].batches, rows, maxBatch);
      RunKeepsInv(d, enc, runs[0].batches, maxRows, runs[0].fate, maxBatch);
      HistoryKeepsPrefix(next, enc, rows, maxRows, runs[1..], maxBatch);
      if SomeCompletes(runs) && runs[0].fate != Completes {
        var i :| 0 <= i < |runs| && runs[i].fate == Completes;
        assert runs[1..][i - 1] == runs[i];
      }
    }
  }

  // ---- the stage itself ---------------------------------------------------------------------

  class PartsDir<V> {
    var parts: map<nat, PartFile<V>>

    /** The directory holds the numbered valid parts of `d` and what lies at the next number. */
    ghost predicate Shows(d: Disk<V>)
      reads this
    {
      && (forall i: nat :: i in parts <==> i < |d.done| || (i == |d.done| && d.next.Some?))
      && (forall i :: 0 <= i < |d.done| ==> i in parts && parts[i] == Good(d.done[i]) && d.done[i] != [])
      && (d.next.Some? ==> |d.done| in parts && parts[|d.done|] == d.next.value)
      && (d.next.Some? ==> d.next.value == Corrupt || d.next.value == Good([]))
    }

    /** Counts valid parts and their rows, and removes a corrupt one. */
    method Discover(ghost d: Disk<V>) returns (valid: nat, rows: nat)
      requires Shows(d)
      modifies this
      ensures valid == |d.done| && rows == |Flatten(d.done)|
      ensures Shows(d.(next := Cleaned(d.next)))
    {
      valid, rows := 0, 0;
      while valid in parts && parts[valid].Good? && parts[valid].rows != []
        invariant Shows(d) && valid <= |d.done| && rows == |Flatten(d.done[..valid])|
        decreases |d.done| - valid
      {
        FlattenSnoc(d.done[..valid], d.done[valid]);
        assert d.done[..valid + 1] == d.done[..valid] + [d.done[valid]];
        rows := rows + |parts[valid].rows|;
        valid := valid + 1;
      }
      assert d.done[..valid] == d.done;
      if valid in parts && parts[valid].Corrupt? { parts := parts - {valid}; }
    }

    /** The open part has no footer yet; `before` is what lies at the next number when none is open. */
    ghost predicate Writing(p: Progress<V>, before: Option<PartFile<V>>, partIdx: nat, open: bool, rows: seq<V>)
      reads this
    {
      && partIdx == |p.done| && p.open == (if open then Some(rows) else None) && (!open ==> rows == [])
      && Shows(Disk(p.done, if open then Some(Corrupt) else before))
    }

    method OpenPart(partIdx: nat, ghost p: Progress<V>, ghost before: Option<PartFile<V>>)
      requires Writing(p, before, partIdx, false, [])
      modifies this
      ensures Writing(p.(open := Some([])), None, partIdx, true, [])
    {
      parts := parts[partIdx := Corrupt];
    }

    method ClosePart(partIdx: nat, rows: seq<V>, ghost p: Progress<V>)
      requires Writing(p, None, partIdx, true, rows)
      modifies this
      ensures Shows(Close(p, None))
    {
      parts := parts[partIdx := Good(rows)];
    }

    method WriteBatch(partIdx: nat, open: bool, rows: seq<V>, table: seq<V>, maxRows: nat,
                      ghost p: Progress<V>, ghost before: Option<PartFile<V>>)
      returns (partIdx': nat, open': bool, rows': seq<V>)
      requires maxRows > 0 && Writing(p, before, partIdx, open, rows)
      modifies this
      ensures Writing(Write(p, table, maxRows), None, partIdx', open', rows')
    {
      partIdx', open', rows' := partIdx, true, rows + table;
      if !open { OpenPart(partIdx, p, before); }
      if |rows'| >= maxRows {
        ClosePart(partIdx, rows', Progress(p.done, Some(rows')));
        partIdx', open', rows' := partIdx + 1, false, [];
      }
    }

    /** The embedding loop, up to where the run stops. */
    method WriteScan<T>(scan: seq<seq<Row<T>>>, enc: T -> V, maxRows: nat, fate: Fate, first: nat, ghost d: Disk<V>)
      returns (partIdx: nat, open: bool, rows: seq<V>, i: nat)
      requires maxRows > 0 && first == |d.done| && Shows(d)
      modifies this
      ensures i == StopsAt(|scan|, fate)
      ensures Writing(WriteAll(Progress(d.done, None), Tables(enc, scan)[..i], maxRows),
                      if i == 0 then d.next else None, partIdx, open, rows)
    {
      ghost var tables := Tables(enc, scan);
      partIdx, open, rows, i := first, false, [], 0;
      while i < |scan| && (fate.Completes? || i < fate.batches)
        invariant i <= StopsAt(|scan|, fate)
        invariant Writing(WriteAll(Progress(d.done, None), tables[..i], maxRows),
                          if i == 0 then d.next else None, partIdx, open, rows)
      {
        assert tables[..i + 1][..i] == tables[..i];
        partIdx, open, rows := WriteBatch(partIdx, open, rows, Vectors(enc, scan[i]), maxRows,
                                          WriteAll(Progress(d.done, None), tables[..i], maxRows),
                                          if i == 0 then d.next else None);
        i := i + 1;
      }
    }

    method StageEmbed<T>(batches: seq<seq<Row<T>>>, enc: T -> V, maxRows: nat, fate: Fate, ghost d: Disk<V>)
      requires maxRows > 0 && Shows(d)
      modifies this
      ensures Shows(AfterRun(d, enc, batches, maxRows, fate))
    {
      var first, embedded := Discover(d);
      if embedded >= |Flatten(batches)| { return; }
      var scan := Scan(batches, embedded);
      ghost var clean := d.(next := Cleaned(d.next));
      var partIdx, open, rows, i := WriteScan(scan, enc, maxRows, fate, first, clean);
      ghost var p := WriteAll(Progress(d.done, None), Tables(enc, scan)[..i], maxRows);
      if !fate.Completes? && fate.started && i < |scan| && !open {
        OpenPart(partIdx, p, if i == 0 then clean.next else None);
        open, rows := true, [];
      }
      p := Begun(p, StopsOpening(|scan|, fate));
      if open && !fate.Killed? { ClosePart(partIdx, rows, p); }
    }
  }

  // ---- why the corrupt part has to be the last one ---------------------------------------

  function ValidParts<V>(files: seq<PartFile<V>>): seq<seq<V>> {
    if files == [] then []
    else (if files[0].Good? && files[0].rows != [] then [files[0].rows] else []) + ValidParts(files[1..])
  }

  lemma {:induction false} AllValid<V>(files: seq<PartFile<V>>)
    requires forall i :: 0 <= i < |files| ==> files[i].Good? && files[i].rows != []
    ensures |ValidParts(files)| == |files|
  {
    if files != [] { AllValid(files[1..]); }
  }

  lemma {:induction false} OneCorruptCount<V>(files: seq<PartFile<V>>, j: nat)
    requires j < |files| && files[j] == Corrupt
    requires forall i :: 0 <= i < |files| && i != j ==> files[i].Good? && files[i].rows != []
    ensures |ValidParts(files)| == |files| - 1
  {
    if j == 0 { AllValid(files[1..]); } else { OneCorruptCount(files[1..], j - 1); }
  }

  /** The next part is numbered by the count of valid parts. With one corrupt part among them, that
      number is free exactly when the corrupt part is the last; otherwise the run would overwrite
      a valid part. */
  lemma {:induction false} NextNumberFreeIff<V>(files: seq<PartFile<V>>, j: nat)
    requires j < |files| && files[j] == Corrupt
    requires forall i :: 0 <= i < |files| && i != j ==> files[i].Good? && files[i].rows != []
    ensures var next := |ValidParts(files)|;
            next < |files| && (files[next].Good? <==> j < |files| - 1)
  {
    OneCorruptCount(files, j);
  }
}
