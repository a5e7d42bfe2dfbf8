/** The chunked node load (`stage_load`): a parent starts a fresh process per
    row range; the engine may commit any prefix of what a dying process wrote,
    and a restarted parent resumes from the committed row count. */
module LoadStage {
  import opened Seqs

  /** What a child writes for a row range, and whether it gets to the end of the range. */
  datatype Piece<T> = Piece(rows: seq<T>, loads: bool)

  /** The rows there are to load, range by range. */
  datatype Source<!T> = Source(total: nat, piece: (nat, nat) -> Piece<T>)

  /** How one child goes: it runs or is killed. Unless it runs to the end of its range, any prefix of
      what it wrote may have been committed. */
  datatype Attempt = Runs(committed: nat) | Dies(committed: nat)

  /** One chunk: the second attempt is the retry in place, which is needed if the first one fails. The
      death of the parent is the death of both. */
  datatype Chunk = Chunk(first: Attempt, second: Attempt)

  /** One start of the parent. `uncounted` is the caught failure to count the existing rows. */
  datatype Start = Start(chunkRows: nat, rebuild: bool, uncounted: bool, deleteShards: bool, chunks: seq<Chunk>)

  datatype End<T> = End(table: seq<T>, finished: bool)

  /** A chunk that loads at once. */
  const ONCE := Chunk(Runs(0), Runs(0))

  ghost predicate Distinct<T>(s: seq<T>) {
    forall i, j :: 0 <= i < j < |s| ==> s[i] != s[j]
  }

  /** The source whose every range loads. */
  function Plain<T>(rows: seq<T>): Source<T> {
    Source(|rows|, (s: nat, e: nat) => if s <= e <= |rows| then Piece(rows[s..e], true) else Piece([], false))
  }

  // ---- what a parent does ------------------------------------------------------

  predicate Ok<T>(p: Piece<T>, a: Attempt) { p.loads && a.Runs? }

  /** The rows an attempt leaves in the table. */
  function Commits<T>(p: Piece<T>, a: Attempt): (r: seq<T>)
    ensures r <= p.rows
  {
    if Ok(p, a) then p.rows else p.rows[..Min(a.committed, |p.rows|)]
  }

  /** One iteration of the parent loop: the rows it adds, and whether the parent goes on. */
  function OneChunk<T>(p: Piece<T>, c: Chunk): End<T> {
    if Ok(p, c.first) then End(p.rows, true)
    else End(Commits(p, c.first) + Commits(p, c.second), Ok(p, c.second))
  }

  function ChunkLoop<T>(src: Source<T>, table: seq<T>, s: nat, chunkRows: nat, chunks: seq<Chunk>): End<T>
    requires chunkRows > 0
    decreases src.total - s
  {
    if s >= src.total then End(table, true)
    else if chunks == [] then End(table, false)
    else
      var e := Min(s + chunkRows, src.total);
      var one := OneChunk(src.piece(s, e), chunks[0]);
      if one.finished then ChunkLoop(src, table + one.table, e, chunkRows, chunks[1..])
      else End(table + one.table, false)
  }

  /** The row count the parent resumes from. */
  function Loaded<T>(table: seq<T>, run: Start): nat {
    if run.rebuild || run.uncounted then 0 else |table|
  }

  /** One start of the parent. A table that counts zero rows is cleared before the first chunk. */
  function AfterStart<T>(src: Source<T>, table: seq<T>, run: Start): End<T>
    requires run.chunkRows > 0
  {
    var loaded := Loaded(table, run);
    if loaded >= src.total then End(if run.rebuild then [] else table, false)
    else ChunkLoop(src, if loaded == 0 then [] else table, loaded, run.chunkRows, run.chunks)
  }

  function AfterStarts<T>(src: Source<T>, table: seq<T>, runs: seq<Start>): seq<T>
    requires forall i :: 0 <= i < |runs| ==> runs[i].chunkRows > 0
    decreases |runs|
  {
    if runs == [] then table else AfterStarts(src, AfterStart(src, table, runs[0]).table, runs[1..])
  }

  // ---- bookkeeping on counts alone -----------------------------------------------

  /** How many rows the table counts, and whether it still is free of repeated or skipped rows. */
  datatype Books = Books(rows: nat, clean: bool)

  /** A chunk does no harm when it loads at once or one of its two attempts left nothing behind. */
  predicate Harmless<T>(p: Piece<T>, c: Chunk) {
    Ok(p, c.first) || |Commits(p, c.first)| == 0 || |Commits(p, c.second)| == 0
  }

  function ChunkBooks<T>(b: Books, p: Piece<T>, c: Chunk): Books {
    Books(b.rows + |OneChunk(p, c).table|, b.clean && Harmless(p, c))
  }

  function LoopBooks<T>(src: Source<T>, b: Books, s: nat, chunkRows: nat, chunks: seq<Chunk>): Books
    requires chunkRows > 0
    decreases src.total - s
  {
    if s >= src.total || chunks == [] then b
    else
      var e := Min(s + chunkRows, src.total);
      var b' := ChunkBooks(b, src.piece(s, e), chunks[0]);
      if OneChunk(src.piece(s, e), chunks[0]).finished then LoopBooks(src, b', e, chunkRows, chunks[1..]) else b'
  }

  function StartBooks<T>(src: Source<T>, b: Books, run: Start): Books
    requires run.chunkRows > 0
  {
    var loaded := if run.rebuild || run.uncounted then 0 else b.rows;
    if loaded >= src.total then (if run.rebuild then Books(0, true) else b)
    else LoopBooks(src, if loaded == 0 then Books(0, true) else b, loaded, run.chunkRows, run.chunks)
  }

  function HistoryBooks<T>(src: Source<T>, b: Books, runs: seq<Start>): Books
    requires forall i :: 0 <= i < |runs| ==> runs[i].chunkRows > 0
    decreases |runs|
  {
    if runs == [] then b else HistoryBooks(src, StartBooks(src, b, runs[0]), runs[1..])
  }

  /** Committed rows are never taken back, and the books count them. */
  lemma {:induction false} LoopAppends<T>(src: Source<T>, table: seq<T>, b: Books, s: nat, chunkRows: nat,
                                          chunks: seq<Chunk>)
    requires chunkRows > 0 && |table| == b.rows
    ensures table <= ChunkLoop(src, table, s, chunkRows, chunks).table
    ensures |ChunkLoop(src, table, s, chunkRows, chunks).table| == LoopBooks(src, b, s, chunkRows, chunks).rows
    decreases src.total - s
  {
    if s < src.total && chunks != [] {
      var e := Min(s + chunkRows, src.total);
      var p, c := src.piece(s, e), chunks[0];
      if OneChunk(p, c).finished {
        LoopAppends(src, table + OneChunk(p, c).table, ChunkBooks(b, p, c), e, chunkRows, chunks[1..]);
      }
    }
  }

  /** The clean flag is only ever cleared, and does not depend on the row count. */
  lemma {:induction false} CleanStays<T>(src: Source<T>, b: Books, s: nat, chunkRows: nat, chunks: seq<Chunk>)
    requires chunkRows > 0
    ensures LoopBooks(src, b, s, chunkRows, chunks).clean
         == (b.clean && LoopBooks(src, Books(0, true), s, chunkRows, chunks).clean)
    decreases src.total - s
  {
    if s < src.total && chunks != [] {
      var e := Min(s + chunkRows, src.total);
      var p, c := src.piece(s, e), chunks[0];
      if OneChunk(p, c).finished {
        CleanStays(src, ChunkBooks(b, p, c), e, chunkRows, chunks[1..]);
        CleanStays(src, ChunkBooks(Books(0, true), p, c), e, chunkRows, chunks[1..]);
      }
    }
  }

  // ---- the table is a prefix of the source exactly when the books are clean ----------

  /** A piece is a prefix of its range of `rows`, and as long as the range if it loads. */
  ghost predicate GivesPiece<T>(p: Piece<T>, rows: seq<T>, s: nat, e: nat)
    requires s <= e
  {
    p.rows <= Range(rows, s, e) && (p.loads ==> |p.rows| == e - s)
  }

  /** `rows` are the rows the source can give; there may be fewer than it should. */
  ghost predicate Gives<T>(src: Source<T>, rows: seq<T>) {
    |rows| <= src.total && forall s, e :: 0 <= s <= e <= src.total ==> GivesPiece(src.piece(s, e), rows, s, e)
  }

  /** Two non-empty attempts on the same rows break the prefix, and nothing else does. */
  lemma {:induction false} RepeatBreaksPrefix<T>(p: Piece<T>, rows: seq<T>, s: nat, e: nat, c: Chunk)
    requires s < e && s <= |rows| && GivesPiece(p, rows, s, e)
    ensures Harmless(p, c) ==> OneChunk(p, c).table <= rows[s..]
    ensures Distinct(rows) && !Harmless(p, c) ==> !(rows[..s] + OneChunk(p, c).table <= rows)
    ensures Harmless(p, c) && OneChunk(p, c).finished ==> e <= |rows| && OneChunk(p, c).table == rows[s..e]
  {
    var x, y := Commits(p, c.first), Commits(p, c.second);
    var k := Min(e, |rows|);
    assert Range(rows, s, e) == rows[s..k] == rows[s..][..k - s];
    assert x <= rows[s..] && y <= rows[s..] && p.rows <= rows[s..];
    if Harmless(p, c) {
      assert OneChunk(p, c).table == if Ok(p, c.first) then x else if |x| == 0 then y else x;
    } else if Distinct(rows) {
      var t := rows[..s] + (x + y);
      assert t[s + |x|] == y[0] == rows[s];
    }
  }

  /** A clean loop appends rows of the source from its offset on, all of them if it finishes. */
  lemma {:induction false} CleanLoop<T>(src: Source<T>, rows: seq<T>, table: seq<T>, s: nat, chunkRows: nat,
                                        chunks: seq<Chunk>) returns (n: nat)
    requires chunkRows > 0 && s <= |rows| && Gives(src, rows)
    requires LoopBooks(src, Books(0, true), s, chunkRows, chunks).clean
    ensures s <= n <= |rows|
    ensures var end := ChunkLoop(src, table, s, chunkRows, chunks);
            end.table == table + rows[s..n] && (end.finished ==> n == src.total)
    decreases src.total - s
  {
    n := s;
    if s >= src.total || chunks == [] {
      assert table + rows[s..n] == table;
    } else {
      var e := Min(s + chunkRows, src.total);
      var p, c := src.piece(s, e), chunks[0];
      assert GivesPiece(p, rows, s, e);
      assert Harmless(p, c) by { CleanStays(src, ChunkBooks(Books(0, true), p, c), e, chunkRows, chunks[1..]); }
      CleanChunk(p, rows, s, e, c);
      n := s + |OneChunk(p, c).table|;
      if OneChunk(p, c).finished {
        CleanStays(src, ChunkBooks(Books(0, true), p, c), e, chunkRows, chunks[1..]);
        n := CleanLoop(src, rows, table + rows[s..e], e, chunkRows, chunks[1..]);
        Extends(rows, table, s, e, n);
      }
    }
  }

  lemma {:induction false} CleanChunk<T>(p: Piece<T>, rows: seq<T>, s: nat, e: nat, c: Chunk)
    requires s < e && s <= |rows| && GivesPiece(p, rows, s, e) && Harmless(p, c)
    ensures var one := OneChunk(p, c);
            var n := s + |one.table|;
            n <= |rows| && one.table == rows[s..n] && (one.finished ==> n == e)
  {
    RepeatBreaksPrefix(p, rows, s, e, c);
    var one := OneChunk(p, c);
    assert one.table == rows[s..][..|one.table|];
  }

  lemma {:induction false} Extends<T>(rows: seq<T>, table: seq<T>, s: nat, e: nat, n: nat)
    requires s <= e <= n <= |rows|
    ensures (table + rows[s..e]) + rows[e..n] == table + rows[s..n] && rows[..s] + rows[s..n] == rows[..n]
  {
    assert rows[s..n] == rows[s..e] + rows[e..n];
    Regroup(table, rows[s..e], rows[e..n]);
  }

  lemma {:induction false} DirtyLoop<T>(src: Source<T>, rows: seq<T>, s: nat, chunkRows: nat, chunks: seq<Chunk>)
    requires chunkRows > 0 && s <= |rows| && Distinct(rows) && Gives(src, rows)
    requires !LoopBooks(src, Books(0, true), s, chunkRows, chunks).clean
    ensures !(ChunkLoop(src, rows[..s], s, chunkRows, chunks).table <= rows)
    decreases src.total - s
  {
    var e := Min(s + chunkRows, src.total);
    var p, c := src.piece(s, e), chunks[0];
    assert GivesPiece(p, rows, s, e);
    RepeatBreaksPrefix(p, rows, s, e, c);
    var next := rows[..s] + OneChunk(p, c).table;
    if OneChunk(p, c).finished {
      if Harmless(p, c) {
        CleanStays(src, ChunkBooks(Books(0, true), p, c), e, chunkRows, chunks[1..]);
        assert next == rows[..e];
        DirtyLoop(src, rows, e, chunkRows, chunks[1..]);
      } else {
        LoopAppends(src, next, Books(|next|, true), e, chunkRows, chunks[1..]);
      }
    }
  }

  ghost predicate Accounts<T>(rows: seq<T>, table: seq<T>, b: Books) {
    |table| == b.rows && (table <= rows <==> b.clean)
  }

  lemma {:induction false} LoopAccounts<T>(src: Source<T>, rows: seq<T>, table: seq<T>, b: Books, s: nat,
                                           chunkRows: nat, chunks: seq<Chunk>)
    requires chunkRows > 0 && Distinct(rows) && Gives(src, rows) && Accounts(rows, table, b) && s == |table|
    ensures Accounts(rows, ChunkLoop(src, table, s, chunkRows, chunks).table,
                     LoopBooks(src, b, s, chunkRows, chunks))
  {
    CleanStays(src, b, s, chunkRows, chunks);
    LoopAppends(src, table, b, s, chunkRows, chunks);
    if b.clean {
      assert table == rows[..s];
      if LoopBooks(src, b, s, chunkRows, chunks).clean {
        var n := CleanLoop(src, rows, table, s, chunkRows, chunks);
        Extends(rows, table, s, s, n);
      } else {
        DirtyLoop(src, rows, s, chunkRows, chunks);
      }
    }
  }

  lemma {:induction false} StartAccounts<T>(src: Source<T>, rows: seq<T>, table: seq<T>, b: Books, run: Start)
    requires run.chunkRows > 0 && Distinct(rows) && Gives(src, rows) && Accounts(rows, table, b)
    ensures Accounts(rows, AfterStart(src, table, run).table, StartBooks(src, b, run))
  {
    var loaded := Loaded(table, run);
    if loaded < src.total {
      if loaded == 0 {
        LoopAccounts(src, rows, [], Books(0, true), 0, run.chunkRows, run.chunks);
      } else {
        LoopAccounts(src, rows, table, b, loaded, run.chunkRows, run.chunks);
      }
    }
  }

  /** Over every history of parent starts, spill commits, child crashes, in-place retries and
      restarts, the committed table is a prefix of the source rows, without gap or repeat,
      if and only if every retry since the table was last cleared was harmless. */
  lemma {:induction false} HistoryIsPrefixIff<T>(src: Source<T>, rows: seq<T>, table: seq<T>, b: Books,
                                                 runs: seq<Start>)
    requires forall i :: 0 <= i < |runs| ==> runs[i].chunkRows > 0
    requires Distinct(rows) && Gives(src, rows) && Accounts(rows, table, b)
    ensures Accounts(rows, AfterStarts(src, table, runs), HistoryBooks(src, b, runs))
    decreases |runs|
  {
    if runs != [] {
      StartAccounts(src, rows, table, b, runs[0]);
      HistoryIsPrefixIff(src, rows, AfterStart(src, table, runs[0]).table, StartBooks(src, b, runs[0]), runs[1..]);
    }
  }

  // ---- a parent that finishes -----------------------------------------------------------

  lemma {:induction false} LoopFull<T>(src: Source<T>, rows: seq<T>, table: seq<T>, s: nat, chunkRows: nat,
                                       chunks: seq<Chunk>)
    requires chunkRows > 0 && Gives(src, rows) && s <= |table| && s <= src.total
    requires ChunkLoop(src, table, s, chunkRows, chunks).finished
    ensures |ChunkLoop(src, table, s, chunkRows, chunks).table| >= src.total
    decreases src.total - s
  {
    if s < src.total {
      var e := Min(s + chunkRows, src.total);
      assert GivesPiece(src.piece(s, e), rows, s, e);
      LoopFull(src, rows, table + OneChunk(src.piece(s, e), chunks[0]).table, e, chunkRows, chunks[1..]);
    }
  }

  /** A start that finishes leaves a table that counts every row, so later starts that do not clear it do nothing. */
  lemma {:induction false} FinishedIsFull<T>(src: Source<T>, rows: seq<T>, table: seq<T>, run: Start)
    requires run.chunkRows > 0 && Gives(src, rows) && AfterStart(src, table, run).finished
    ensures |AfterStart(src, table, run).table| >= src.total
  {
    var loaded := Loaded(table, run);
    LoopFull(src, rows, if loaded == 0 then [] else table, loaded, run.chunkRows, run.chunks);
  }

  /** Where every retry since the last clearing was harmless, the table is a prefix of the source, repeated rows in
      the source or not, and all of it after a start that finishes. */
  lemma {:induction false} CleanStart<T>(src: Source<T>, rows: seq<T>, table: seq<T>, b: Books, run: Start)
    requires run.chunkRows > 0 && Gives(src, rows) && |table| == b.rows && (b.clean ==> table <= rows)
    ensures var end, b' := AfterStart(src, table, run), StartBooks(src, b, run);
            && |end.table| == b'.rows
            && (b'.clean ==> end.table <= rows && (end.finished ==> end.table == rows))
  {
    var loaded := Loaded(table, run);
    if loaded < src.total {
      var from, b0 := if loaded == 0 then [] else table, if loaded == 0 then Books(0, true) else b;
      LoopAppends(src, from, b0, loaded, run.chunkRows, run.chunks);
      CleanStays(src, b0, loaded, run.chunkRows, run.chunks);
      if StartBooks(src, b, run).clean {
        assert from == rows[..loaded];
        var n := CleanLoop(src, rows, from, loaded, run.chunkRows, run.chunks);
        Extends(rows, from, loaded, loaded, n);
      }
    }
  }

  lemma {:induction false} CleanHistory<T>(src: Source<T>, rows: seq<T>, table: seq<T>, b: Books, runs: seq<Start>)
    requires forall i :: 0 <= i < |runs| ==> runs[i].chunkRows > 0
    requires Gives(src, rows) && |table| == b.rows && (b.clean ==> table <= rows)
    ensures |AfterStarts(src, table, runs)| == HistoryBooks(src, b, runs).rows
    ensures HistoryBooks(src, b, runs).clean ==> AfterStarts(src, table, runs) <= rows
    decreases |runs|
  {
    if runs != [] {
      CleanStart(src, rows, table, b, runs[0]);
      CleanHistory(src, rows, AfterStart(src, table, runs[0]).table, StartBooks(src, b, runs[0]), runs[1..]);
    }
  }

  // ---- what an in-place retry costs -----------------------------------------------------

  /** The rows that a failed first attempt had already committed. */
  function Repeated<T>(p: Piece<T>, c: Chunk): seq<T> { if Ok(p, c.first) then [] else Commits(p, c.first) }

  function Repeats<T>(src: Source<T>, s: nat, chunkRows: nat, chunks: seq<Chunk>): seq<T>
    requires chunkRows > 0
    decreases src.total - s
  {
    if s >= src.total || chunks == [] then []
    else
      var e := Min(s + chunkRows, src.total);
      Repeated(src.piece(s, e), chunks[0]) + Repeats(src, e, chunkRows, chunks[1..])
  }

  /** `end` holds the rows of the table, of the range and the repeats, and no others. */
  ghost predicate Holds<T>(end: seq<T>, table: seq<T>, range: seq<T>, repeats: seq<T>) {
    multiset(end) == multiset(table) + multiset(range) + multiset(repeats)
  }

  /** A loop that finishes has loaded every row of its range once, plus exactly the rows its
      failed first attempts had committed. */
  lemma {:induction false} FinishedLoopRows<T>(src: Source<T>, rows: seq<T>, table: seq<T>, s: nat, chunkRows: nat,
                                               chunks: seq<Chunk>)
    requires chunkRows > 0 && s <= |rows| == src.total && Gives(src, rows)
    requires ChunkLoop(src, table, s, chunkRows, chunks).finished
    ensures Holds(ChunkLoop(src, table, s, chunkRows, chunks).table, table, rows[s..],
                  Repeats(src, s, chunkRows, chunks))
    decreases src.total - s
  {
    var end := ChunkLoop(src, table, s, chunkRows, chunks).table;
    if s == src.total {
      NoneLeft(rows, table);
    } else {
      var e := Min(s + chunkRows, src.total);
      var first, rest := Repeated(src.piece(s, e), chunks[0]), Repeats(src, e, chunkRows, chunks[1..]);
      FinishedStep(src, rows, table, s, chunkRows, chunks);
      FinishedLoopRows(src, rows, table + first + rows[s..e], e, chunkRows, chunks[1..]);
      AddUp(end, table, first, rows[s..e], rows[e..], rest, rows[s..], Repeats(src, s, chunkRows, chunks));
    }
  }

  lemma {:induction false} FinishedStep<T>(src: Source<T>, rows: seq<T>, table: seq<T>, s: nat, chunkRows: nat,
                                           chunks: seq<Chunk>)
    requires chunkRows > 0 && s < |rows| == src.total && Gives(src, rows)
    requires ChunkLoop(src, table, s, chunkRows, chunks).finished
    ensures var e := Min(s + chunkRows, src.total);
            && chunks != [] && rows[s..] == rows[s..e] + rows[e..]
            && ChunkLoop(src, table, s, chunkRows, chunks)
               == ChunkLoop(src, table + Repeated(src.piece(s, e), chunks[0]) + rows[s..e], e, chunkRows, chunks[1..])
  {
    var e := Min(s + chunkRows, src.total);
    assert GivesPiece(src.piece(s, e), rows, s, e);
    FinishedChunk(src.piece(s, e), rows, table, s, e, chunks[0]);
  }

  lemma {:induction false} FinishedChunk<T>(p: Piece<T>, rows: seq<T>, table: seq<T>, s: nat, e: nat, c: Chunk)
    requires s <= e <= |rows| && GivesPiece(p, rows, s, e) && OneChunk(p, c).finished
    ensures table + OneChunk(p, c).table == table + Repeated(p, c) + rows[s..e]
  {
    assert p.rows == rows[s..e];
    Regroup(table, Repeated(p, c), rows[s..e]);
  }

  lemma {:induction false} NoneLeft<T>(rows: seq<T>, table: seq<T>)
    ensures Holds(table, table, rows[|rows|..], [])
  {
    assert rows[|rows|..] == [];
  }

  lemma {:induction false} AddUp<T>(end: seq<T>, table: seq<T>, first: seq<T>, here: seq<T>, later: seq<T>,
                                    rest: seq<T>, range: seq<T>, repeats: seq<T>)
    requires Holds(end, table + first + here, later, rest) && range == here + later && repeats == first + rest
    ensures Holds(end, table, range, repeats)
  {
  }

  /** A parent with nothing but successful chunks appends the rows after its offset, whatever
      the table holds. */
  lemma {:induction false} OnceLoop<T>(rows: seq<T>, table: seq<T>, s: nat, chunkRows: nat, chunks: seq<Chunk>)
    requires chunkRows > 0 && s <= |rows| && |chunks| >= |rows| - s
    requires forall i :: 0 <= i < |chunks| ==> chunks[i] == ONCE
    ensures ChunkLoop(Plain(rows), table, s, chunkRows, chunks) == End(table + rows[s..], true)
    decreases |rows| - s
  {
    if s < |rows| {
      var e := Min(s + chunkRows, |rows|);
      OnceLoop(rows, table + rows[s..e], e, chunkRows, chunks[1..]);
      assert table + rows[s..e] + rows[e..] == table + rows[s..];
    } else {
      assert table + rows[s..] == table;
    }
  }

  lemma {:induction false} RetriedThenDied<T>(rows: seq<T>, s: nat, n: nat, chunkRows: nat)
    requires 0 < n <= chunkRows && s + chunkRows < |rows|
    ensures AfterStart(Plain(rows), rows[..s], Start(chunkRows, false, false, true, [Chunk(Dies(n), Runs(0))]))
         == End(rows[..s] + (rows[s..s + n] + rows[s..s + chunkRows]), false)
  {
    var e, src := s + chunkRows, Plain(rows);
    var chunks := [Chunk(Dies(n), Runs(0))];
    assert chunks[1..] == [] && rows[s..e][..n] == rows[s..s + n];
    var next := rows[..s] + OneChunk(src.piece(s, e), chunks[0]).table;
    assert ChunkLoop(src, rows[..s], s, chunkRows, chunks) == ChunkLoop(src, next, e, chunkRows, []);
  }

  /** A harmful retry followed by a restart loses rows for good: the restarted parent counts the
      repeated rows, skips as many source rows and finishes, upon which it may remove the shards. */
  lemma {:induction false} RestartAfterRetryLosesRows<T>(rows: seq<T>, s: nat, n: nat, chunkRows: nat,
                                                         chunks: seq<Chunk>)
    requires Distinct(rows) && 0 < n <= chunkRows && s + chunkRows < |rows|
    requires |chunks| >= |rows| && forall i :: 0 <= i < |chunks| ==> chunks[i] == ONCE
    ensures var e, src := s + chunkRows, Plain(rows);
            var first := Start(chunkRows, false, false, true, [Chunk(Dies(n), Runs(0))]);
            var crashed := AfterStart(src, rows[..s], first).table;
            var rerun := AfterStart(src, crashed, Start(chunkRows, false, false, true, chunks));
            && |crashed| == e + n
            && rows[e] !in rerun.table
            && (e + n < |rows| ==> rerun.finished)
  {
    var e := s + chunkRows;
    RetriedThenDied(rows, s, n, chunkRows);
    var crashed := rows[..s] + (rows[s..s + n] + rows[s..e]);
    assert rows[e] !in crashed;
    if e + n < |rows| {
      OnceLoop(rows, crashed, e + n, chunkRows, chunks);
      assert rows[e] !in rows[e + n..];
    }
  }

  /** Single-process mode writes every row whatever the table holds, so a rerun is complete
      and correct only on an empty table. */
  lemma {:induction false} SingleProcessNeedsEmptyTable<T>(rows: seq<T>, table: seq<T>)
    requires Distinct(rows) && rows != []
    ensures table + Commits(Plain(rows).piece(0, |rows|), Runs(0)) <= rows <==> table == []
  {
    var t := table + rows[0..|rows|];
    if table == [] {
      assert t == rows;
    } else {
      assert |t| > |rows|;
    }
  }

  // ---- what becomes of part of each row -----------------------------------------------------

  /** The same source with only part of every row. */
  function Mapped<T, K>(f: T -> K, src: Source<T>): Source<K> {
    Source(src.total, (s: nat, e: nat) => Piece(Map(f, src.piece(s, e).rows), src.piece(s, e).loads))
  }

  lemma {:induction false} MappedChunk<T, K>(f: T -> K, p: Piece<T>, c: Chunk)
    ensures var q := Piece(Map(f, p.rows), p.loads);
            && OneChunk(q, c).table == Map(f, OneChunk(p, c).table)
            && OneChunk(q, c).finished == OneChunk(p, c).finished && Harmless(q, c) == Harmless(p, c)
  {
  }

  lemma {:induction false} MappedLoop<T, K>(f: T -> K, src: Source<T>, table: seq<T>, b: Books, s: nat,
                                            chunkRows: nat, chunks: seq<Chunk>)
    requires chunkRows > 0
    ensures var x := ChunkLoop(src, table, s, chunkRows, chunks);
            var y := ChunkLoop(Mapped(f, src), Map(f, table), s, chunkRows, chunks);
            y.table == Map(f, x.table) && y.finished == x.finished
    ensures LoopBooks(Mapped(f, src), b, s, chunkRows, chunks) == LoopBooks(src, b, s, chunkRows, chunks)
    decreases src.total - s
  {
    if s < src.total && chunks != [] {
      var e := Min(s + chunkRows, src.total);
      var p, c := src.piece(s, e), chunks[0];
      MappedChunk(f, p, c);
      var next := table + OneChunk(p, c).table;
      assert Map(f, next) == Map(f, table) + Map(f, OneChunk(p, c).table);
      if OneChunk(p, c).finished {
        MappedLoop(f, src, next, ChunkBooks(b, p, c), e, chunkRows, chunks[1..]);
      }
    }
  }

  /** The books do not depend on what the rows hold, and part of every row is loaded like the whole. */
  lemma {:induction false} MappedStart<T, K>(f: T -> K, src: Source<T>, table: seq<T>, b: Books, run: Start)
    requires run.chunkRows > 0
    ensures AfterStart(Mapped(f, src), Map(f, table), run).table == Map(f, AfterStart(src, table, run).table)
    ensures StartBooks(Mapped(f, src), b, run) == StartBooks(src, b, run)
  {
    var loaded := Loaded(table, run);
    var rows := if run.rebuild || run.uncounted then 0 else b.rows;
    assert Map(f, []) == [];
    MappedLoop(f, src, if loaded == 0 then [] else table, b, loaded, run.chunkRows, run.chunks);
    MappedLoop(f, src, [], if rows == 0 then Books(0, true) else b, rows, run.chunkRows, run.chunks);
  }
}
