/** The report's table sorter (`_sort_tables_by_qps`): every Markdown table with a QPS
    column has its body sorted in place; every other line stays where it is. */
module TableSorter {
  import opened Seqs
  import opened Strings
  import opened Sorting

  // ---- the sort key ----------------------------------------------------------------------

  /** The values `float` can return, without NaN. */
  datatype Number = NegInf | Finite(value: real) | PosInf

  predicate AtMost(a: Number, b: Number) {
    a.NegInf? || b.PosInf? || (a.Finite? && b.Finite? && a.value <= b.value)
  }

  datatype Key = Key(dataset: string, qps: Number)

  /** Dataset ascending, then QPS descending. */
  predicate KeyLeq(a: Key, b: Key) {
    Less(a.dataset, b.dataset) || (a.dataset == b.dataset && AtMost(b.qps, a.qps))
  }

  function ByKey<L>(key: L -> Key): (L, L) -> bool {
    (a, b) => KeyLeq(key(a), key(b))
  }

  lemma {:induction false} KeyLeqTotal(a: Key, b: Key)
    ensures KeyLeq(a, b) || KeyLeq(b, a)
  {
    LessTotal(a.dataset, b.dataset);
  }

  lemma {:induction false} KeyLeqTransitive(a: Key, b: Key, c: Key)
    requires KeyLeq(a, b) && KeyLeq(b, c)
    ensures KeyLeq(a, c)
  {
    if Less(a.dataset, b.dataset) && Less(b.dataset, c.dataset) { LessTransitive(a.dataset, b.dataset, c.dataset); }
  }

  lemma {:induction false} ByKeyIsTotal<L(!new)>(key: L -> Key)
    ensures TotalPreorder(ByKey(key))
  {
    forall a, b
      ensures ByKey(key)(a, b) || ByKey(key)(b, a)
    {
      KeyLeqTotal(key(a), key(b));
    }
    forall a, b, c | ByKey(key)(a, b) && ByKey(key)(b, c)
      ensures ByKey(key)(a, c)
    {
      KeyLeqTransitive(key(a), key(b), key(c));
    }
  }

  // ---- the report as blocks -----------------------------------------------------------------

  /** How a report's lines are read: which are table rows and separators, and how a table with
      this header keys its rows, if it is to be sorted at all. */
  datatype Rules<!L(!new)> = Rules(isRow: L -> bool, isSeparator: L -> bool, keyed: L -> Option<L -> Key>)

  /** The new body of a table: sorted if it has a key, otherwise as it was. */
  function SortBody<L(!new)>(r: Rules<L>, header: L, rows: seq<L>): seq<L> {
    match r.keyed(header)
    case None => rows
    case Some(key) => Sort(ByKey(key), rows)
  }

  /** What the new body is: the same rows; unchanged without a key, otherwise in (dataset, falling
      QPS) order with ties left as they were. */
  lemma {:induction false} SortBodyMeaning<L(!new)>(r: Rules<L>, header: L, rows: seq<L>)
    ensures multiset(SortBody(r, header, rows)) == multiset(rows) && |SortBody(r, header, rows)| == |rows|
    ensures r.keyed(header).None? ==> SortBody(r, header, rows) == rows
    ensures r.keyed(header).Some? ==> Sorted(ByKey(r.keyed(header).value), SortBody(r, header, rows))
    ensures r.keyed(header).Some? ==> forall x ::
              Ties(ByKey(r.keyed(header).value), SortBody(r, header, rows), x)
              == Ties(ByKey(r.keyed(header).value), rows, x)
    ensures SortBody(r, header, SortBody(r, header, rows)) == SortBody(r, header, rows)
  {
    match r.keyed(header)
    case None =>
    case Some(key) =>
      ByKeyIsTotal(key);
      SortElements(ByKey(key), rows);
      SortSorted(ByKey(key), rows);
      forall x
        ensures Ties(ByKey(key), Sort(ByKey(key), rows), x) == Ties(ByKey(key), rows, x)
      {
        SortStable(ByKey(key), rows, x);
      }
      SortOfSorted(ByKey(key), Sort(ByKey(key), rows));
  }

  lemma {:induction false} SortBodyRows<L(!new)>(r: Rules<L>, header: L, rows: seq<L>)
    requires forall i :: 0 <= i < |rows| ==> r.isRow(rows[i])
    ensures |SortBody(r, header, rows)| == |rows|
    ensures forall i :: 0 <= i < |rows| ==> r.isRow(SortBody(r, header, rows)[i])
  {
    SortBodyMeaning(r, header, rows);
    var out := SortBody(r, header, rows);
    forall i | 0 <= i < |out|
      ensures r.isRow(out[i])
    {
      assert out[i] in multiset(rows);
    }
  }

  datatype Block<L> = Text(line: L) | Table(header: L, separator: L, rows: seq<L>)

  /** How many lines at the start are table rows. */
  function RowRun<L(!new)>(r: Rules<L>, lines: seq<L>): (n: nat)
    ensures n <= |lines| && (n < |lines| ==> !r.isRow(lines[n]))
    ensures forall i :: 0 <= i < n ==> r.isRow(lines[i])
  {
    if lines == [] || !r.isRow(lines[0]) then 0 else 1 + RowRun(r, lines[1..])
  }

  predicate StartsTable<L(!new)>(r: Rules<L>, lines: seq<L>) {
    |lines| >= 2 && r.isRow(lines[0]) && r.isSeparator(lines[1])
  }

  /** Reading the report into text lines and tables. */
  function Blocks<L(!new)>(r: Rules<L>, lines: seq<L>): seq<Block<L>>
    decreases |lines|
  {
    if lines == [] then []
    else if StartsTable(r, lines) then
      var n := RowRun(r, lines[2..]);
      [Table(lines[0], lines[1], lines[2..2 + n])] + Blocks(r, lines[2 + n..])
    else [Text(lines[0])] + Blocks(r, lines[1..])
  }

  function BlockLines<L>(b: Block<L>): seq<L> {
    match b
    case Text(line) => [line]
    case Table(h, s, rows) => [h, s] + rows
  }

  function Lines<L>(blocks: seq<Block<L>>): seq<L> {
    if blocks == [] then [] else BlockLines(blocks[0]) + Lines(blocks[1..])
  }

  function SortBlock<L(!new)>(r: Rules<L>, b: Block<L>): Block<L> {
    match b
    case Text(_) => b
    case Table(h, s, rows) => Table(h, s, SortBody(r, h, rows))
  }

  function SortBlocks<L(!new)>(r: Rules<L>, blocks: seq<Block<L>>): (sorted: seq<Block<L>>)
    ensures |sorted| == |blocks| && forall i :: 0 <= i < |sorted| ==> sorted[i] == SortBlock(r, blocks[i])
  {
    seq(|blocks|, i requires 0 <= i < |blocks| => SortBlock(r, blocks[i]))
  }

  /** The sorted report. */
  function SortTables<L(!new)>(r: Rules<L>, lines: seq<L>): seq<L>
    decreases |lines|
  {
    if lines == [] then []
    else if StartsTable(r, lines) then
      var n := RowRun(r, lines[2..]);
      [lines[0], lines[1]] + SortBody(r, lines[0], lines[2..2 + n]) + SortTables(r, lines[2 + n..])
    else [lines[0]] + SortTables(r, lines[1..])
  }

  /** Reading loses nothing. */
  lemma {:induction false} LinesOfBlocks<L(!new)>(r: Rules<L>, lines: seq<L>)
    ensures Lines(Blocks(r, lines)) == lines
    decreases |lines|
  {
    if lines == [] {
    } else if StartsTable(r, lines) {
      var n := RowRun(r, lines[2..]);
      LinesOfBlocks(r, lines[2 + n..]);
      assert lines == [lines[0], lines[1]] + lines[2..2 + n] + lines[2 + n..];
      assert Blocks(r, lines)[1..] == Blocks(r, lines[2 + n..]);
    } else {
      LinesOfBlocks(r, lines[1..]);
      assert Blocks(r, lines)[1..] == Blocks(r, lines[1..]);
    }
  }

  lemma {:induction false} SortBlocksCons<L(!new)>(r: Rules<L>, b: Block<L>, rest: seq<Block<L>>)
    ensures SortBlocks(r, [b] + rest) == [SortBlock(r, b)] + SortBlocks(r, rest)
    ensures Lines([b] + rest) == BlockLines(b) + Lines(rest)
  {
    ConsOf(SortBlocks(r, [b] + rest), SortBlock(r, b), SortBlocks(r, rest));
    assert ([b] + rest)[0] == b && ([b] + rest)[1..] == rest;
  }

  lemma {:induction false} ConsOf<T>(all: seq<T>, first: T, rest: seq<T>)
    requires |all| == |rest| + 1 && all[0] == first && forall i :: 0 <= i < |rest| ==> all[i + 1] == rest[i]
    ensures all == [first] + rest
  {
    forall i | 0 < i < |all|
      ensures all[i] == ([first] + rest)[i]
    {
      assert all[i - 1 + 1] == rest[i - 1];
    }
  }

  /** Sorting a report is reading it into blocks, sorting each table's body, and writing it back. */
  lemma {:induction false} SortsBlockwise<L(!new)>(r: Rules<L>, lines: seq<L>)
    ensures SortTables(r, lines) == Lines(SortBlocks(r, Blocks(r, lines)))
    decreases |lines|
  {
    if lines == [] {
    } else if StartsTable(r, lines) {
      var n := RowRun(r, lines[2..]);
      var b, rest := Table(lines[0], lines[1], lines[2..2 + n]), lines[2 + n..];
      SortsBlockwise(r, rest);
      SortBlocksCons(r, b, Blocks(r, rest));
      SortBlocksCons(r, SortBlock(r, b), SortBlocks(r, Blocks(r, rest)));
    } else {
      SortsBlockwise(r, lines[1..]);
      SortBlocksCons(r, Text(lines[0]), Blocks(r, lines[1..]));
      SortBlocksCons(r, Text(lines[0]), SortBlocks(r, Blocks(r, lines[1..])));
    }
  }

  /** The first line of a report never moves. */
  lemma {:induction false} FirstLineStays<L(!new)>(r: Rules<L>, lines: seq<L>)
    ensures SortTables(r, lines) == [] <==> lines == []
    ensures lines != [] ==> SortTables(r, lines)[0] == lines[0]
  {
  }

  lemma {:induction false} RowRunOf<L(!new)>(r: Rules<L>, rows: seq<L>, rest: seq<L>)
    requires forall i :: 0 <= i < |rows| ==> r.isRow(rows[i])
    requires rest == [] || !r.isRow(rest[0])
    ensures RowRun(r, rows + rest) == |rows|
  {
    if rows == [] {
      assert rows + rest == rest;
    } else {
      assert (rows + rest)[0] == rows[0] && (rows + rest)[1..] == rows[1..] + rest;
      RowRunOf(r, rows[1..], rest);
    }
  }

  /** The sorted report reads back as the same blocks with sorted bodies: no table is
      split, joined, created or lost. */
  lemma {:induction false} BlocksOfSorted<L(!new)>(r: Rules<L>, lines: seq<L>)
    ensures Blocks(r, SortTables(r, lines)) == SortBlocks(r, Blocks(r, lines))
    decreases |lines|
  {
    if lines != [] {
      if StartsTable(r, lines) {
        BlocksOfTable(r, lines);
      } else {
        BlocksOfText(r, lines);
      }
    }
  }

  /** A header, a separator and rows up to a line that is none read as one table. */
  lemma {:induction false} TableReads<L(!new)>(r: Rules<L>, h: L, s: L, body: seq<L>, rest: seq<L>)
    requires r.isRow(h) && r.isSeparator(s) && forall i :: 0 <= i < |body| ==> r.isRow(body[i])
    requires rest == [] || !r.isRow(rest[0])
    ensures Blocks(r, [h, s] + body + rest) == [Table(h, s, body)] + Blocks(r, rest)
  {
    var out := [h, s] + body + rest;
    assert out[0] == h && out[1] == s && out[2..] == body + rest;
    RowRunOf(r, body, rest);
    assert out[2..2 + |body|] == body && out[2 + |body|..] == rest;
  }

  lemma {:induction false} BlocksOfTable<L(!new)>(r: Rules<L>, lines: seq<L>)
    requires StartsTable(r, lines)
    ensures Blocks(r, SortTables(r, lines)) == SortBlocks(r, Blocks(r, lines))
    decreases |lines|, 0
  {
    var n := RowRun(r, lines[2..]);
    var h, s, rows, rest := lines[0], lines[1], lines[2..2 + n], lines[2 + n..];
    BlocksOfSorted(r, rest);
    TableEnds(r, lines, n);
    SortedTableReads(r, h, s, rows, rest, SortTables(r, rest));
  }

  lemma {:induction false} TableEnds<L(!new)>(r: Rules<L>, lines: seq<L>, n: nat)
    requires StartsTable(r, lines) && n == RowRun(r, lines[2..])
    ensures 2 + n <= |lines| && forall x :: x in lines[2..2 + n] ==> r.isRow(x)
    ensures var rest := SortTables(r, lines[2 + n..]);
            rest == [] || !r.isRow(rest[0])
  {
    var rows, rest := lines[2..2 + n], lines[2 + n..];
    assert forall i :: 0 <= i < n ==> rows[i] == lines[2..][i];
    assert rest != [] ==> rest[0] == lines[2..][n];
    FirstLineStays(r, rest);
  }

  lemma {:induction false} SortedTableReads<L(!new)>(r: Rules<L>, h: L, s: L, rows: seq<L>, rest: seq<L>, rest': seq<L>)
    requires r.isRow(h) && r.isSeparator(s) && forall x :: x in rows ==> r.isRow(x)
    requires (rest' == [] || !r.isRow(rest'[0])) && Blocks(r, rest') == SortBlocks(r, Blocks(r, rest))
    ensures Blocks(r, [h, s] + SortBody(r, h, rows) + rest') == SortBlocks(r, [Table(h, s, rows)] + Blocks(r, rest))
  {
    assert forall i :: 0 <= i < |rows| ==> rows[i] in rows;
    SortBodyRows(r, h, rows);
    TableReads(r, h, s, SortBody(r, h, rows), rest');
    SortBlocksCons(r, Table(h, s, rows), Blocks(r, rest));
  }

  lemma {:induction false} BlocksOfText<L(!new)>(r: Rules<L>, lines: seq<L>)
    requires lines != [] && !StartsTable(r, lines)
    ensures Blocks(r, SortTables(r, lines)) == SortBlocks(r, Blocks(r, lines))
    decreases |lines|, 0
  {
    var rest, rest' := lines[1..], SortTables(r, lines[1..]);
    FirstLineStays(r, rest);
    var out := [lines[0]] + rest';
    assert out[1..] == rest' && (|out| >= 2 ==> out[1] == rest'[0] == rest[0] == lines[1]);
    BlocksOfSorted(r, rest);
    SortBlocksCons(r, Text(lines[0]), Blocks(r, rest));
  }

  /** Sorting a sorted report changes nothing. */
  lemma {:induction false} SortTablesIdempotent<L(!new)>(r: Rules<L>, lines: seq<L>)
    ensures SortTables(r, SortTables(r, lines)) == SortTables(r, lines)
  {
    BlocksOfSorted(r, lines);
    var blocks := SortBlocks(r, Blocks(r, lines));
    forall i | 0 <= i < |blocks|
      ensures SortBlock(r, blocks[i]) == blocks[i]
    {
      match Blocks(r, lines)[i]
      case Text(_) =>
      case Table(h, s, rows) => SortBodyMeaning(r, h, rows);
    }
    assert SortBlocks(r, blocks) == blocks;
    SortsBlockwise(r, lines);
    SortsBlockwise(r, SortTables(r, lines));
  }

  // ---- line by line -----------------------------------------------------------------------------

  /** Which lines of a block, and of a report, are body rows of a table. */
  function BlockMask<L>(b: Block<L>): seq<bool> {
    match b
    case Text(_) => [false]
    case Table(_, _, rows) => [false, false] + seq(|rows|, _ => true)
  }

  function BodyMask<L>(blocks: seq<Block<L>>): (mask: seq<bool>)
    ensures |mask| == |Lines(blocks)|
  {
    if blocks == [] then [] else BlockMask(blocks[0]) + BodyMask(blocks[1..])
  }

  predicate InBody<L(!new)>(r: Rules<L>, lines: seq<L>, i: nat)
    requires i < |lines|
  {
    LinesOfBlocks(r, lines);
    BodyMask(Blocks(r, lines))[i]
  }

  /** `b` rearranges `a` at the masked positions only. */
  ghost predicate Rearranges<L>(a: seq<L>, b: seq<L>, mask: seq<bool>) {
    && |a| == |b| == |mask| && multiset(a) == multiset(b)
    && forall i :: 0 <= i < |a| && !mask[i] ==> a[i] == b[i]
  }

  lemma {:induction false} RearrangesAppend<L>(a: seq<L>, b: seq<L>, mask: seq<bool>, a': seq<L>, b': seq<L>,
                                               mask': seq<bool>)
    requires Rearranges(a, b, mask) && Rearranges(a', b', mask')
    ensures Rearranges(a + a', b + b', mask + mask')
  {}

  lemma {:induction false} BlockStays<L(!new)>(r: Rules<L>, b: Block<L>)
    ensures Rearranges(BlockLines(b), BlockLines(SortBlock(r, b)), BlockMask(b))
  {
    if b.Table? {
      SortBodyMeaning(r, b.header, b.rows);
      RearrangesAppend([b.header, b.separator], [b.header, b.separator], [false, false],
                       b.rows, SortBody(r, b.header, b.rows), seq(|b.rows|, _ => true));
    }
  }

  lemma {:induction false} BlocksStay<L(!new)>(r: Rules<L>, blocks: seq<Block<L>>)
    ensures Rearranges(Lines(blocks), Lines(SortBlocks(r, blocks)), BodyMask(blocks))
  {
    if blocks != [] {
      var b, rest := blocks[0], blocks[1..];
      BlockStays(r, b);
      BlocksStay(r, rest);
      assert blocks == [b] + rest;
      SortBlocksCons(r, b, rest);
      SortBlocksCons(r, SortBlock(r, b), SortBlocks(r, rest));
      RearrangesAppend(BlockLines(b), BlockLines(SortBlock(r, b)), BlockMask(b),
                       Lines(rest), Lines(SortBlocks(r, rest)), BodyMask(rest));
    }
  }

  /** A row with nothing but rows between it and a header with a separator under it. */
  ghost predicate UnderTable<L(!new)>(r: Rules<L>, lines: seq<L>, i: nat)
    requires i < |lines|
  {
    exists h :: 0 <= h < i - 1 && HeaderOf(r, lines, h, i)
  }

  ghost predicate HeaderOf<L(!new)>(r: Rules<L>, lines: seq<L>, h: nat, i: nat)
    requires h < i - 1 < |lines| - 1
  {
    r.isRow(lines[h]) && r.isSeparator(lines[h + 1]) && forall k :: h + 2 <= k <= i ==> r.isRow(lines[k])
  }

  lemma {:induction false} Under<L(!new)>(r: Rules<L>, lines: seq<L>, n: nat, i: nat)
    requires n <= i < |lines| && UnderTable(r, lines[n..], i - n)
    ensures UnderTable(r, lines, i)
  {
    var rest := lines[n..];
    var h :| 0 <= h < i - n - 1 && HeaderOf(r, rest, h, i - n);
    assert rest[h] == lines[h + n] && rest[h + 1] == lines[h + n + 1];
    assert forall k :: h + n + 2 <= k <= i ==> lines[k] == rest[k - n];
    assert HeaderOf(r, lines, h + n, i);
  }

  lemma {:induction false} BodyIsUnderTable<L(!new)>(r: Rules<L>, lines: seq<L>, mask: seq<bool>, i: nat)
    requires mask == BodyMask(Blocks(r, lines)) && i < |mask| && mask[i]
    ensures i < |lines| && UnderTable(r, lines, i)
    decreases |lines|
  {
    var n, rest := FirstMask(r, lines, mask);
    if i >= n {
      assert mask[i] == rest[i - n];
      BodyIsUnderTable(r, lines[n..], rest, i - n);
      Under(r, lines, n, i);
    } else {
      FirstBody(r, lines, i);
    }
  }

  /** The mask of a report is that of its first block and of the rest. */
  lemma {:induction false} FirstMask<L(!new)>(r: Rules<L>, lines: seq<L>, mask: seq<bool>)
    returns (n: nat, rest: seq<bool>)
    requires mask == BodyMask(Blocks(r, lines)) && mask != []
    ensures 0 < n <= |lines| && rest == BodyMask(Blocks(r, lines[n..])) && |mask| == n + |rest| && mask[n..] == rest
    ensures forall i :: 0 <= i < n && mask[i] ==> StartsTable(r, lines) && 2 <= i < 2 + RowRun(r, lines[2..])
  {
    n := if StartsTable(r, lines) then 2 + RowRun(r, lines[2..]) else 1;
    rest := BodyMask(Blocks(r, lines[n..]));
    assert Blocks(r, lines)[1..] == Blocks(r, lines[n..]);
  }

  lemma {:induction false} FirstBody<L(!new)>(r: Rules<L>, lines: seq<L>, i: nat)
    requires StartsTable(r, lines) && 2 <= i < 2 + RowRun(r, lines[2..])
    ensures UnderTable(r, lines, i)
  {
    assert forall k :: 2 <= k <= i ==> lines[k] == lines[2..][k - 2];
    assert HeaderOf(r, lines, 0, i);
  }

  /** No line is lost, added or changed, and lines outside table bodies stay in place. */
  lemma {:induction false} OutsideStays<L(!new)>(r: Rules<L>, lines: seq<L>)
    ensures |SortTables(r, lines)| == |lines|
    ensures multiset(SortTables(r, lines)) == multiset(lines)
    ensures forall i :: 0 <= i < |lines| && !InBody(r, lines, i) ==> SortTables(r, lines)[i] == lines[i]
    ensures forall i :: 0 <= i < |lines| && !UnderTable(r, lines, i) ==> SortTables(r, lines)[i] == lines[i]
  {
    LinesOfBlocks(r, lines);
    SortsBlockwise(r, lines);
    BlocksStay(r, Blocks(r, lines));
    forall i | 0 <= i < |lines| && InBody(r, lines, i)
      ensures UnderTable(r, lines, i)
    {
      BodyIsUnderTable(r, lines, BodyMask(Blocks(r, lines)), i);
    }
  }

  // ---- the sorter itself ----------------------------------------------------------------------------

  /** The end of the table body that starts at line `start`. */
  method EndOfBody<L(!new)>(r: Rules<L>, lines: seq<L>, start: nat) returns (j: nat)
    requires start <= |lines|
    ensures j == start + RowRun(r, lines[start..])
  {
    j := start;
    while j < |lines| && r.isRow(lines[j])
      invariant start <= j <= |lines|
      invariant RowRun(r, lines[start..]) == j - start + RowRun(r, lines[j..])
    {
      assert lines[j..][0] == lines[j] && lines[j..][1..] == lines[j + 1..];
      j := j + 1;
    }
  }

  lemma {:induction false} ReportStep<L(!new)>(r: Rules<L>, lines: seq<L>, i: nat)
    requires i < |lines|
    ensures StartsTable(r, lines[i..]) <==> r.isRow(lines[i]) && i + 1 < |lines| && r.isSeparator(lines[i + 1])
    ensures StartsTable(r, lines[i..]) ==>
              var j := i + 2 + RowRun(r, lines[i + 2..]);
              j <= |lines| &&
              SortTables(r, lines[i..])
              == [lines[i], lines[i + 1]] + SortBody(r, lines[i], lines[i + 2..j]) + SortTables(r, lines[j..])
    ensures !StartsTable(r, lines[i..]) ==> SortTables(r, lines[i..]) == [lines[i]] + SortTables(r, lines[i + 1..])
  {
    var rest := lines[i..];
    assert rest[1..] == lines[i + 1..];
    if StartsTable(r, rest) {
      assert rest[2..] == lines[i + 2..];
      var n := RowRun(r, rest[2..]);
      assert rest[2..2 + n] == lines[i + 2..i + 2 + n] && rest[2 + n..] == lines[i + 2 + n..];
    }
  }

  /** One turn of the sorter's loop: the lines it emits and the line it goes on from. */
  method NextBlock<L(!new)>(r: Rules<L>, lines: seq<L>, i: nat) returns (emitted: seq<L>, next: nat)
    requires i < |lines|
    ensures i < next <= |lines|
    ensures SortTables(r, lines[i..]) == emitted + SortTables(r, lines[next..])
  {
    ReportStep(r, lines, i);
    if r.isRow(lines[i]) && i + 1 < |lines| && r.isSeparator(lines[i + 1]) {
      next := EndOfBody(r, lines, i + 2);
      emitted := [lines[i], lines[i + 1]] + SortBody(r, lines[i], lines[i + 2..next]);
    } else {
      emitted, next := [lines[i]], i + 1;
    }
  }

  method SortReport<L(!new)>(r: Rules<L>, lines: seq<L>) returns (out: seq<L>)
    ensures out == SortTables(r, lines)
  {
    out := [];
    var i := 0;
    ghost var whole := SortTables(r, lines);
    assert lines[0..] == lines;
    while i < |lines|
      invariant 0 <= i <= |lines|
      invariant out + SortTables(r, lines[i..]) == whole
    {
      var emitted, next := NextBlock(r, lines, i);
      Regroup(out, emitted, SortTables(r, lines[next..]));
      out, i := out + emitted, next;
    }
  }

  // ---- reading a line ----------------------------------------------------------------

  predicate IsSpace(c: char) { c in " \t\r" }

  function TrimLeft(s: string): string {
    if s != [] && IsSpace(s[0]) then TrimLeft(s[1..]) else s
  }

  function TrimRight(s: string): string {
    if s != [] && IsSpace(s[|s| - 1]) then TrimRight(s[..|s| - 1]) else s
  }

  function Trim(s: string): string { TrimRight(TrimLeft(s)) }

  /** `s.strip(c)`. */
  function StripChar(s: string, c: char): string {
    if s != [] && s[0] == c then StripChar(s[1..], c)
    else if s != [] && s[|s| - 1] == c then StripChar(s[..|s| - 1], c)
    else s
  }

  /** `s.replace(c, "")`. */
  function Without(s: string, c: char): string {
    if s == [] then [] else (if s[0] == c then [] else [s[0]]) + Without(s[1..], c)
  }

  /** `s.split("|")`. */
  function SplitBar(s: string): (r: seq<string>)
    ensures r != []
  {
    if s == [] then [[]]
    else
      var rest := SplitBar(s[1..]);
      if s[0] == '|' then [[]] + rest else [[s[0]] + rest[0]] + rest[1..]
  }

  function UpperChar(c: char): char { if 'a' <= c <= 'z' then c - 'a' + 'A' else c }

  function Upper(s: string): (r: string)
    ensures |r| == |s| && forall i :: 0 <= i < |s| ==> r[i] == UpperChar(s[i])
  {
    if s == [] then [] else [UpperChar(s[0])] + Upper(s[1..])
  }

  /** A line that belongs to a table. */
  predicate IsRow(line: string) {
    var t := TrimLeft(line);
    t != [] && t[0] == '|'
  }

  /** The `|---|:--|` line under a header. */
  predicate IsSeparator(line: string) {
    var t := Trim(line);
    && |t| >= 3 && t[0] == '|' && t[|t| - 1] == '|'
    && forall i :: 0 < i < |t| - 1 ==> IsSpace(t[i]) || t[i] in ":-|"
  }

  ghost predicate Blank(s: string) { forall i :: 0 <= i < |s| ==> IsSpace(s[i]) }

  lemma {:induction false} TrimLeftOf(pre: string, s: string)
    requires Blank(pre) && s != [] && !IsSpace(s[0])
    ensures TrimLeft(pre + s) == s
  {
    if pre == [] {
      assert pre + s == s;
    } else {
      assert (pre + s)[0] == pre[0] && (pre + s)[1..] == pre[1..] + s;
      TrimLeftOf(pre[1..], s);
    }
  }

  lemma {:induction false} TrimRightOf(s: string, post: string)
    requires Blank(post) && s != [] && !IsSpace(s[|s| - 1])
    ensures TrimRight(s + post) == s
    decreases |post|
  {
    var n := |post| - 1;
    if post == [] {
      assert s + post == s;
    } else {
      assert (s + post)[|s + post| - 1] == post[n] && (s + post)[..|s + post| - 1] == s + post[..n];
      TrimRightOf(s, post[..n]);
    }
  }

  /** Between blanks and bars there are only blanks, colons, dashes and bars, and at least one of them. */
  lemma {:induction false} SeparatorIff(pre: string, mid: string, post: string)
    requires Blank(pre) && Blank(post)
    ensures IsSeparator(pre + ("|" + mid + "|" + post))
            <==> mid != [] && forall i :: 0 <= i < |mid| ==> mid[i] in " \t\r:-|"
  {
    var s := "|" + mid + "|";
    TrimLeftOf(pre, s + post);
    TrimRightOf(s, post);
    assert forall i :: 0 <= i < |mid| ==> s[i + 1] == mid[i];
    assert forall i :: 0 < i < |s| - 1 ==> s[i] == mid[i - 1];
  }

  /** What stands between the bars. */
  function Parts(row: string): seq<string> { SplitBar(StripChar(Trim(row), '|')) }

  function CleanColumn(c: string): string { StripChar(Trim(c), '*') }

  function CleanCell(c: string): string { Without(Trim(c), '*') }

  function Columns(header: string): seq<string> {
    Map(CleanColumn, Parts(header))
  }

  function Cells(row: string): seq<string> {
    Map(CleanCell, Parts(row))
  }

  /** The first column with this name, in any case. */
  function IndexOf(cols: seq<string>, name: string): (r: Option<nat>)
    ensures r.Some? ==> r.value < |cols| && Upper(cols[r.value]) == name
    ensures r.None? ==> forall k :: 0 <= k < |cols| ==> Upper(cols[k]) != name
  {
    if cols == [] then None
    else if Upper(cols[0]) == name then Some(0)
    else match IndexOf(cols[1..], name) { case None => None case Some(k) => Some(k + 1) }
  }

  /** An unparsable or missing cell counts as minus infinity. */
  function Qps(column: nat, parse: string -> Option<Number>, row: string): Number {
    var cells := Cells(row);
    if column >= |cells| then NegInf
    else match parse(cells[column]) { case None => NegInf case Some(q) => q }
  }

  function Dataset(column: Option<nat>, row: string): string {
    if column.None? || column.value >= |Cells(row)| then "" else Cells(row)[column.value]
  }

  function RowKey(dataset: Option<nat>, qps: nat, parse: string -> Option<Number>, row: string): Key {
    Key(Dataset(dataset, row), Qps(qps, parse, row))
  }

  const QPS: string := "QPS"
  const DATASET: string := "DATASET"

  function KeyFor(dataset: Option<nat>, qps: nat, parse: string -> Option<Number>): string -> Key {
    row => RowKey(dataset, qps, parse, row)
  }

  /** A table without a QPS column is not keyed. */
  function Keyed(parse: string -> Option<Number>, header: string): Option<string -> Key> {
    match IndexOf(Columns(header), QPS)
    case None => None
    case Some(qps) => Some(KeyFor(IndexOf(Columns(header), DATASET), qps, parse))
  }

  /** The rules of Markdown tables; `parse` is `float`. */
  function MarkdownRules(parse: string -> Option<Number>): Rules<string> {
    Rules(IsRow, IsSeparator, header => Keyed(parse, header))
  }

  // ---- rows as the report's writers lay them out --------------------------------------------------------

  /** A cell that reads back as itself: no bar or star, no space at either end. */
  predicate Plain(c: string) {
    && (forall i :: 0 <= i < |c| ==> c[i] != '|' && c[i] != '*')
    && (c != [] ==> !IsSpace(c[0]) && !IsSpace(c[|c| - 1]))
  }

  function Padded(cells: seq<string>): string {
    if cells == [] then ""
    else if |cells| == 1 then [' '] + cells[0] + [' ']
    else ([' '] + cells[0] + [' ']) + (['|'] + Padded(cells[1..]))
  }

  function RenderRow(cells: seq<string>): string { ['|'] + Padded(cells) + ['|'] }

  lemma {:induction false} PaddedEnds(cells: seq<string>)
    requires cells != []
    ensures |Padded(cells)| >= 2 && Padded(cells)[0] == ' ' && Padded(cells)[|Padded(cells)| - 1] == ' '
    decreases |cells|
  {
    if |cells| > 1 { PaddedEnds(cells[1..]); }
  }

  lemma {:induction false} TrimPadded(c: string)
    requires Plain(c)
    ensures Trim([' '] + c + [' ']) == c
  {
    var s := [' '] + c + [' '];
    assert s[1..] == c + [' '];
    if c == [] {
      assert s[1..] == [' '] && [' '][1..] == [];
      assert TrimLeft(s) == TrimLeft([' ']) == TrimLeft([]) == [];
    } else {
      assert TrimLeft(s) == c + [' '] by { assert (c + [' '])[0] == c[0]; }
      var t := c + [' '];
      assert t[|t| - 1] == ' ' && t[..|t| - 1] == c;
      assert TrimRight(t) == TrimRight(c) == c;
    }
  }

  lemma {:induction false} WithoutAbsent(s: string, c: char)
    requires forall i :: 0 <= i < |s| ==> s[i] != c
    ensures Without(s, c) == s
    decreases |s|
  {
    if s != [] { WithoutAbsent(s[1..], c); }
  }

  lemma {:induction false} SplitAtBar(a: string, rest: Option<string>)
    requires forall i :: 0 <= i < |a| ==> a[i] != '|'
    ensures rest.None? ==> SplitBar(a) == [a]
    ensures rest.Some? ==> SplitBar(a + (['|'] + rest.value)) == [a] + SplitBar(rest.value)
    decreases |a|
  {
    if a == [] {
      if rest.Some? {
        assert a + (['|'] + rest.value) == ['|'] + rest.value && (['|'] + rest.value)[1..] == rest.value;
      }
    } else {
      SplitAtBar(a[1..], rest);
      assert [a[0]] + a[1..] == a;
      if rest.Some? {
        var s := a + (['|'] + rest.value);
        assert s[0] == a[0] && s[1..] == a[1..] + (['|'] + rest.value);
        assert ([a[1..]] + SplitBar(rest.value))[1..] == SplitBar(rest.value);
      }
    }
  }

  lemma {:induction false} SplitPadded(cells: seq<string>)
    requires cells != [] && forall i :: 0 <= i < |cells| ==> Plain(cells[i])
    ensures |SplitBar(Padded(cells))| == |cells|
    ensures forall i :: 0 <= i < |cells| ==> SplitBar(Padded(cells))[i] == [' '] + cells[i] + [' ']
    decreases |cells|
  {
    if |cells| == 1 {
      SplitLast(cells[0]);
    } else {
      SplitPadded(cells[1..]);
      SplitFirst(cells[0], Padded(cells[1..]));
    }
  }

  lemma {:induction false} SplitLast(c: string)
    requires Plain(c)
    ensures SplitBar([' '] + c + [' ']) == [[' '] + c + [' ']]
  {
    SplitAtBar([' '] + c + [' '], None);
  }

  lemma {:induction false} SplitFirst(c: string, rest: string)
    requires Plain(c)
    ensures SplitBar(([' '] + c + [' ']) + (['|'] + rest)) == [[' '] + c + [' ']] + SplitBar(rest)
  {
    SplitAtBar([' '] + c + [' '], Some(rest));
  }

  lemma {:induction false} StripRow(cells: seq<string>)
    requires cells != []
    ensures StripChar(Trim(RenderRow(cells)), '|') == Padded(cells)
  {
    var row, inner := RenderRow(cells), Padded(cells);
    PaddedEnds(cells);
    assert row[0] == '|' && row[|row| - 1] == '|';
    assert Trim(row) == row;
    assert row[1..] == inner + ['|'] && (inner + ['|'])[..|inner|] == inner;
    assert (inner + ['|'])[0] == inner[0];
    assert StripChar(inner, '|') == inner;
    assert StripChar(inner + ['|'], '|') == inner;
  }

  lemma {:induction false} CleanPadded(c: string)
    requires Plain(c)
    ensures CleanCell([' '] + c + [' ']) == c && CleanColumn([' '] + c + [' ']) == c
  {
    TrimPadded(c);
    WithoutAbsent(c, '*');
    assert StripChar(c, '*') == c;
  }

  /** The cells of a rendered row, and the columns of a rendered header, read back. */
  lemma {:induction false} CellsOfRow(cells: seq<string>)
    requires cells != [] && forall i :: 0 <= i < |cells| ==> Plain(cells[i])
    ensures Cells(RenderRow(cells)) == cells && Columns(RenderRow(cells)) == cells
  {
    var parts := Parts(RenderRow(cells));
    assert parts == SplitBar(Padded(cells)) by { StripRow(cells); }
    SplitPadded(cells);
    forall i | 0 <= i < |cells|
      ensures CleanCell(parts[i]) == cells[i] && CleanColumn(parts[i]) == cells[i]
    {
      CleanPadded(cells[i]);
    }
  }

  /** A rendered row is keyed by exactly the cells of the two columns; missing and unparsable numbers come last. */
  lemma {:induction false} KeyOfRow(parse: string -> Option<Number>, d: Option<nat>, q: nat, cells: seq<string>)
    requires cells != [] && forall i :: 0 <= i < |cells| ==> Plain(cells[i])
    ensures RowKey(d, q, parse, RenderRow(cells)).dataset
            == if d.None? || d.value >= |cells| then "" else cells[d.value]
    ensures RowKey(d, q, parse, RenderRow(cells)).qps
            == if q >= |cells| || parse(cells[q]).None? then NegInf else parse(cells[q]).value
  {
    CellsOfRow(cells);
  }

  // ---- what a reader of the report sees ------------------------------------------------------------------------

  /** The column has this name, in any case. */
  ghost predicate IsNamed(c: string, name: string) {
    |c| == |name| && forall i :: 0 <= i < |c| ==> c[i] == name[i] || (Capital(name[i]) && c[i] == name[i] - 'A' + 'a')
  }

  predicate Capital(c: char) { 'A' <= c <= 'Z' }

  lemma {:induction false} UpperIs(c: string, name: string)
    requires forall i :: 0 <= i < |name| ==> Capital(name[i])
    ensures Upper(c) == name <==> IsNamed(c, name)
  {
    var u := Upper(c);
    if |c| == |name| {
      forall i | 0 <= i < |c|
        ensures u[i] == name[i] <==> c[i] == name[i] || (Capital(name[i]) && c[i] == name[i] - 'A' + 'a')
      {
        assert u[i] == UpperChar(c[i]);
      }
    }
  }

  /** The first column of a name, if there is one. */
  ghost predicate FirstColumn(cols: seq<string>, name: string, k: Option<nat>) {
    match k
    case Some(q) => q < |cols| && IsNamed(cols[q], name) && forall j :: 0 <= j < q ==> !IsNamed(cols[j], name)
    case None => forall j :: 0 <= j < |cols| ==> !IsNamed(cols[j], name)
  }

  lemma {:induction false} IndexOfIs(cols: seq<string>, name: string, k: Option<nat>)
    requires FirstColumn(cols, name, k) && forall i :: 0 <= i < |name| ==> Capital(name[i])
    ensures IndexOf(cols, name) == k
    decreases |cols|
  {
    if cols != [] {
      UpperIs(cols[0], name);
      if k.None? || k.value > 0 {
        assert forall j :: 0 <= j < |cols| - 1 ==> cols[1..][j] == cols[j + 1];
        IndexOfIs(cols[1..], name, if k.None? then None else Some(k.value - 1));
      }
    }
  }

  function CellAt(column: Option<nat>, cells: seq<string>): string {
    if column.Some? && column.value < |cells| then cells[column.value] else ""
  }

  /** The number in a row's QPS column, if it is there and can be parsed. */
  function NumberAt(parse: string -> Option<Number>, q: nat, cells: seq<string>): Option<Number> {
    if q < |cells| then parse(cells[q]) else None
  }

  /** The row with cells `x` may stand before the one with cells `y`: datasets rise; within a dataset numbers fall, and
      rows without a number come after all rows with one. */
  ghost predicate InOrder(parse: string -> Option<Number>, d: Option<nat>, q: nat, x: seq<string>, y: seq<string>) {
    || Less(CellAt(d, x), CellAt(d, y))
    || (CellAt(d, x) == CellAt(d, y) && Falls(NumberAt(parse, q, x), NumberAt(parse, q, y)))
  }

  ghost predicate Falls(a: Option<Number>, b: Option<Number>) {
    && (a.Some? && a.value.Finite? && b.Some? && b.value.Finite? ==> a.value.value >= b.value.value)
    && (a.None? || a.value.NegInf? ==> b.None? || b.value.NegInf?)
    && (b.Some? && b.value.PosInf? ==> a.Some? && a.value.PosInf?)
  }

  lemma {:induction false} KeyOrder(parse: string -> Option<Number>, d: Option<nat>, q: nat, x: seq<string>,
                                    y: seq<string>)
    requires IsTableRow(x) && IsTableRow(y)
    requires KeyLeq(RowKey(d, q, parse, RenderRow(x)), RowKey(d, q, parse, RenderRow(y)))
    ensures InOrder(parse, d, q, x, y)
  {
    KeyOfRow(parse, d, q, x);
    KeyOfRow(parse, d, q, y);
  }

  ghost predicate IsTableRow(cells: seq<string>) { cells != [] && forall i :: 0 <= i < |cells| ==> Plain(cells[i]) }

  /** The separator under a header of `n` columns. */
  function RenderSeparator(n: nat): string { ['|'] + Dashes(n) }

  function Dashes(n: nat): string { if n == 0 then "" else "---|" + Dashes(n - 1) }

  lemma {:induction false} DashesAre(n: nat)
    ensures forall i :: 0 <= i < |Dashes(n)| ==> Dashes(n)[i] == '-' || Dashes(n)[i] == '|'
    ensures n > 0 ==> |Dashes(n)| >= 4 && Dashes(n)[|Dashes(n)| - 1] == '|'
  {
    if n > 0 { DashesAre(n - 1); }
  }

  /** The lines of a rendered table are read as such, and a row that shows a letter or digit is no separator. */
  lemma {:induction false} RenderedLines(cells: seq<string>, n: nat)
    requires cells != [] && n > 0
    ensures IsRow(RenderRow(cells)) && IsSeparator(RenderSeparator(n))
    ensures (exists i :: 0 < i < |RenderRow(cells)| && RenderRow(cells)[i] !in " \t\r:-|") ==>
              !IsSeparator(RenderRow(cells))
  {
    DashesAre(n);
    var s, row := RenderSeparator(n), RenderRow(cells);
    assert s[0] == '|' && s[|s| - 1] == '|' && TrimLeft(s) == s && TrimRight(s) == s;
    assert row[0] == '|' && row[|row| - 1] == '|' && TrimLeft(row) == row && TrimRight(row) == row;
  }

  /** A line whose first character after white space is no bar is no row. */
  lemma {:induction false} NoRow(spaces: string, line: string)
    requires forall i :: 0 <= i < |spaces| ==> IsSpace(spaces[i])
    ensures line != "" && !IsSpace(line[0]) ==> (IsRow(spaces + line) <==> line[0] == '|')
    ensures line == "" ==> !IsRow(spaces + line)
  {
    if spaces == [] {
      assert spaces + line == line;
    } else {
      assert (spaces + line)[0] == spaces[0] && (spaces + line)[1..] == spaces[1..] + line;
      NoRow(spaces[1..], line);
    }
  }

  function RenderRows(body: seq<seq<string>>): seq<string> { Map(RenderRow, body) }

  ghost predicate Shows(row: string, cells: seq<string>) { IsTableRow(cells) && row == RenderRow(cells) }

  ghost predicate ReportRows(rows: seq<string>, parse: string -> Option<Number>, d: Option<nat>, q: nat) {
    forall i, j, x, y :: 0 <= i < j < |rows| && Shows(rows[i], x) && Shows(rows[j], y) ==> InOrder(parse, d, q, x, y)
  }

  /** A rendered table, wherever it stands after text lines: its rows come out as a permutation, in order if it has a
      QPS column and as they were if not, between the same lines. */
  lemma {:induction false} RenderedTableSorted(parse: string -> Option<Number>, before: seq<string>, cols: seq<string>,
                                               n: nat, body: seq<seq<string>>, rest: seq<string>, d: Option<nat>,
                                               q: Option<nat>) returns (rows: seq<string>)
    requires forall i :: 0 <= i < |before| ==> !IsRow(before[i])
    requires IsTableRow(cols) && n > 0 && forall i :: 0 <= i < |body| ==> body[i] != []
    requires rest == [] || !IsRow(rest[0])
    requires IndexOf(cols, QPS) == q && IndexOf(cols, DATASET) == d
    ensures var head := [RenderRow(cols), RenderSeparator(n)];
            SortTables(MarkdownRules(parse), before + (head + RenderRows(body) + rest))
            == before + (head + rows + SortTables(MarkdownRules(parse), rest))
    ensures multiset(rows) == multiset(RenderRows(body)) && |rows| == |body|
    ensures q.None? ==> rows == RenderRows(body)
    ensures q.Some? ==> ReportRows(rows, parse, d, q.value)
  {
    assert IsRow(RenderRow(cols)) && IsSeparator(RenderSeparator(n)) by { RenderedLines(cols, n); }
    forall i | 0 <= i < |body|
      ensures IsRow(RenderRow(body[i]))
    {
      RenderedLines(body[i], n);
    }
    KeyedIs(parse, cols);
    rows := TableInReport(MarkdownRules(parse), parse, before, RenderRow(cols), RenderSeparator(n), RenderRows(body),
                          rest, d, q);
  }

  /** The same for any rules that key the table so. */
  lemma {:induction false} TableInReport(r: Rules<string>, parse: string -> Option<Number>, before: seq<string>,
                                         h: string, s: string, body: seq<string>, rest: seq<string>, d: Option<nat>,
                                         q: Option<nat>) returns (rows: seq<string>)
    requires forall i :: 0 <= i < |before| ==> !r.isRow(before[i])
    requires r.isRow(h) && r.isSeparator(s) && (forall i :: 0 <= i < |body| ==> r.isRow(body[i]))
    requires rest == [] || !r.isRow(rest[0])
    requires r.keyed(h) == if q.None? then None else Some(KeyFor(d, q.value, parse))
    ensures SortTables(r, before + ([h, s] + body + rest)) == before + ([h, s] + rows + SortTables(r, rest))
    ensures multiset(rows) == multiset(body) && |rows| == |body| && (q.None? ==> rows == body)
    ensures q.Some? ==> ReportRows(rows, parse, d, q.value)
  {
    rows := SortBody(r, h, body);
    TableSorts(r, h, s, body, rest);
    TextStays(r, before, [h, s] + body + rest);
    SortBodyMeaning(r, h, body);
    if q.Some? { BodyInOrder(parse, d, q.value, rows); }
  }

  lemma {:induction false} KeyedIs(parse: string -> Option<Number>, cols: seq<string>)
    requires IsTableRow(cols)
    ensures Keyed(parse, RenderRow(cols))
            == match IndexOf(cols, QPS)
               case None => None
               case Some(q) => Some(KeyFor(IndexOf(cols, DATASET), q, parse))
  {
    CellsOfRow(cols);
  }

  lemma {:induction false} BodyInOrder(parse: string -> Option<Number>, d: Option<nat>, q: nat, rows: seq<string>)
    requires Sorted(ByKey(KeyFor(d, q, parse)), rows)
    ensures ReportRows(rows, parse, d, q)
  {
    forall i, j, x, y | 0 <= i < j < |rows| && Shows(rows[i], x) && Shows(rows[j], y)
      ensures InOrder(parse, d, q, x, y)
    {
      assert ByKey(KeyFor(d, q, parse))(rows[i], rows[j]);
      KeyOrder(parse, d, q, x, y);
    }
  }

  lemma {:induction false} TableSorts<L(!new)>(r: Rules<L>, h: L, s: L, body: seq<L>, rest: seq<L>)
    requires r.isRow(h) && r.isSeparator(s) && forall i :: 0 <= i < |body| ==> r.isRow(body[i])
    requires rest == [] || !r.isRow(rest[0])
    ensures SortTables(r, [h, s] + body + rest) == [h, s] + SortBody(r, h, body) + SortTables(r, rest)
  {
    var lines := [h, s] + body + rest;
    assert lines[0] == h && lines[1] == s && lines[2..] == body + rest;
    RowRunOf(r, body, rest);
    assert lines[2..2 + |body|] == body && lines[2 + |body|..] == rest;
  }

  lemma {:induction false} TextStays<L(!new)>(r: Rules<L>, before: seq<L>, lines: seq<L>)
    requires forall i :: 0 <= i < |before| ==> !r.isRow(before[i])
    ensures SortTables(r, before + lines) == before + SortTables(r, lines)
    decreases |before|
  {
    if before == [] {
      assert before + lines == lines;
    } else {
      assert (before + lines)[0] == before[0] && (before + lines)[1..] == before[1..] + lines;
      TextStays(r, before[1..], lines);
      Regroup([before[0]], before[1..], SortTables(r, lines));
      assert [before[0]] + before[1..] == before;
    }
  }

  method SortTablesByQps(lines: seq<string>, parse: string -> Option<Number>) returns (out: seq<string>)
    ensures out == SortTables(MarkdownRules(parse), lines)
    ensures multiset(out) == multiset(lines) && |out| == |lines|
    ensures forall i :: 0 <= i < |lines| && !InBody(MarkdownRules(parse), lines, i) ==> out[i] == lines[i]
    ensures forall i :: 0 <= i < |lines| && !UnderTable(MarkdownRules(parse), lines, i) ==> out[i] == lines[i]
    ensures SortTables(MarkdownRules(parse), out) == out
  {
    var rules := MarkdownRules(parse);
    out := SortReport(rules, lines);
    OutsideStays(rules, lines);
    SortTablesIdempotent(rules, lines);
  }
}
