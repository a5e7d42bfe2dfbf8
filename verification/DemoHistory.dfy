/** Whole histories of the demo pipeline: embed runs and load starts in any order, each stopped anywhere, the
    removal of the shards included. */
module DemoHistory {
  import opened Seqs
  import opened PartFiles
  import opened ShardNames
  import opened LoadStreams
  import opened DemoLoad
  import Embed = EmbedStage
  import Load = LoadStage

  // ---- which rows the shards on disk can give rightly --------------------------------------------------

  /** The rows of the shards before the first missing number. */
  function Covered<V>(parts: Dir<V>): nat { |Flatten(Leading(parts))| }

  /** The file starts with the vector of a row after row `g`. */
  ghost predicate Late<V>(file: seq<V>, vecs: seq<V>, g: nat) {
    file != [] && exists p :: g < p < |vecs| && vecs[p] == file[0]
  }

  /** The shards before the first missing number hold the first vectors in order; those after it start too late. */
  ghost predicate Sound<V>(parts: Dir<V>, vecs: seq<V>) {
    && Flatten(Leading(parts)) <= vecs
    && (forall i :: 0 <= i < |Leading(parts)| ==> Leading(parts)[i] != [])
    && (forall i :: |Leading(parts)| <= i < |parts| && parts[i].Some? ==> Late(parts[i].value, vecs, Covered(parts)))
  }

  lemma {:induction false} StartsAt<V>(files: seq<seq<V>>, i: nat, vecs: seq<V>)
    requires i < |files| && files[i] != [] && Flatten(files) <= vecs
    ensures |Flatten(files[..i])| < |vecs| && vecs[|Flatten(files[..i])|] == files[i][0]
  {
    SplitAt(files, i);
  }

  lemma {:induction false} FlattenGrows<V>(files: seq<seq<V>>, i: nat, j: nat)
    requires i <= j <= |files| && forall k :: 0 <= k < |files| ==> files[k] != []
    ensures |Flatten(files[..i])| <= |Flatten(files[..j])| <= |Flatten(files)|
    ensures i < j ==> |Flatten(files[..i])| < |Flatten(files[..j])|
    ensures Flatten(files[..i]) <= Flatten(files)
  {
    assert files == files[..j] + files[j..] && files == files[..i] + files[i..];
    assert files[..j] == files[..i] + files[i..j];
    FlattenAppend(files[..j], files[j..]);
    FlattenAppend(files[..i], files[i..j]);
    FlattenAppend(files[..i], files[i..]);
    if i < j { assert Flatten(files[i..j]) == files[i..j][0] + Flatten(files[i..j][1..]); }
  }

  lemma {:induction false} RemoveKeepsSound<V>(parts: Dir<V>, vecs: seq<V>, i: nat)
    requires Sound(parts, vecs)
    ensures Sound(Remove(parts, i), vecs)
  {
    var files, next := Leading(parts), Remove(parts, i);
    var g, m := |files|, Min(i, |files|);
    RemoveCuts(parts, i);
    LeadingFirst(parts);
    FlattenGrows(files, m, g);
    forall j | m <= j < |next| && next[j].Some?
      ensures Late(next[j].value, vecs, Covered(next))
    {
      if j < g {
        FlattenGrows(files, m, j);
        StartsAt(files, j, vecs);
        assert parts[j] == parts[..g][j];
      } else {
        assert Late(parts[j].value, vecs, Covered(parts));
      }
    }
  }

  lemma {:induction false} RemoveAllKeepsSound<V>(parts: Dir<V>, vecs: seq<V>, order: seq<nat>)
    requires Sound(parts, vecs)
    ensures Sound(RemoveAll(parts, order), vecs)
    decreases |order|
  {
    if order != [] {
      var n := |order| - 1;
      RemoveAllKeepsSound(parts, vecs, order[..n]);
      RemoveKeepsSound(RemoveAll(parts, order[..n]), vecs, order[n]);
    }
  }

  /** A run over the nodes, without empty batches. */
  ghost predicate RunsOver<N>(run: Embed.Run<N>, nodes: seq<N>) {
    Flatten(run.batches) == nodes && forall i :: 0 <= i < |run.batches| ==> run.batches[i] != []
  }

  /** A run on sound shards leaves sound ones that cover no fewer rows, with a gap or without. */
  lemma {:induction false} EmbedKeepsSound<N, V>(parts: Dir<V>, nodes: seq<N>, enc: N -> V, run: Embed.Run<N>)
    requires Sound(parts, Map(enc, nodes)) && RunsOver(run, nodes)
    ensures Sound(Embed.AfterRunIn(parts, enc, run), Map(enc, nodes))
    ensures Covered(Embed.AfterRunIn(parts, enc, run)) >= Covered(parts)
  {
    if NoGap(parts) {
      EmbedWithoutGap(parts, nodes, enc, run);
    } else {
      EmbedBeyondGap(parts, nodes, enc, run);
    }
  }

  lemma {:induction false} EmbedWithoutGap<N, V>(parts: Dir<V>, nodes: seq<N>, enc: N -> V, run: Embed.Run<N>)
    requires NoGap(parts) && Sound(parts, Map(enc, nodes)) && RunsOver(run, nodes)
    ensures Sound(Embed.AfterRunIn(parts, enc, run), Map(enc, nodes))
    ensures Covered(Embed.AfterRunIn(parts, enc, run)) >= Covered(parts)
  {
    var vecs, files, next := Map(enc, nodes), Listed(parts), Embed.AfterRunIn(parts, enc, run);
    var added := Embed.Added(|Flatten(files)|, enc, run);
    assert files == Leading(parts) by { NoGapIff(parts); }
    assert NoGap(next) && Listed(next) == files + added by { PlaceAfter(parts, added); }
    FlattenAppend(files, added);
    Embed.AddedRows(|Flatten(files)|, enc, run);
    JoinPrefix(Flatten(files), Flatten(added), vecs);
    AllSound(next, vecs);
  }

  lemma {:induction false} AllSound<V>(parts: Dir<V>, vecs: seq<V>)
    requires NoGap(parts) && Flatten(Listed(parts)) <= vecs
    requires forall i :: 0 <= i < |Listed(parts)| ==> Listed(parts)[i] != []
    ensures Sound(parts, vecs) && Covered(parts) == |Flatten(Listed(parts))|
  {
    NoGapIff(parts);
  }

  lemma {:induction false} JoinPrefix<T>(a: seq<T>, b: seq<T>, whole: seq<T>)
    requires a <= whole && b <= whole[|a|..]
    ensures a + b <= whole
  {
  }

  lemma {:induction false} EmbedBeyondGap<N, V>(parts: Dir<V>, nodes: seq<N>, enc: N -> V, run: Embed.Run<N>)
    requires !NoGap(parts) && Sound(parts, Map(enc, nodes)) && RunsOver(run, nodes)
    ensures Sound(Embed.AfterRunIn(parts, enc, run), Map(enc, nodes))
    ensures Covered(Embed.AfterRunIn(parts, enc, run)) == Covered(parts)
  {
    var vecs, next := Map(enc, nodes), Embed.AfterRunIn(parts, enc, run);
    var c, n := |Listed(parts)|, |Flatten(Listed(parts))|;
    Embed.GapStays(parts, enc, run);
    assert n > Covered(parts) by { ListedBeyond(parts, vecs); }
    var added := Embed.Added(n, enc, run);
    if n < |nodes| { Embed.AddedRows(n, enc, run); }
    forall i | |Leading(next)| <= i < |next| && next[i].Some?
      ensures Late(next[i].value, vecs, Covered(next))
    {
      PlaceAt(parts, c, added, i);
      if c <= i < c + |added| { AddedIsLate(added, vecs, n, i - c, Covered(next)); }
    }
  }

  lemma {:induction false} AddedIsLate<V>(added: seq<seq<V>>, vecs: seq<V>, n: nat, i: nat, g: nat)
    requires g < n <= |vecs| && i < |added| && added[i] != [] && Flatten(added) <= vecs[n..]
    ensures Late(added[i], vecs, g)
  {
    StartsAt(added, i, vecs[n..]);
    assert vecs[n..][|Flatten(added[..i])|] == vecs[n + |Flatten(added[..i])|];
  }

  /** With a gap, the stream of the shards goes on after the covered rows, with a vector that comes too early. */
  lemma {:induction false} ListedBeyond<V>(parts: Dir<V>, vecs: seq<V>)
    requires Sound(parts, vecs) && (|Flatten(Listed(parts))| > Covered(parts) || !NoGap(parts))
    ensures Flatten(Leading(parts)) <= Flatten(Listed(parts)) && |Flatten(Listed(parts))| > Covered(parts)
    ensures exists p :: Covered(parts) < p < |vecs| && vecs[p] == Flatten(Listed(parts))[Covered(parts)]
  {
    var g := |Leading(parts)|;
    LeadingFirst(parts);
    NoGapIff(parts);
    var rest := parts[g..];
    FlattenAppend(Leading(parts), Listed(rest));
    assert Listed(rest) != [];
    var i := FirstListed(rest);
    assert parts[g + i] == rest[i] && Late(parts[g + i].value, vecs, Covered(parts));
    assert Flatten(Listed(rest)) == Listed(rest)[0] + Flatten(Listed(rest)[1..]);
  }

  /** What is read from sound shards are the first vectors in order if and only if the shards that are there are those
      of the first numbers. */
  lemma {:induction false} StreamRightIff<V>(parts: Dir<V>, vecs: seq<V>)
    requires |parts| <= 1000 && Sound(parts, vecs) && Load.Distinct(vecs)
    ensures Flatten(Read(parts)) <= vecs <==> NoGap(parts)
  {
    ReadInOrder(parts);
    NoGapIff(parts);
    if !NoGap(parts) { ListedBeyond(parts, vecs); }
  }

  lemma {:induction false} FirstListed<V>(d: Dir<V>) returns (i: nat)
    requires Listed(d) != []
    ensures i < |d| && d[i] == Some(Listed(d)[0])
  {
    if d[0].Some? {
      i := 0;
    } else {
      i := FirstListed(d[1..]);
      i := i + 1;
    }
  }

  /** Every node with its own embedding. */
  function Paired<N, V>(nodes: seq<N>, enc: N -> V): (r: seq<(N, Option<V>)>)
    ensures |r| == |nodes| && forall i :: 0 <= i < |r| ==> r[i] == (nodes[i], Some(enc(nodes[i])))
  {
    seq(|nodes|, i requires 0 <= i < |nodes| => (nodes[i], Some(enc(nodes[i]))))
  }

  /** The rows that sound shards give are right as far as they are covered, and wrong right after. */
  lemma {:induction false} GivenRightIff<N, V>(nodes: seq<N>, enc: N -> V, parts: Dir<V>)
    requires |parts| <= 1000 && Sound(parts, Map(enc, nodes)) && Load.Distinct(Map(enc, nodes))
    ensures var rows, g := Given(nodes, parts), Covered(parts);
            && g <= |rows| <= |nodes| && rows[..g] == Paired(nodes, enc)[..g]
            && (|rows| > g ==> rows[g] != Paired(nodes, enc)[g])
            && forall i :: 0 <= i < |rows| ==> rows[i].0 == nodes[i]
  {
    ReadInOrder(parts);
    StreamCovered(parts, Map(enc, nodes));
    if Listed(parts) != [] { MatchedRight(nodes, enc, Flatten(Listed(parts)), Covered(parts)); }
  }

  lemma {:induction false} StreamCovered<V>(parts: Dir<V>, vecs: seq<V>)
    requires Sound(parts, vecs) && Load.Distinct(vecs)
    ensures var stream, g := Flatten(Listed(parts)), Covered(parts);
            && g <= |stream| && g <= |vecs| && stream[..g] == vecs[..g] && (Listed(parts) == [] ==> g == 0)
            && (g < |stream| && g < |vecs| ==> stream[g] != vecs[g])
  {
    var stream, first := Flatten(Listed(parts)), Flatten(Leading(parts));
    LeadingFirst(parts);
    FlattenAppend(Leading(parts), Listed(parts[|Leading(parts)|..]));
    assert stream[..|first|] == first == vecs[..|first|];
    if |stream| > Covered(parts) { ListedBeyond(parts, vecs); }
  }

  lemma {:induction false} MatchedRight<N, V>(nodes: seq<N>, enc: N -> V, stream: seq<V>, g: nat)
    requires g <= |stream| && g <= |nodes| && stream[..g] == Map(enc, nodes)[..g]
    requires g < |stream| && g < |nodes| ==> stream[g] != enc(nodes[g])
    ensures var rows := WithVectors(Matched(nodes, stream));
            && g <= |rows| <= |nodes| && rows[..g] == Paired(nodes, enc)[..g]
            && (|rows| > g ==> rows[g] != Paired(nodes, enc)[g])
            && forall i :: 0 <= i < |rows| ==> rows[i].0 == nodes[i]
  {
    var rows := WithVectors(Matched(nodes, stream));
    forall i | 0 <= i < g
      ensures rows[i] == Paired(nodes, enc)[i]
    {
      assert stream[i] == stream[..g][i] == Map(enc, nodes)[..g][i];
    }
  }

  // ---- histories ---------------------------------------------------------------------------------------------

  datatype Event<N> = Embed(run: Embed.Run<N>) | Load(visit: Visit)

  ghost predicate Possible<N>(e: Event<N>, nodes: seq<N>) {
    match e
    case Embed(run) => RunsOver(run, nodes)
    case Load(v) => v.start.chunkRows > 0
  }

  ghost function After<N, V>(nodes: seq<N>, enc: N -> V, size: nat, d: Demo<N, V>, e: Event<N>): Demo<N, V>
    requires size > 0 && Possible(e, nodes)
  {
    match e
    case Embed(run) => d.(parts := Embed.AfterRunIn(d.parts, enc, run))
    case Load(v) => AfterVisit(nodes, size, d, v)
  }

  /** The books of the load stage, and whether every start since the table was last cleared has kept within the rows
      that the shards it read cover. */
  datatype Account = Account(books: Load.Books, within: bool)

  ghost function Booked<N, V>(nodes: seq<N>, size: nat, a: Account, parts: Dir<V>, run: Load.Start): Account
    requires size > 0 && run.chunkRows > 0
  {
    var b := Load.StartBooks(NodeSource(nodes, parts, size), a.books, run);
    var loaded := if run.rebuild || run.uncounted then 0 else a.books.rows;
    if loaded >= |nodes| then Account(b, run.rebuild || a.within)
    else Account(b, (loaded == 0 || a.within) && b.rows <= Covered(parts))
  }

  ghost predicate AllPossible<N>(events: seq<Event<N>>, nodes: seq<N>) {
    forall i :: 0 <= i < |events| ==> Possible(events[i], nodes)
  }

  ghost function Run<N, V>(nodes: seq<N>, enc: N -> V, size: nat, events: seq<Event<N>>): Demo<N, V>
    requires size > 0 && AllPossible(events, nodes)
    decreases |events|
  {
    if events == [] then Demo([], [])
    else After(nodes, enc, size, Run(nodes, enc, size, events[..|events| - 1]), events[|events| - 1])
  }

  ghost function Accounted<N, V>(nodes: seq<N>, enc: N -> V, size: nat, events: seq<Event<N>>): Account
    requires size > 0 && AllPossible(events, nodes)
    decreases |events|
  {
    if events == [] then Account(Load.Books(0, true), true)
    else
      var front, e := events[..|events| - 1], events[|events| - 1];
      var a := Accounted(nodes, enc, size, front);
      match e
      case Embed(_) => a
      case Load(v) => Booked(nodes, size, a, Run(nodes, enc, size, front).parts, v.start)
  }

  /** No shard number ever needs a fourth digit. */
  ghost predicate NamesFit<N, V>(nodes: seq<N>, enc: N -> V, size: nat, events: seq<Event<N>>)
    requires size > 0 && AllPossible(events, nodes)
  {
    forall k :: 0 <= k <= |events| ==> |Run(nodes, enc, size, events[..k]).parts| <= 1000
  }

  // ---- the table is right exactly when the account is -----------------------------------------------------------

  function NodeOf<N, V>(row: (N, Option<V>)): N { row.0 }

  /** What holds between the state and the account. */
  ghost predicate Agrees<N, V>(nodes: seq<N>, enc: N -> V, d: Demo<N, V>, a: Account) {
    && Sound(d.parts, Map(enc, nodes))
    && Load.Accounts(nodes, Map(NodeOf, d.table), a.books)
    && (d.table <= Paired(nodes, enc) <==> a.books.clean && a.within)
    && (d.table <= Paired(nodes, enc) ==> |d.table| <= Covered(d.parts) || |d.table| >= |nodes|)
  }

  lemma {:induction false} PairedNodes<N, V>(nodes: seq<N>, enc: N -> V, table: seq<(N, Option<V>)>)
    requires table <= Paired(nodes, enc)
    ensures Map(NodeOf, table) <= nodes
  {
  }

  /** The node column is loaded as if there were no vectors. */
  lemma {:induction false} NodesAccount<N, V>(nodes: seq<N>, d: Demo<N, V>, b: Load.Books, size: nat, run: Load.Start)
    requires size > 0 && run.chunkRows > 0 && Load.Distinct(nodes) && Load.Accounts(nodes, Map(NodeOf, d.table), b)
    ensures Load.Accounts(nodes, Map(NodeOf, AfterStart(nodes, size, d, run).table),
                          Load.StartBooks(NodeSource(nodes, d.parts, size), b, run))
  {
    var src := NodeSource(nodes, d.parts, size);
    var column := Load.Mapped(NodeOf<N, V>, src);
    assert Load.Gives(column, nodes) by {
      SourceGives(nodes, d.parts, size);
      ColumnGives(nodes, Given(nodes, d.parts), src);
    }
    Load.StartAccounts(column, nodes, Map(NodeOf, d.table), b, run);
    Load.MappedStart(NodeOf, src, d.table, b, run);
  }

  lemma {:induction false} ColumnGives<N, V>(nodes: seq<N>, rows: seq<(N, Option<V>)>,
                                             src: Load.Source<(N, Option<V>)>)
    requires Load.Gives(src, rows) && src.total == |nodes|
    requires |rows| <= |nodes| && forall i :: 0 <= i < |rows| ==> rows[i].0 == nodes[i]
    ensures Load.Gives(Load.Mapped(NodeOf, src), nodes)
  {
    forall s, e | 0 <= s <= e <= |nodes|
      ensures Load.GivesPiece(Load.Mapped(NodeOf, src).piece(s, e), nodes, s, e)
    {
      var p := src.piece(s, e);
      assert Load.GivesPiece(p, rows, s, e);
      ColumnPrefix(p.rows, rows, nodes, s, e);
    }
  }

  lemma {:induction false} ColumnPrefix<N, V>(part: seq<(N, Option<V>)>, rows: seq<(N, Option<V>)>, nodes: seq<N>,
                                              s: nat, e: nat)
    requires s <= e <= |nodes| && part <= Range(rows, s, e)
    requires |rows| <= |nodes| && forall i :: 0 <= i < |rows| ==> rows[i].0 == nodes[i]
    ensures Map(NodeOf, part) <= Range(nodes, s, e)
  {
    forall i | 0 <= i < |part|
      ensures NodeOf(part[i]) == nodes[s + i]
    {
      assert part[i] == Range(rows, s, e)[i] == rows[s + i];
    }
  }

  /** The loop of a start that is not done yet: right rows so far stay right exactly if the loop is clean and keeps
      within the covered rows. */
  lemma {:induction false} LoopRightIff<N, V>(nodes: seq<N>, enc: N -> V, parts: Dir<V>, size: nat,
                                              table: seq<(N, Option<V>)>, chunkRows: nat, chunks: seq<Load.Chunk>)
    requires size > 0 && chunkRows > 0 && |parts| <= 1000
    requires Sound(parts, Map(enc, nodes)) && Load.Distinct(Map(enc, nodes))
    requires table <= Paired(nodes, enc) && |table| <= Covered(parts)
    requires Load.LoopBooks(NodeSource(nodes, parts, size), Load.Books(0, true), |table|, chunkRows, chunks).clean
    ensures var end := Load.ChunkLoop(NodeSource(nodes, parts, size), table, |table|, chunkRows, chunks);
            && (end.table <= Paired(nodes, enc) <==> |end.table| <= Covered(parts))
            && |table| <= |end.table| <= |Given(nodes, parts)|
  {
    var right, rows, g, s := Paired(nodes, enc), Given(nodes, parts), Covered(parts), |table|;
    GivenRightIff(nodes, enc, parts);
    SourceGives(nodes, parts, size);
    var n := Load.CleanLoop(NodeSource(nodes, parts, size), rows, table, s, chunkRows, chunks);
    RightUpTo(right, rows, table, g, n);
  }

  lemma {:induction false} RightUpTo<T>(right: seq<T>, rows: seq<T>, table: seq<T>, g: nat, n: nat)
    requires table <= right && |table| <= g <= |rows| <= |right| && |table| <= n <= |rows|
    requires rows[..g] == right[..g] && (|rows| > g ==> rows[g] != right[g])
    ensures table + rows[|table|..n] <= right <==> n <= g
  {
    var s := |table|;
    var end := table + rows[s..n];
    if n <= g {
      forall k | 0 <= k < n
        ensures end[k] == right[k]
      {
        assert k < s ==> table[k] == right[k];
        assert rows[k] == rows[..g][k] == right[..g][k];
      }
    } else {
      assert end[g] == rows[g];
    }
  }

  lemma {:induction false} StartAgrees<N, V>(nodes: seq<N>, enc: N -> V, size: nat, d: Demo<N, V>, a: Account,
                                             run: Load.Start)
    requires size > 0 && run.chunkRows > 0 && |d.parts| <= 1000
    requires Load.Distinct(nodes) && Load.Distinct(Map(enc, nodes)) && Agrees(nodes, enc, d, a)
    ensures var end := AfterStart(nodes, size, d, run);
            && Agrees(nodes, enc, d.(table := end.table), Booked(nodes, size, a, d.parts, run))
            && (end.finished ==> |end.table| >= |nodes|)
  {
    var src, right := NodeSource(nodes, d.parts, size), Paired(nodes, enc);
    var end, b := AfterStart(nodes, size, d, run), Load.StartBooks(src, a.books, run);
    NodesAccount(nodes, d, a.books, size, run);
    assert |end.table| == b.rows && |d.table| == a.books.rows;
    if end.table <= right { PairedNodes(nodes, enc, end.table); }
    var loaded := Load.Loaded(d.table, run);
    if loaded < |nodes| {
      var from, b0 := if loaded == 0 then [] else d.table, if loaded == 0 then Load.Books(0, true) else a.books;
      Load.LoopAppends(src, from, b0, loaded, run.chunkRows, run.chunks);
      Load.CleanStays(src, b0, loaded, run.chunkRows, run.chunks);
      SourceGives(nodes, d.parts, size);
      if end.finished { Load.FinishedIsFull(src, Given(nodes, d.parts), d.table, run); }
      if b.clean && (loaded == 0 || a.within) {
        LoopRightIff(nodes, enc, d.parts, size, from, run.chunkRows, run.chunks);
      } else if b.clean {
        assert !(d.table <= right) && d.table <= end.table;
      }
    }
  }

  /** A clean start on shards that are there without a gap keeps within what they cover. */
  lemma {:induction false} WholeIsWithin<N, V>(nodes: seq<N>, enc: N -> V, size: nat, d: Demo<N, V>, a: Account,
                                               run: Load.Start)
    requires size > 0 && run.chunkRows > 0 && |d.parts| <= 1000
    requires Load.Distinct(nodes) && Load.Distinct(Map(enc, nodes)) && Agrees(nodes, enc, d, a)
    requires a.books.clean ==> a.within
    requires run.rebuild || run.uncounted || |d.table| < |nodes| ==> NoGap(d.parts) && Listed(d.parts) != []
    ensures var next := Booked(nodes, size, a, d.parts, run); next.books.clean ==> next.within
  {
    var src, loaded := NodeSource(nodes, d.parts, size), Load.Loaded(d.table, run);
    var b := Load.StartBooks(src, a.books, run);
    if loaded < |nodes| && b.clean {
      var from, b0 := if loaded == 0 then [] else d.table, if loaded == 0 then Load.Books(0, true) else a.books;
      Load.LoopAppends(src, from, b0, loaded, run.chunkRows, run.chunks);
      Load.CleanStays(src, b0, loaded, run.chunkRows, run.chunks);
      LoopRightIff(nodes, enc, d.parts, size, from, run.chunkRows, run.chunks);
      NoGapIff(d.parts);
      ReadInOrder(d.parts);
    }
  }

  lemma {:induction false} EventAgrees<N, V>(nodes: seq<N>, enc: N -> V, size: nat, d: Demo<N, V>, a: Account,
                                             e: Event<N>)
    requires size > 0 && Possible(e, nodes) && |d.parts| <= 1000
    requires Load.Distinct(nodes) && Load.Distinct(Map(enc, nodes)) && Agrees(nodes, enc, d, a)
    ensures Agrees(nodes, enc, After(nodes, enc, size, d, e),
                   if e.Embed? then a else Booked(nodes, size, a, d.parts, e.visit.start))
  {
    match e
    case Embed(run) => EmbedKeepsSound(d.parts, nodes, enc, run);
    case Load(v) =>
      StartAgrees(nodes, enc, size, d, a, v.start);
      RemoveAllKeepsSound(d.parts, Map(enc, nodes), v.removed);
  }

  lemma {:induction false} FrontFits<N, V>(nodes: seq<N>, enc: N -> V, size: nat, events: seq<Event<N>>)
    requires size > 0 && AllPossible(events, nodes) && NamesFit(nodes, enc, size, events) && events != []
    ensures NamesFit(nodes, enc, size, events[..|events| - 1])
  {
    var front := events[..|events| - 1];
    forall k | 0 <= k <= |front|
      ensures |Run(nodes, enc, size, front[..k]).parts| <= 1000
    {
      assert front[..k] == events[..k];
    }
  }

  /** Over every history of embed runs and load starts, with any batching and shard size in each run, crashes,
      in-place retries, chunks out of step and kills between any two removals of shards, in any order, the table is a
      prefix of the nodes, each with its own embedding, if and only if every retry since the table was last cleared was
      harmless and no start since then went beyond the rows of the shards before the first missing number. */
  lemma {:induction false} TableRightIff<N, V>(nodes: seq<N>, enc: N -> V, size: nat, events: seq<Event<N>>)
    requires size > 0 && AllPossible(events, nodes) && NamesFit(nodes, enc, size, events)
    requires Load.Distinct(nodes) && Load.Distinct(Map(enc, nodes))
    ensures var a := Accounted(nodes, enc, size, events);
            && Agrees(nodes, enc, Run(nodes, enc, size, events), a)
            && (Run(nodes, enc, size, events).table <= Paired(nodes, enc) <==> a.books.clean && a.within)
    decreases |events|
  {
    if events == [] {
      assert Leading<V>([]) == [] && Map(NodeOf<N, V>, []) == [];
    } else {
      var n := |events| - 1;
      var front := events[..n];
      FrontFits(nodes, enc, size, events);
      TableRightIff(nodes, enc, size, front);
      assert front[..n] == front;
      EventAgrees(nodes, enc, size, Run(nodes, enc, size, front), Accounted(nodes, enc, size, front), events[n]);
    }
  }

  /** Every start that loads rows finds shards, and none of their numbers missing below another. */
  ghost predicate LoadsOnWhole<N, V>(nodes: seq<N>, enc: N -> V, size: nat, events: seq<Event<N>>)
    requires size > 0 && AllPossible(events, nodes)
  {
    forall k :: 0 <= k < |events| && events[k].Load? ==> WholeAt(nodes, Run(nodes, enc, size, events[..k]), events[k])
  }

  ghost predicate WholeAt<N, V>(nodes: seq<N>, d: Demo<N, V>, e: Event<N>)
    requires e.Load?
  {
    var run := e.visit.start;
    run.rebuild || run.uncounted || |d.table| < |nodes| ==> NoGap(d.parts) && Listed(d.parts) != []
  }

  /** Where no start loads from shards with a gap or without shards, the retries alone decide. */
  lemma {:induction false} WholeHistoryIff<N, V>(nodes: seq<N>, enc: N -> V, size: nat, events: seq<Event<N>>)
    requires size > 0 && AllPossible(events, nodes) && NamesFit(nodes, enc, size, events)
    requires Load.Distinct(nodes) && Load.Distinct(Map(enc, nodes)) && LoadsOnWhole(nodes, enc, size, events)
    ensures Accounted(nodes, enc, size, events).books.clean ==> Accounted(nodes, enc, size, events).within
    ensures Run(nodes, enc, size, events).table <= Paired(nodes, enc)
            <==> Accounted(nodes, enc, size, events).books.clean
    decreases |events|
  {
    TableRightIff(nodes, enc, size, events);
    if events != [] {
      var n := |events| - 1;
      var front := events[..n];
      assert forall k :: 0 <= k <= n ==> front[..k] == events[..k];
      FrontFits(nodes, enc, size, events);
      WholeHistoryIff(nodes, enc, size, front);
      TableRightIff(nodes, enc, size, front);
      var d, a := Run(nodes, enc, size, front), Accounted(nodes, enc, size, front);
      assert front[..n] == front && |d.parts| <= 1000;
      if events[n].Load? {
        assert WholeAt(nodes, d, events[n]);
        WholeIsWithin(nodes, enc, size, d, a, events[n].visit.start);
      }
    }
  }

  /** The last event is a start that finishes. */
  ghost predicate Finishes<N, V>(nodes: seq<N>, enc: N -> V, size: nat, events: seq<Event<N>>)
    requires size > 0 && AllPossible(events, nodes)
  {
    && events != [] && events[|events| - 1].Load?
    && AfterStart(nodes, size, Run(nodes, enc, size, events[..|events| - 1]), events[|events| - 1].visit.start).finished
  }

  /** A start that finishes has loaded every node with its embedding, under exactly the same condition. */
  lemma {:induction false} FinishedRightIff<N, V>(nodes: seq<N>, enc: N -> V, size: nat, events: seq<Event<N>>)
    requires size > 0 && AllPossible(events, nodes) && NamesFit(nodes, enc, size, events)
    requires Load.Distinct(nodes) && Load.Distinct(Map(enc, nodes)) && Finishes(nodes, enc, size, events)
    ensures var a := Accounted(nodes, enc, size, events);
            Run(nodes, enc, size, events).table == Paired(nodes, enc) <==> a.books.clean && a.within
  {
    var n := |events| - 1;
    var front := events[..n];
    TableRightIff(nodes, enc, size, events);
    FrontFits(nodes, enc, size, events);
    TableRightIff(nodes, enc, size, front);
    assert front[..n] == front;
    StartAgrees(nodes, enc, size, Run(nodes, enc, size, front), Accounted(nodes, enc, size, front),
                events[n].visit.start);
  }
}
