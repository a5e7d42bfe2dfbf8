/** The lineage check that decides whether an index file may answer for a segment, and the duplicate-free
    list of its delete files. */
module Lineage {
  import opened Seqs
  import Dedup

  /** The lineage fields an index file carries; an empty string or a number that is not positive means
      "not recorded". */
  datatype IndexFile = IndexFile(sourceChecksum: string, sourceRecords: int, sourceSnapshot: int)

  /** What a segment knows about its data file. */
  datatype Facts = Facts(checksum: Option<string>, records: Option<nat>, snapshot: Option<int>)

  predicate Accepts(s: Facts, idx: IndexFile) {
    && (s.checksum.Some? && idx.sourceChecksum != "" ==> idx.sourceChecksum == s.checksum.value)
    && (s.records.Some? && idx.sourceRecords > 0 ==> idx.sourceRecords == s.records.value)
    && (s.snapshot.Some? && idx.sourceSnapshot > 0 ==> idx.sourceSnapshot <= s.snapshot.value)
  }

  // ---- the segment's configuration ---------------------------------------------------------------------

  datatype DeleteFile = DeleteFile(path: string, content: int)

  class SegmentConfig {
    var fileChecksum: Option<string>
    var recordCount: Option<nat>
    var activeSnapshot: Option<int>
    var deleteFiles: seq<DeleteFile>

    constructor ()
      ensures fileChecksum == None && recordCount == None && activeSnapshot == None && deleteFiles == []
    {
      fileChecksum, recordCount, activeSnapshot, deleteFiles := None, None, None, [];
    }

    function Known(): Facts
      reads this
    {
      Facts(fileChecksum, recordCount, activeSnapshot)
    }

    /** Keeps, in order, the first delete file of every path. */
    method WithDeleteFiles(files: seq<DeleteFile>)
      modifies this`deleteFiles
      ensures deleteFiles == Dedup.FirstByKey((d: DeleteFile) => d.path, files)
      ensures Dedup.DistinctKeys((d: DeleteFile) => d.path, deleteFiles)
      ensures forall d :: d in files ==> exists f :: f in deleteFiles && f.path == d.path
      ensures forall f :: f in deleteFiles ==> f in files
    {
      var key := (d: DeleteFile) => d.path;
      deleteFiles := Dedup.FilterSeen(key, files);
      Dedup.FirstByKeyMeaning(key, files);
      forall d | d in files
        ensures exists f :: f in deleteFiles && f.path == d.path
      {
        var i :| 0 <= i < |files| && files[i] == d;
        assert key(files[i]) == d.path && Dedup.HasKey(key, files, d.path);
        var j :| 0 <= j < |deleteFiles| && key(deleteFiles[j]) == d.path;
        assert deleteFiles[j] in deleteFiles;
      }
    }

    /** The three checks, in the order they are made. */
    method IsIndexValid(idx: IndexFile) returns (valid: bool)
      ensures valid == Accepts(Known(), idx)
    {
      if fileChecksum.Some? && idx.sourceChecksum != "" && idx.sourceChecksum != fileChecksum.value { return false; }
      if recordCount.Some? && idx.sourceRecords > 0 && idx.sourceRecords != recordCount.value { return false; }
      if activeSnapshot.Some? && idx.sourceSnapshot > 0 && idx.sourceSnapshot > activeSnapshot.value { return false; }
      return true;
    }
  }

  // ---- knowing more accepts less ---------------------------------------------------------------------------

  ghost predicate KnowsMore(more: Facts, less: Facts) {
    && (less.checksum.Some? ==> more.checksum == less.checksum)
    && (less.records.Some? ==> more.records == less.records)
    && (less.snapshot.Some? ==> more.snapshot == less.snapshot)
  }

  function Accepted(s: Facts, files: seq<IndexFile>): seq<IndexFile> {
    if files == [] then []
    else (if Accepts(s, files[0]) then [files[0]] else []) + Accepted(s, files[1..])
  }

  /** A segment accepts, in the same order, the files that pass its checks; one from a later snapshot than its own
      does not, and one that records nothing does. */
  lemma {:induction false} AcceptedFilters(s: Facts, files: seq<IndexFile>, more: seq<IndexFile>)
    ensures Accepted(s, files + more) == Accepted(s, files) + Accepted(s, more)
    ensures forall f :: f in Accepted(s, files) <==> f in files && Accepts(s, f)
    ensures forall f :: f in Accepted(s, files) && s.snapshot.Some? && 0 <= s.snapshot.value ==>
              f.sourceSnapshot <= s.snapshot.value
    ensures forall f :: f in files && f.sourceChecksum == "" && f.sourceRecords == 0 && f.sourceSnapshot == 0 ==>
              f in Accepted(s, files)
    decreases |files|
  {
    if files == [] {
      assert files + more == more;
    } else {
      assert (files + more)[0] == files[0] && (files + more)[1..] == files[1..] + more;
      AcceptedFilters(s, files[1..], more);
      assert forall f :: f in files <==> f == files[0] || f in files[1..];
    }
  }

  /** The better informed segment accepts, in the same order, only files the other one accepts: filtering
      by both is filtering by the better informed one. */
  lemma {:induction false} KnowingMoreAcceptsLess(more: Facts, less: Facts, files: seq<IndexFile>)
    requires KnowsMore(more, less)
    ensures Accepted(more, Accepted(less, files)) == Accepted(more, files)
    decreases |files|
  {
    if files != [] {
      KnowingMoreAcceptsLess(more, less, files[1..]);
      var rest := Accepted(less, files[1..]);
      if Accepts(less, files[0]) {
        assert ([files[0]] + rest)[1..] == rest;
      } else {
        assert [] + rest == rest && [] + Accepted(more, files[1..]) == Accepted(more, files[1..]);
      }
    }
  }

  // ---- runs of rewrites and builds -----------------------------------------------------------------------------

  /** How data are summarised. */
  datatype Rules<!D> = Rules(sum: D -> string, count: D -> nat)

  /** Which summaries a version of the data, or an index file, records. */
  datatype Recorded = Recorded(sum: bool, count: bool, snapshot: bool)

  /** Every version the segment's data ever had, and the published indexes with the version each was built
      from. Version i has snapshot id i + 1. */
  datatype World<D> = World(versions: seq<Version<D>>, indexes: seq<Built>)

  datatype Version<D> = Version(data: D, recorded: Recorded)

  datatype Kind = Kind(column: string, category: string, algorithm: string)

  datatype Built = Built(kind: Kind, file: IndexFile, from: nat, recorded: Recorded)

  /** A build reads some version and may be published after later rewrites. */
  datatype Event<D> = Rewrite(version: Version<D>) | Publish(kind: Kind, from: nat, recorded: Recorded)

  function Start<D>(d: Version<D>): World<D> { World([d], []) }

  function FileFor<D>(r: Rules<D>, d: D, from: nat, q: Recorded): IndexFile {
    IndexFile(if q.sum then r.sum(d) else "", if q.count then r.count(d) else 0, if q.snapshot then from + 1 else 0)
  }

  function FactsFor<D>(r: Rules<D>, v: Version<D>, at: nat): Facts {
    Facts(if v.recorded.sum then Some(r.sum(v.data)) else None,
          if v.recorded.count then Some(r.count(v.data)) else None,
          if v.recorded.snapshot then Some(at + 1) else None)
  }

  function Step<D>(r: Rules<D>, w: World<D>, e: Event<D>): World<D> {
    match e
    case Rewrite(d) => w.(versions := w.versions + [d])
    case Publish(kind, from, q) =>
      if from < |w.versions|
      then w.(indexes := w.indexes + [Built(kind, FileFor(r, w.versions[from].data, from, q), from, q)])
      else w
  }

  function Run<D>(r: Rules<D>, w: World<D>, events: seq<Event<D>>): World<D>
    decreases |events|
  {
    if events == [] then w else Run(r, Step(r, w, events[0]), events[1..])
  }

  /** What versions and indexes may record: each chooses for itself among these. */
  datatype Policy = Policy(data: iset<Recorded>, index: iset<Recorded>)

  ghost predicate Allowed<D>(p: Policy, e: Event<D>) {
    match e
    case Rewrite(d) => d.recorded in p.data
    case Publish(_, _, q) => q in p.index
  }

  ghost predicate AllAllowed<D>(p: Policy, events: seq<Event<D>>) {
    forall i :: 0 <= i < |events| ==> Allowed(p, events[i])
  }

  /** Every index carries the lineage of the version it was built from, and the policy is kept. */
  ghost predicate Inv<D>(r: Rules<D>, p: Policy, w: World<D>) {
    && w.versions != []
    && (forall v :: 0 <= v < |w.versions| ==> w.versions[v].recorded in p.data)
    && forall i :: 0 <= i < |w.indexes| ==> Traced(r, p, w, w.indexes[i])
  }

  ghost predicate Traced<D>(r: Rules<D>, p: Policy, w: World<D>, b: Built) {
    && b.from < |w.versions|
    && b.recorded in p.index
    && b.file == FileFor(r, w.versions[b.from].data, b.from, b.recorded)
  }

  lemma {:induction false} RunKeepsInv<D>(r: Rules<D>, p: Policy, w: World<D>, events: seq<Event<D>>)
    requires Inv(r, p, w) && AllAllowed(p, events)
    ensures Inv(r, p, Run(r, w, events))
    decreases |events|
  {
    if events != [] {
      assert Allowed(p, events[0]);
      StepKeepsInv(r, p, w, events[0]);
      RunKeepsInv(r, p, Step(r, w, events[0]), events[1..]);
    }
  }

  lemma {:induction false} StepKeepsInv<D>(r: Rules<D>, p: Policy, w: World<D>, e: Event<D>)
    requires Inv(r, p, w) && Allowed(p, e)
    ensures Inv(r, p, Step(r, w, e))
  {
    var w' := Step(r, w, e);
    forall i | 0 <= i < |w'.indexes|
      ensures Traced(r, p, w', w'.indexes[i])
    {
      if i < |w.indexes| { assert Traced(r, p, w, w.indexes[i]); }
    }
  }

  // ---- what an accepted index was built from ---------------------------------------------------------------------

  /** Whether summaries `q` of an index on data `d` tell it apart from a segment holding `now` with summaries `p`. */
  ghost predicate ToldApart<D>(r: Rules<D>, p: Recorded, q: Recorded, d: D, now: D) {
    (p.sum && q.sum && r.sum(d) != "" && r.sum(d) != r.sum(now)) || CountsDiffer(r, p, q, d, now)
  }

  ghost predicate CountsDiffer<D>(r: Rules<D>, p: Recorded, q: Recorded, d: D, now: D) {
    p.count && q.count && r.count(d) > 0 && r.count(d) != r.count(now)
  }

  /** Whatever a version and an index record, different data are told apart. */
  ghost predicate TellsApart<D(!new)>(r: Rules<D>, p: Policy) {
    forall a, b, d: D, now: D :: a in p.data && b in p.index && d != now ==> ToldApart(r, a, b, d, now)
  }

  /** Index `i` is accepted for version `v`. */
  predicate Uses<D>(r: Rules<D>, w: World<D>, i: nat, v: nat)
    requires i < |w.indexes| && v < |w.versions|
  {
    Accepts(FactsFor(r, w.versions[v], v), w.indexes[i].file)
  }

  /** No index accepted at any version was built from other data. */
  ghost predicate NeverStale<D>(r: Rules<D>, w: World<D>) {
    forall i, v: nat :: 0 <= i < |w.indexes| && v < |w.versions| && Uses(r, w, i, v) ==>
      w.indexes[i].from < |w.versions| && w.versions[w.indexes[i].from].data == w.versions[v].data
  }

  /** No run within the policy, from any data, ever accepts a stale index. */
  ghost predicate Safe<D(!new)>(r: Rules<D>, p: Policy) {
    forall d: Version<D>, events: seq<Event<D>> :: d.recorded in p.data && AllAllowed(p, events) ==>
      NeverStale(r, Run(r, Start(d), events))
  }

  ghost const ANY := Policy(iset a: Recorded | true, iset b: Recorded | true)

  /** In every run, an index is accepted exactly when the summaries both sides record do not tell its data from the
      segment's and it is not from a snapshot after the one being read; so an index of the data being read is never
      refused. */
  lemma {:induction false} AcceptedIff<D>(r: Rules<D>, d0: Version<D>, events: seq<Event<D>>, i: nat, v: nat)
    requires var w := Run(r, Start(d0), events); i < |w.indexes| && v < |w.versions|
    ensures var w := Run(r, Start(d0), events);
            var from, a, b := w.indexes[i].from, w.versions[v].recorded, w.indexes[i].recorded;
            && from < |w.versions|
            && (Uses(r, w, i, v) <==>
                  && !ToldApart(r, a, b, w.versions[from].data, w.versions[v].data)
                  && !(a.snapshot && b.snapshot && from > v))
            && (w.versions[from].data == w.versions[v].data && from <= v ==> Uses(r, w, i, v))
  {
    RunKeepsInv(r, ANY, Start(d0), events);
    var w := Run(r, Start(d0), events);
    assert Traced(r, ANY, w, w.indexes[i]);
  }

  lemma {:induction false} TellingApartIsSafe<D(!new)>(r: Rules<D>, p: Policy, d0: Version<D>, events: seq<Event<D>>)
    requires TellsApart(r, p) && d0.recorded in p.data && AllAllowed(p, events)
    ensures NeverStale(r, Run(r, Start(d0), events))
  {
    var w := Run(r, Start(d0), events);
    RunKeepsInv(r, p, Start(d0), events);
    forall i, v: nat | 0 <= i < |w.indexes| && v < |w.versions| && Uses(r, w, i, v)
      ensures w.indexes[i].from < |w.versions| && w.versions[w.indexes[i].from].data == w.versions[v].data
    {
      AcceptedIff(r, d0, events, i, v);
      assert Traced(r, p, w, w.indexes[i]);
    }
  }

  /** Building an index and then rewriting the data to something not told apart leaves the index accepted. */
  lemma {:induction false} StaleRun<D>(r: Rules<D>, kind: Kind, a: Recorded, b: Recorded, d: D, now: D)
    requires d != now && !ToldApart(r, a, b, d, now)
    ensures !NeverStale(r, Run(r, Start(Version(d, a)), [Publish(kind, 0, b), Rewrite(Version(now, a))]))
  {
    var e0, e1 := Publish(kind, 0, b), Rewrite(Version(now, a));
    var w1 := Step(r, Start(Version(d, a)), e0);
    var w2 := Step(r, w1, e1);
    var events := [e0, e1];
    assert events[1..] == [e1] && [e1][1..] == [];
    assert Run(r, Start(Version(d, a)), events) == Run(r, w1, [e1]) == Run(r, w2, []) == w2;
    assert w2.versions == [Version(d, a), Version(now, a)];
    assert w2.indexes == [Built(kind, FileFor(r, d, 0, b), 0, b)];
    assert Uses(r, w2, 0, 1);
  }

  /** Exactly when any summaries a version and an index may record tell all distinct data apart is no stale index
      ever accepted. The snapshot ids never decide: an index may always be older than the data. */
  lemma {:induction false} SafeIff<D(!new)>(r: Rules<D>, p: Policy)
    ensures Safe<D>(r, p) <==> TellsApart<D>(r, p)
  {
    if TellsApart(r, p) {
      forall d: Version<D>, events: seq<Event<D>> | d.recorded in p.data && AllAllowed(p, events)
        ensures NeverStale(r, Run(r, Start(d), events))
      {
        TellingApartIsSafe(r, p, d, events);
      }
    }
    if Safe(r, p) {
      forall a, b, d: D, now: D | a in p.data && b in p.index && d != now
        ensures ToldApart(r, a, b, d, now)
      {
        if !ToldApart(r, a, b, d, now) {
          var kind := Kind("", "", "");
          StaleRun(r, kind, a, b, d, now);
          assert AllAllowed(p, [Publish(kind, 0, b), Rewrite(Version(now, a))]);
        }
      }
    }
  }

  ghost predicate DistinctSums<D(!new)>(r: Rules<D>) {
    && (forall d: D :: r.sum(d) != "")
    && (forall d: D, e: D :: r.sum(d) == r.sum(e) ==> d == e)
  }

  /** Some version and some index may meet without a checksum on both sides. */
  ghost predicate ChecksumMayMiss(p: Policy) {
    exists a, b :: a in p.data && b in p.index && !(a.sum && b.sum)
  }

  /** With checksums that differ for different data, checksums everywhere suffice. Where one may be missing on either
      side, only the record counts are left: two different data of the same size, or index data without records, then
      collide. */
  lemma {:induction false} ChecksumsOrCounts<D(!new)>(r: Rules<D>, p: Policy)
    requires DistinctSums(r)
    ensures !ChecksumMayMiss(p) ==> Safe(r, p)
    ensures Safe(r, p) <==> forall a, b, d: D, now: D ::
              a in p.data && b in p.index && !(a.sum && b.sum) && d != now ==> CountsDiffer(r, a, b, d, now)
  {
    SafeIff(r, p);
    assert forall a, b, d: D, now: D :: d != now ==>
             (ToldApart(r, a, b, d, now) <==> (a.sum && b.sum) || CountsDiffer(r, a, b, d, now));
  }

  // ---- index or scan ----------------------------------------------------------------------------------------------

  predicate IsLexical(k: Kind) {
    k.category in ["lexical", "inverted", "bm25"] && k.algorithm != "doclen"
  }

  predicate IsScalar(k: Kind) { k.category == "scalar" }

  /** An index that may answer for this column at version `v`. */
  predicate Usable<D>(r: Rules<D>, w: World<D>, v: nat, column: string, wanted: Kind -> bool, i: nat)
    requires i < |w.indexes| && v < |w.versions|
  {
    wanted(w.indexes[i].kind) && w.indexes[i].kind.column == column && Uses(r, w, i, v)
  }

  /** A bitmap, or a text index other than the list of document lengths. */
  ghost predicate Answers(k: Kind, column: string) {
    && k.column == column
    && (k.category == "scalar"
        || (k.algorithm != "doclen" && (k.category == "lexical" || k.category == "inverted" || k.category == "bm25")))
  }

  lemma {:induction false} AnswersIff(k: Kind, column: string)
    ensures Answers(k, column) <==> k.column == column && (IsLexical(k) || IsScalar(k))
  {}

  /** The first usable index of the wanted kind. */
  method FindIndex<D>(r: Rules<D>, w: World<D>, v: nat, column: string, wanted: Kind -> bool)
    returns (found: Option<nat>)
    requires v < |w.versions|
    ensures found.Some? ==> found.value < |w.indexes| && Usable(r, w, v, column, wanted, found.value)
    ensures forall j: nat :: j < (if found.Some? then found.value else |w.indexes|) ==>
              !Usable(r, w, v, column, wanted, j)
  {
    for i := 0 to |w.indexes|
      invariant forall j: nat :: j < i ==> !Usable(r, w, v, column, wanted, j)
    {
      if Usable(r, w, v, column, wanted, i) { return Some(i); }
    }
    return None;
  }

  /** A query on a column of version `v`: through the first usable lexical index, else the first usable bitmap, else
      by scanning. `read` is what an index of some kind over some data gives. In a safe policy the answer is that of
      the scan; in any policy it is that of the data the chosen index was built from, and a lexical index is
      preferred. */
  method IndexOrScan<D(!new), A>(r: Rules<D>, w: World<D>, v: nat, column: string, read: (Kind, D) -> A,
                                 scan: (string, D) -> A, ghost p: Policy, ghost d0: Version<D>,
                                 ghost events: seq<Event<D>>)
    returns (answer: A, used: Option<nat>)
    requires w == Run(r, Start(d0), events) && v < |w.versions|
    requires d0.recorded in p.data && AllAllowed(p, events)
    requires forall k, d :: IsLexical(k) || IsScalar(k) ==> read(k, d) == scan(k.column, d)
    ensures Safe(r, p) ==> answer == scan(column, w.versions[v].data)
    ensures match used
            case None =>
              && answer == scan(column, w.versions[v].data)
              && forall j: nat :: j < |w.indexes| ==>
                   !Usable(r, w, v, column, IsLexical, j) && !Usable(r, w, v, column, IsScalar, j)
            case Some(i) =>
              && i < |w.indexes| && w.indexes[i].kind.column == column
              && (|| IsLexical(w.indexes[i].kind)
                  || forall j: nat :: j < |w.indexes| ==> !Usable(r, w, v, column, IsLexical, j))
              && w.indexes[i].from < |w.versions| && answer == scan(column, w.versions[w.indexes[i].from].data)
    ensures used == None ==> forall j: nat :: j < |w.indexes| && Uses(r, w, j, v) ==>
              !Answers(w.indexes[j].kind, column)
    ensures used.Some? ==> Uses(r, w, used.value, v) && Answers(w.indexes[used.value].kind, column)
  {
    RunKeepsInv(r, p, Start(d0), events);
    assert Safe(r, p) ==> NeverStale(r, w);
    used := FindIndex(r, w, v, column, IsLexical);
    if used == None { used := FindIndex(r, w, v, column, IsScalar); }
    forall i: nat | i < |w.indexes|
      ensures Usable(r, w, v, column, IsLexical, i) || Usable(r, w, v, column, IsScalar, i)
              <==> Answers(w.indexes[i].kind, column) && Uses(r, w, i, v)
    {
      AnswersIff(w.indexes[i].kind, column);
    }
    if used == None { return scan(column, w.versions[v].data), None; }
    var built := w.indexes[used.value];
    assert Traced(r, p, w, built);
    return read(built.kind, w.versions[built.from].data), used;
  }
}
