/** Manifest snapshots: which data files a manifest makes live, and how `commit`, `commit_imported_entries` and
    `commit_synced_snapshot` derive the next manifest from the current one. */
module Snapshots {
  import opened Seqs
  import opened Dedup

  /** A data file's entry; `stats` stands for the fields the commit code only copies. */
  datatype Entry = Entry(path: string, indexes: seq<string>, stats: int)

  type Live = map<string, Entry>

  /** The entries of the data manifests named by the manifest list, if there is one, the inline entries, and the
      paths of the table's delete files. A list has one more manifest, for the delete files, if there are any. */
  datatype Snapshot = Snapshot(files: Option<seq<seq<Entry>>>, inline: seq<Entry>, deletes: seq<string>)

  const GENESIS := Snapshot(None, [], [])

  // ---- entries by path -----------------------------------------------------------------------------------------

  /** The entry of each path that is inserted last. */
  function Last(es: seq<Entry>): Live {
    if es == [] then map[] else
      var n := |es| - 1;
      Last(es[..n])[es[n].path := es[n]]
  }

  function Paths(es: seq<Entry>): set<string> { set e | e in es :: e.path }

  ghost predicate Distinct(es: seq<Entry>) {
    forall i, j :: 0 <= i < j < |es| ==> es[i].path != es[j].path
  }

  ghost predicate Keyed(m: Live) { forall p :: p in m ==> m[p].path == p }

  lemma {:induction false} LastKeyed(es: seq<Entry>)
    ensures Keyed(Last(es)) && Last(es).Keys == Paths(es)
    decreases |es|
  {
    if es != [] {
      var n := |es| - 1;
      LastKeyed(es[..n]);
      assert es == es[..n] + [es[n]];
      assert Paths(es) == Paths(es[..n]) + {es[n].path};
    }
  }

  lemma {:induction false} LastAppend(a: seq<Entry>, b: seq<Entry>)
    ensures Last(a + b) == Last(a) + Last(b)
    decreases |b|
  {
    if b == [] {
      assert a + b == a;
    } else {
      var n := |b| - 1;
      LastAppend(a, b[..n]);
      assert (a + b)[..|a + b| - 1] == a + b[..n] && (a + b)[|a + b| - 1] == b[n];
    }
  }

  /** With distinct paths, the map holds exactly the listed entries. */
  lemma {:induction false} LastOfDistinct(es: seq<Entry>)
    requires Distinct(es)
    ensures forall e :: e in es <==> e.path in Last(es) && Last(es)[e.path] == e
    decreases |es|
  {
    if es != [] {
      var n := |es| - 1;
      LastOfDistinct(es[..n]);
      LastKeyed(es[..n]);
      assert es == es[..n] + [es[n]];
      forall e
        ensures e in es <==> e.path in Last(es) && Last(es)[e.path] == e
      {
        if e in es[..n] {
          var i :| 0 <= i < n && es[i] == e;
          assert es[i].path != es[n].path;
        }
        assert e in es <==> e in es[..n] || e == es[n];
      }
    }
  }

  /** Entry `k` is the last one of its path. */
  ghost predicate LastAt(es: seq<Entry>, k: nat, p: string) {
    k < |es| && es[k].path == p && forall j :: k < j < |es| ==> es[j].path != p
  }

  /** The map holds, for every listed path, the last entry of that path. */
  lemma {:induction false} LastIs(es: seq<Entry>, p: string) returns (k: nat)
    requires p in Paths(es)
    ensures LastAt(es, k, p) && p in Last(es) && Last(es)[p] == es[k]
    decreases |es|
  {
    var n := |es| - 1;
    k := n;
    if es[n].path != p {
      assert es == es[..n] + [es[n]] && p in Paths(es[..n]);
      k := LastIs(es[..n], p);
      assert forall j :: 0 <= j < n ==> es[j] == es[..n][j];
    }
  }

  // ---- loading ---------------------------------------------------------------------------------------------------

  function Listed(s: Snapshot): Live {
    if s.files.None? then map[] else Last(Flatten(s.files.value))
  }

  /** Inline entries override listed ones. */
  function LoadAll(s: Snapshot): Live { Listed(s) + Last(s.inline) }

  lemma {:induction false} LoadAllKeyed(s: Snapshot)
    ensures Keyed(LoadAll(s)) && Keyed(Listed(s))
    ensures LoadAll(s).Keys == Listed(s).Keys + Paths(s.inline)
  {
    LastKeyed(s.inline);
    if s.files.Some? { LastKeyed(Flatten(s.files.value)); }
  }

  /** Reading the manifest files in the order they arrive, then the inline entries. */
  method LoadAllEntries(s: Snapshot, arrival: seq<seq<Entry>>) returns (m: Live)
    requires s.files.Some? ==> multiset(arrival) == multiset(s.files.value)
    ensures s.files.None? ==> m == LoadAll(s)
    ensures s.files.Some? ==> m == Last(Flatten(arrival)) + Last(s.inline)
    ensures s.files.Some? && Distinct(Flatten(s.files.value)) ==> m == LoadAll(s)
  {
    m := map[];
    if s.files.Some? {
      for i := 0 to |arrival|
        invariant m == Last(Flatten(arrival[..i]))
      {
        FlattenSnoc(arrival[..i], arrival[i]);
        assert arrival[..i + 1] == arrival[..i] + [arrival[i]];
        LastAppend(Flatten(arrival[..i]), arrival[i]);
        m := InsertAll(m, arrival[i]);
      }
      assert arrival[..|arrival|] == arrival;
      if Distinct(Flatten(s.files.value)) { ArrivalOrder(s.files.value, arrival); }
    }
    m := InsertAll(m, s.inline);
  }

  method InsertAll(m: Live, es: seq<Entry>) returns (r: Live)
    ensures r == m + Last(es)
  {
    r := m;
    for i := 0 to |es|
      invariant r == m + Last(es[..i])
    {
      assert es[..i + 1][..i] == es[..i];
      r := r[es[i].path := es[i]];
    }
    assert es[..|es|] == es;
  }

  /** The order in which manifest files arrive does not matter when no path occurs twice in them. */
  lemma {:induction false} ArrivalOrder(fs: seq<seq<Entry>>, gs: seq<seq<Entry>>)
    requires multiset(fs) == multiset(gs) && Distinct(Flatten(fs))
    ensures Last(Flatten(fs)) == Last(Flatten(gs)) && Distinct(Flatten(gs))
  {
    var a, b := Flatten(fs), Flatten(gs);
    FlattenMultiset(fs, gs);
    DistinctMultiset(a, b);
    HoldsSame(a, b);
    HoldsSame(b, a);
  }

  lemma {:induction false} HoldsSame(a: seq<Entry>, b: seq<Entry>)
    requires Distinct(a) && Distinct(b) && multiset(a) == multiset(b)
    ensures forall p :: p in Last(a) ==> p in Last(b) && Last(b)[p] == Last(a)[p]
  {
    LastKeyed(a);
    forall p | p in Last(a)
      ensures p in Last(b) && Last(b)[p] == Last(a)[p]
    {
      var e := Last(a)[p];
      assert e in a by { LastOfDistinct(a); }
      assert e in multiset(b);
      LastOfDistinct(b);
    }
  }

  lemma {:induction false} FlattenMultiset<T>(fs: seq<seq<T>>, gs: seq<seq<T>>)
    requires multiset(fs) == multiset(gs)
    ensures multiset(Flatten(fs)) == multiset(Flatten(gs))
    decreases |fs|
  {
    if fs == [] {
      assert |gs| == |multiset(gs)| == 0;
    } else {
      assert fs == [fs[0]] + fs[1..];
      assert fs[0] in multiset(gs);
      var i :| 0 <= i < |gs| && gs[i] == fs[0];
      var rest := gs[..i] + gs[i + 1..];
      TakeOutFlatten(gs, i);
      FlattenMultiset(fs[1..], rest);
    }
  }

  lemma {:induction false} TakeOutFlatten<T>(gs: seq<seq<T>>, i: nat)
    requires i < |gs|
    ensures multiset(gs[..i] + gs[i + 1..]) == multiset(gs) - multiset{gs[i]}
    ensures multiset(Flatten(gs)) == multiset(gs[i]) + multiset(Flatten(gs[..i] + gs[i + 1..]))
  {
    var a, x, b := gs[..i], gs[i], gs[i + 1..];
    assert gs == a + [x] + b;
    FlattenAppend(a, b);
    FlattenAppend(a + [x], b);
    FlattenSnoc(a, x);
  }

  lemma {:induction false} DistinctMultiset(a: seq<Entry>, b: seq<Entry>)
    requires multiset(a) == multiset(b) && Distinct(a)
    ensures Distinct(b)
  {
    assert |a| == |multiset(a)| == |multiset(b)| == |b|;
    forall i, j | 0 <= i < j < |b|
      ensures b[i].path != b[j].path
    {
      if b[i].path == b[j].path { TwiceIn(a, b, i, j); }
    }
  }

  lemma {:induction false} TwiceIn(a: seq<Entry>, b: seq<Entry>, i: nat, j: nat)
    requires multiset(a) == multiset(b) && i < j < |b| && b[i].path == b[j].path
    ensures !Distinct(a)
  {
    if b[i] == b[j] {
      CountedTwice(b, i, j);
      var k, l := TwoPlaces(a, b[i]);
      assert a[k].path == a[l].path;
    } else {
      assert b[i] in multiset(b) && b[j] in multiset(b);
      var k :| 0 <= k < |a| && a[k] == b[i];
      var l :| 0 <= l < |a| && a[l] == b[j];
      assert l != k && a[l].path == a[k].path;
    }
  }

  lemma {:induction false} CountedTwice<T>(b: seq<T>, i: nat, j: nat)
    requires i < j < |b| && b[i] == b[j]
    ensures multiset(b)[b[i]] >= 2
  {
    assert b == b[..j] + b[j..];
    assert b[..j][i] == b[i] && b[i] in multiset(b[..j]);
    assert b[j..][0] == b[i] && b[i] in multiset(b[j..]);
  }

  lemma {:induction false} TwoPlaces<T>(a: seq<T>, x: T) returns (k: nat, l: nat)
    requires multiset(a)[x] >= 2
    ensures k < l < |a| && a[k] == x && a[l] == x
    decreases |a|
  {
    assert x in multiset(a) && x in a;
    k :| 0 <= k < |a| && a[k] == x;
    assert a == a[..k] + [x] + a[k + 1..];
    if x in multiset(a[k + 1..]) {
      var i :| 0 <= i < |a[k + 1..]| && a[k + 1..][i] == x;
      l := k + 1 + i;
    } else {
      assert x in multiset(a[..k]);
      var i :| 0 <= i < k && a[..k][i] == x;
      k, l := i, k;
    }
  }

  // ---- adding and removing ---------------------------------------------------------------------------------------

  /** An entry that would replace one with more index files takes over its index files. */
  function Merged(m: Live, e: Entry): Entry {
    if e.path in m && |m[e.path].indexes| > |e.indexes| then e.(indexes := m[e.path].indexes) else e
  }

  function AddAll(m: Live, add: seq<Entry>): Live {
    if add == [] then m else
      var n := |add| - 1;
      var before := AddAll(m, add[..n]);
      before[add[n].path := Merged(before, add[n])]
  }

  lemma {:induction false} AddAllKeyed(m: Live, add: seq<Entry>)
    requires Keyed(m)
    ensures Keyed(AddAll(m, add)) && AddAll(m, add).Keys == m.Keys + Paths(add)
    decreases |add|
  {
    if add != [] {
      var n := |add| - 1;
      AddAllKeyed(m, add[..n]);
      assert add == add[..n] + [add[n]];
      assert Paths(add) == Paths(add[..n]) + {add[n].path};
    }
  }

  /** Adding new paths leaves the others alone. */
  lemma {:induction false} AddNewPaths(m: Live, add: seq<Entry>)
    requires forall e :: e in add ==> e.path !in m
    ensures AddAll(m, add) == m + AddAll(map[], add)
    ensures AddAll(map[], add).Keys == Paths(add)
    decreases |add|
  {
    AddAllKeyed(map[], add);
    if add != [] {
      var n := |add| - 1;
      AddNewPaths(m, add[..n]);
      assert add[n] in add;
      UpdateOver(m, AddAll(map[], add[..n]), add[n].path, Merged(AddAll(map[], add[..n]), add[n]));
    }
  }

  lemma {:induction false} UpdateOver<K, V>(m: map<K, V>, n: map<K, V>, k: K, v: V)
    ensures (m + n)[k := v] == m + n[k := v]
  {
  }

  lemma {:induction false} AddDistinct(add: seq<Entry>)
    requires Distinct(add)
    ensures AddAll(map[], add) == Last(add)
    decreases |add|
  {
    if add != [] {
      var n := |add| - 1;
      AddDistinct(add[..n]);
      LastKeyed(add[..n]);
      assert add[n].path !in Paths(add[..n]);
    }
  }

  /** Adding entries never leaves a live path with fewer index files, and leaves paths not added alone. */
  lemma {:induction false} AddKeepsIndexes(m: Live, add: seq<Entry>, p: string)
    requires p in m
    ensures p in AddAll(m, add) && |AddAll(m, add)[p].indexes| >= |m[p].indexes|
    ensures (forall e :: e in add ==> e.path != p) ==> AddAll(m, add)[p] == m[p]
    decreases |add|
  {
    if add != [] {
      AddKeepsIndexes(m, add[..|add| - 1], p);
      assert add[|add| - 1] in add;
    }
  }

  lemma {:induction false} Snoc(add: seq<Entry>) returns (front: seq<Entry>, last: Entry)
    requires add != []
    ensures front == add[..|add| - 1] && last == add[|add| - 1] && add == front + [last]
    ensures Paths(add) == Paths(front) + {last.path}
    ensures forall k :: 0 <= k < |front| ==> add[k] == front[k]
  {
    front, last := add[..|add| - 1], add[|add| - 1];
    assert add == front + [last];
  }

  lemma {:induction false} AddHas(m: Live, add: seq<Entry>, p: string)
    requires p in Paths(add)
    ensures p in Last(add) && p in AddAll(m, add)
    ensures AddAll(m, add)[p].path == p && AddAll(m, add)[p].stats == Last(add)[p].stats
    decreases |add|
  {
    var front, last := Snoc(add);
    if last.path != p { AddHas(m, front, p); }
  }

  lemma {:induction false} AddLongest(m: Live, add: seq<Entry>, p: string)
    requires p in Paths(add) && p in AddAll(m, add)
    ensures p in m ==> |AddAll(m, add)[p].indexes| >= |m[p].indexes|
    ensures forall k :: 0 <= k < |add| && add[k].path == p ==> |AddAll(m, add)[p].indexes| >= |add[k].indexes|
    decreases |add|
  {
    var front, last := Snoc(add);
    if p in Paths(front) {
      AddHas(m, front, p);
      AddLongest(m, front, p);
    } else {
      AddLeaves(m, front, p);
      assert forall k :: 0 <= k < |front| ==> add[k] in front;
    }
  }

  /** The entry whose index list an added path has; `|add|` is the live one. */
  lemma {:induction false} AddFrom(m: Live, add: seq<Entry>, p: string) returns (k: nat)
    requires p in Paths(add) && p in AddAll(m, add)
    ensures k <= |add|
    ensures if k < |add| then add[k].path == p && AddAll(m, add)[p].indexes == add[k].indexes
            else p in m && AddAll(m, add)[p].indexes == m[p].indexes
    decreases |add|
  {
    var front, last := Snoc(add);
    if last.path == p && AddAll(m, add)[p].indexes == last.indexes {
      k := |front|;
    } else if p in Paths(front) {
      AddHas(m, front, p);
      k := AddFrom(m, front, p);
      k := if k == |front| then |add| else k;
    } else {
      AddLeaves(m, front, p);
      k := |add|;
    }
  }

  /** An added path has the last added entry's own fields, and of all the index lists of that path, the live one
      included, one of the longest. */
  lemma {:induction false} AddTakes(m: Live, add: seq<Entry>, p: string)
    requires p in Paths(add)
    ensures p in Last(add) && p in AddAll(m, add)
    ensures var e := AddAll(m, add)[p];
            && e.path == p && e.stats == Last(add)[p].stats
            && (p in m ==> |e.indexes| >= |m[p].indexes|)
            && (forall k :: 0 <= k < |add| && add[k].path == p ==> |e.indexes| >= |add[k].indexes|)
            && ((p in m && e.indexes == m[p].indexes)
                || exists k :: 0 <= k < |add| && add[k].path == p && e.indexes == add[k].indexes)
  {
    AddHas(m, add, p);
    AddLongest(m, add, p);
    var k := AddFrom(m, add, p);
  }

  /** The last added entry of a path is taken as it is when no other entry of the path has more index files. */
  lemma {:induction false} AddTakesLast(m: Live, add: seq<Entry>, p: string)
    requires p in Paths(add) && p in Last(add)
    requires p in m ==> |m[p].indexes| <= |Last(add)[p].indexes|
    requires forall k :: 0 <= k < |add| && add[k].path == p ==> |add[k].indexes| <= |Last(add)[p].indexes|
    ensures p in AddAll(m, add) && AddAll(m, add)[p] == Last(add)[p]
    decreases |add|
  {
    var front, last := Snoc(add);
    if last.path != p {
      AddTakesLast(m, front, p);
    } else if p in Paths(front) {
      AddTakes(m, front, p);
    } else {
      AddLeaves(m, front, p);
    }
  }

  lemma {:induction false} AddLeaves(m: Live, add: seq<Entry>, p: string)
    requires p !in Paths(add)
    ensures p in AddAll(m, add) <==> p in m
    ensures p in m ==> AddAll(m, add)[p] == m[p]
    decreases |add|
  {
    if add != [] {
      var n := |add| - 1;
      assert add == add[..n] + [add[n]] && Paths(add) == Paths(add[..n]) + {add[n].path};
      AddLeaves(m, add[..n], p);
    }
  }

  function Without(m: Live, remove: seq<string>): Live { m - (set p | p in remove) }

  /** What a commit is meant to make of the live entries. */
  function Replaced(m: Live, remove: seq<string>, add: seq<Entry>): Live { AddAll(Without(m, remove), add) }

  // ---- one commit attempt -------------------------------------------------------------------------------------------

  /** The three flags about paths to remove that are not live. */
  datatype Flags = Flags(require: bool, skip: bool, discard: bool)

  /** The arguments of a commit; `deletes` are the delete files its added entries carry. */
  datatype Change = Change(add: seq<Entry>, remove: seq<string>, deletes: seq<string>, flags: Flags)

  datatype Outcome = NoChange | Refused | Write(next: Snapshot)

  /** How entries are cut into manifest files, and the order in which a map lists them. */
  datatype Layout = Layout(cut: seq<Entry> -> seq<seq<Entry>>, order: Live -> seq<Entry>)

  ghost predicate Lists(es: seq<Entry>, m: Live) { Distinct(es) && Last(es) == m }

  ghost predicate Sound(l: Layout) {
    && (forall es :: Flatten(l.cut(es)) == es)
    && (forall m: Live :: Keyed(m) ==> Lists(l.order(m), m))
  }

  predicate IsMissing(m: Live, remove: seq<string>) { exists i :: 0 <= i < |remove| && remove[i] !in m }

  /** Some path is gone by the time the removal loop reaches it. */
  predicate RunsOut(m: Live, remove: seq<string>) {
    exists i :: 0 <= i < |remove| && (remove[i] !in m || remove[i] in remove[..i])
  }

  predicate AllNew(m: Live, add: seq<Entry>) { forall i :: 0 <= i < |add| ==> add[i].path !in m }

  /** How many manifests the manifest list names. */
  function ListLength(s: Snapshot): nat {
    (if s.files.Some? then |s.files.value| else 0) + (if s.deletes != [] then 1 else 0)
  }

  predicate IsAppend(base: Snapshot, c: Change, limit: nat) {
    && c.remove == [] && c.add != [] && AllNew(LoadAll(base), c.add)
    && (base.files.Some? ==> ListLength(base) < limit)
  }

  function Self(d: string): string { d }

  /** The delete list of the next manifest: the known delete files and those the added entries bring, once each. */
  function DeletesAfter(base: Snapshot, deletes: seq<string>): seq<string> {
    FirstByKey(Self, base.deletes + deletes)
  }

  /** References the previous manifest files and writes only the new entries. */
  function Appended(l: Layout, base: Snapshot, c: Change): Snapshot {
    var files := if base.files.Some? then base.files.value else [];
    Snapshot(Some(files + l.cut(c.add)), [], DeletesAfter(base, c.deletes))
  }

  function Rewritten(l: Layout, m: Live, deletes: seq<string>): Snapshot {
    Snapshot(if m == map[] then None else Some(l.cut(l.order(m))), [], deletes)
  }

  function Attempt(l: Layout, limit: nat, base: Snapshot, c: Change): Outcome {
    var m := LoadAll(base);
    if c.flags.discard && IsMissing(m, c.remove) then NoChange
    else if c.flags.require && !c.flags.skip && RunsOut(m, c.remove) then Refused
    else if IsAppend(base, c, limit) then Write(Appended(l, base, c))
    else Write(Rewritten(l, Replaced(m, c.remove, c.add), DeletesAfter(base, c.deletes)))
  }

  /** The removal loop; it stops at a path that is gone, unless those are to be skipped. */
  method RemovePaths(m: Live, remove: seq<string>, strict: bool) returns (active: Live, refused: bool)
    ensures refused == (strict && RunsOut(m, remove))
    ensures !refused ==> active == Without(m, remove)
  {
    active, refused := m, false;
    for i := 0 to |remove|
      invariant active == Without(m, remove[..i])
      invariant strict ==> forall j :: 0 <= j < i ==> remove[j] in m && remove[j] !in remove[..j]
    {
      if remove[i] !in active && strict { return active, true; }
      active := active - {remove[i]};
      assert remove[..i + 1] == remove[..i] + [remove[i]];
    }
    assert remove[..|remove|] == remove;
  }

  method MergeEntries(m: Live, add: seq<Entry>) returns (active: Live)
    ensures active == AddAll(m, add)
  {
    active := m;
    for i := 0 to |add|
      invariant active == AddAll(m, add[..i])
    {
      assert add[..i + 1][..i] == add[..i];
      active := active[add[i].path := Merged(active, add[i])];
    }
    assert add[..|add|] == add;
  }

  method OnlyNewPaths(m: Live, add: seq<Entry>) returns (all: bool)
    ensures all == AllNew(m, add)
  {
    for i := 0 to |add|
      invariant forall j :: 0 <= j < i ==> add[j].path !in m
    {
      if add[i].path in m { return false; }
    }
    return true;
  }

  /** One pass of the retry loop up to the write: discard, remove, decide between append and rewrite, merge. */
  method TryCommit(l: Layout, limit: nat, base: Snapshot, c: Change) returns (out: Outcome)
    ensures out == Attempt(l, limit, base, c)
  {
    var current := LoadAll(base);
    if c.flags.discard {
      for i := 0 to |c.remove|
        invariant forall j :: 0 <= j < i ==> c.remove[j] in current
      {
        if c.remove[i] !in current { return NoChange; }
      }
    }
    var kept, refused := RemovePaths(current, c.remove, c.flags.require && !c.flags.skip);
    if refused { return Refused; }
    var appendOnly := c.remove == [];
    if appendOnly {
      assert kept == current;
      appendOnly := OnlyNewPaths(kept, c.add);
    }
    if appendOnly && base.files.Some? && ListLength(base) >= limit { appendOnly := false; }
    var active := MergeEntries(kept, c.add);
    var deletes := FilterSeen(Self, base.deletes + c.deletes);
    AddSome(kept, c.add);
    if active == map[] { return Write(Snapshot(None, [], deletes)); }
    if appendOnly && c.add != [] { return Write(Appended(l, base, c)); }
    return Write(Rewritten(l, active, deletes));
  }

  /** A commit that only adds new paths extends the manifest list if it names fewer manifests than the limit, the
      delete manifest counted, and otherwise writes all entries anew. */
  lemma {:induction false} ConsolidatesIff(l: Layout, limit: nat, base: Snapshot, c: Change)
    requires c.remove == [] && c.add != [] && base.files.Some?
    requires forall e :: e in c.add ==> e.path !in LoadAll(base)
    ensures var out, files := Attempt(l, limit, base, c), base.files.value;
            && out.Write?
            && (|files| + (if base.deletes == [] then 0 else 1) < limit ==>
                  out.next.files == Some(files + l.cut(c.add)))
            && (|files| + (if base.deletes == [] then 0 else 1) >= limit ==>
                  out.next.files == Some(l.cut(l.order(AddAll(LoadAll(base), c.add)))))
  {
    var m := LoadAll(base);
    assert Without(m, c.remove) == m;
    assert AllNew(m, c.add) by { assert forall i :: 0 <= i < |c.add| ==> c.add[i] in c.add; }
    AddSome(m, c.add);
  }

  /** However many commits there are, a manifest list never outgrows the limit by more than one write. */
  lemma {:induction false} ListStaysShort(l: Layout, limit: nat, base: Snapshot, c: Change, most: nat)
    requires limit > 0 && forall es :: |l.cut(es)| <= most
    requires Attempt(l, limit, base, c).Write?
    ensures var files := Attempt(l, limit, base, c).next.files;
            files.Some? ==> |files.value| < limit + most
  {
  }

  /** No delete file is ever dropped or listed twice. */
  lemma {:induction false} CommitDeletes(l: Layout, limit: nat, base: Snapshot, c: Change)
    requires Attempt(l, limit, base, c).Write?
    ensures var next := Attempt(l, limit, base, c).next;
            && DistinctKeys(Self, next.deletes)
            && (forall d :: d in next.deletes <==> d in base.deletes || d in c.deletes)
  {
    var all := base.deletes + c.deletes;
    var next := Attempt(l, limit, base, c).next;
    assert next.deletes == DeletesAfter(base, c.deletes);
    FirstByKeyMeaning(Self, all);
    forall d
      ensures d in next.deletes <==> d in base.deletes || d in c.deletes
    {
      assert d in all <==> HasKey(Self, all, d) by { KeyIsElement(all, d); }
      assert d in next.deletes <==> HasKey(Self, next.deletes, d) by { KeyIsElement(next.deletes, d); }
    }
  }

  lemma {:induction false} KeyIsElement(s: seq<string>, d: string)
    ensures d in s <==> HasKey(Self, s, d)
  {
    if d in s {
      var i :| 0 <= i < |s| && s[i] == d;
    }
  }

  lemma {:induction false} AddSome(m: Live, add: seq<Entry>)
    ensures add != [] ==> AddAll(m, add) != map[]
  {
    if add != [] { assert add[|add| - 1].path in AddAll(m, add); }
  }

  // ---- what the attempt makes live --------------------------------------------------------------------------------

  /** Every inline entry is also the listed one. */
  ghost predicate InlineAgrees(s: Snapshot) {
    forall p :: p in Last(s.inline) ==> p in Listed(s) && Listed(s)[p] == Last(s.inline)[p]
  }

  /** Every inline path is also listed. */
  ghost predicate InlineCovered(s: Snapshot) { Paths(s.inline) <= Listed(s).Keys }

  lemma {:induction false} AppendedLoads(l: Layout, base: Snapshot, c: Change)
    requires Sound(l)
    ensures LoadAll(Appended(l, base, c)) == Listed(base) + Last(c.add)
  {
    var prev := if base.files.Some? then base.files.value else [];
    assert Flatten(prev + l.cut(c.add)) == Flatten(prev) + c.add by {
      FlattenAppend(prev, l.cut(c.add));
      assert Flatten(l.cut(c.add)) == c.add;
    }
    LastAppend(Flatten(prev), c.add);
  }

  lemma {:induction false} RewrittenLoads(l: Layout, m: Live, deletes: seq<string>)
    requires Sound(l) && Keyed(m)
    ensures var next := Rewritten(l, m, deletes);
            LoadAll(next) == m && InlineAgrees(next) && InlineCovered(next)
  {
    assert Lists(l.order(m), m);
    assert Flatten(l.cut(l.order(m))) == l.order(m);
  }

  /** The fast append makes live what the full rewrite would exactly when the inline entries agree with
      the listed ones and no index files would be merged within the added list itself. */
  lemma {:induction false} FastAppendExactIff(l: Layout, limit: nat, base: Snapshot, c: Change)
    requires Sound(l) && IsAppend(base, c, limit)
    ensures LoadAll(Appended(l, base, c)) == Replaced(LoadAll(base), c.remove, c.add)
            <==> InlineAgrees(base) && AddAll(map[], c.add) == Last(c.add)
  {
    var m, f, t := LoadAll(base), Listed(base), Last(base.inline);
    AppendedLoads(l, base, c);
    assert Without(m, c.remove) == m;
    NewPaths(m, c.add);
    AddNewPaths(m, c.add);
    LastKeyed(c.add);
    Overlays(f, t, AddAll(map[], c.add), Last(c.add));
  }

  /** So a fast append of files that are each added once is exact if and only if the inline entries agree with the
      listed ones. */
  lemma {:induction false} FastAppendOfFilesIff(l: Layout, limit: nat, base: Snapshot, c: Change)
    requires Sound(l) && IsAppend(base, c, limit) && Distinct(c.add)
    ensures LoadAll(Appended(l, base, c)) == Replaced(LoadAll(base), c.remove, c.add) <==> InlineAgrees(base)
  {
    FastAppendExactIff(l, limit, base, c);
    AddDistinct(c.add);
  }

  lemma {:induction false} NewPaths(m: Live, add: seq<Entry>)
    requires AllNew(m, add)
    ensures Paths(add) !! m.Keys && forall e :: e in add ==> e.path !in m
  {
    forall e | e in add
      ensures e.path !in m
    {
      var i :| 0 <= i < |add| && add[i] == e;
    }
  }

  /** Dropping the middle layer of three is harmless exactly when it agrees with the lowest one. */
  lemma {:induction false} Overlays<K, V>(f: map<K, V>, t: map<K, V>, a: map<K, V>, b: map<K, V>)
    requires a.Keys == b.Keys && a.Keys !! (f + t).Keys
    ensures f + b == (f + t) + a <==> (forall p :: p in t ==> p in f && f[p] == t[p]) && a == b
  {
    if f + b == (f + t) + a {
      forall p | p in t
        ensures p in f && f[p] == t[p]
      {
        assert p in f + b && (f + b)[p] == ((f + t) + a)[p];
      }
      forall p | p in a
        ensures a[p] == b[p]
      {
        assert (f + b)[p] == ((f + t) + a)[p];
      }
    }
  }

  /** The live paths are right exactly when every inline path is listed; a rewrite always gets them right. */
  lemma {:induction false} CommitPathsIff(l: Layout, limit: nat, base: Snapshot, c: Change)
    requires Sound(l) && Attempt(l, limit, base, c).Write?
    ensures var next := Attempt(l, limit, base, c).next;
            && (LoadAll(next).Keys == LoadAll(base).Keys - (set p | p in c.remove) + Paths(c.add)
                <==> (IsAppend(base, c, limit) ==> InlineCovered(base)))
            && InlineCovered(next)
  {
    if IsAppend(base, c, limit) {
      AppendPathsIff(l, base, c);
      assert LoadAll(base).Keys - (set p | p in c.remove) == LoadAll(base).Keys;
    } else {
      var m := LoadAll(base);
      LoadAllKeyed(base);
      AddAllKeyed(Without(m, c.remove), c.add);
      RewrittenLoads(l, Replaced(m, c.remove, c.add), DeletesAfter(base, c.deletes));
    }
  }

  lemma {:induction false} AppendPathsIff(l: Layout, base: Snapshot, c: Change)
    requires Sound(l) && AllNew(LoadAll(base), c.add)
    ensures LoadAll(Appended(l, base, c)).Keys == LoadAll(base).Keys + Paths(c.add) <==> InlineCovered(base)
  {
    AppendedLoads(l, base, c);
    LoadAllKeyed(base);
    LastKeyed(c.add);
    NewPaths(LoadAll(base), c.add);
    CoveredIff(Listed(base).Keys, Paths(base.inline), Paths(c.add));
  }

  lemma {:induction false} CoveredIff<T>(f: set<T>, t: set<T>, a: set<T>)
    requires a !! f + t
    ensures f + a == f + t + a <==> t <= f
  {
    if f + a == f + t + a {
      forall p | p in t
        ensures p in f
      {
        assert p in f + a;
      }
    }
  }

  /** Whether the manifest files may arrive in any order. */
  ghost predicate OrderFree(s: Snapshot) { s.files.Some? ==> Distinct(Flatten(s.files.value)) }

  /** A commit keeps that, unless it appends a list that names a path twice. */
  lemma {:induction false} CommitOrderFreeIff(l: Layout, limit: nat, base: Snapshot, c: Change)
    requires Sound(l) && OrderFree(base) && Attempt(l, limit, base, c).Write?
    ensures OrderFree(Attempt(l, limit, base, c).next) <==> (IsAppend(base, c, limit) ==> Distinct(c.add))
  {
    if IsAppend(base, c, limit) {
      var prev := if base.files.Some? then base.files.value else [];
      FlattenAppend(prev, l.cut(c.add));
      assert Flatten(l.cut(c.add)) == c.add;
      NewPaths(LoadAll(base), c.add);
      LoadAllKeyed(base);
      LastKeyed(Flatten(prev));
      DistinctAppend(Flatten(prev), c.add);
    } else {
      var m := LoadAll(base);
      LoadAllKeyed(base);
      AddAllKeyed(Without(m, c.remove), c.add);
      var es := l.order(Replaced(m, c.remove, c.add));
      assert Lists(es, Replaced(m, c.remove, c.add));
      assert Flatten(l.cut(es)) == es;
    }
  }

  lemma {:induction false} DistinctAppend(a: seq<Entry>, b: seq<Entry>)
    requires Distinct(a) && Paths(a) !! Paths(b)
    ensures Distinct(a + b) <==> Distinct(b)
  {
    if Distinct(a + b) {
      forall i, j | 0 <= i < j < |b|
        ensures b[i].path != b[j].path
      {
        assert (a + b)[|a| + i] == b[i] && (a + b)[|a| + j] == b[j];
      }
    }
    forall i, j | 0 <= i < |a| && 0 <= j < |b|
      ensures a[i].path != b[j].path
    {
      assert a[i] in a && b[j] in b;
      assert a[i].path in Paths(a) && b[j].path in Paths(b);
    }
  }

  // ---- index imports ----------------------------------------------------------------------------------------------

  /** Entries replace live ones of the same path; entries of paths that are no longer live are skipped. */
  function Updated(m: Live, es: seq<Entry>): Live {
    if es == [] then m else
      var n := |es| - 1;
      var before := Updated(m, es[..n]);
      if es[n].path in before then before[es[n].path := es[n]] else before
  }

  function Imported(l: Layout, base: Snapshot, es: seq<Entry>): Snapshot {
    Snapshot(base.files, l.order(Updated(LoadAll(base), es)), base.deletes)
  }

  lemma {:induction false} UpdatedKeyed(m: Live, es: seq<Entry>)
    requires Keyed(m)
    ensures Keyed(Updated(m, es)) && Updated(m, es).Keys == m.Keys
    decreases |es|
  {
    if es != [] { UpdatedKeyed(m, es[..|es| - 1]); }
  }

  /** A live path takes the last entry imported for it, if there is one. */
  lemma {:induction false} UpdatedIs(m: Live, es: seq<Entry>, p: string)
    requires p in m
    ensures p in Updated(m, es) && Updated(m, es)[p] == if p in Last(es) then Last(es)[p] else m[p]
    decreases |es|
  {
    if es != [] { UpdatedIs(m, es[..|es| - 1], p); }
  }

  /** An import never brings a removed file back: the live paths stay, each with the last entry imported for it, or else
      its old one. */
  lemma {:induction false} ImportLoads(l: Layout, base: Snapshot, es: seq<Entry>)
    requires Sound(l)
    ensures LoadAll(Imported(l, base, es)) == Updated(LoadAll(base), es)
    ensures LoadAll(Imported(l, base, es)).Keys == LoadAll(base).Keys
    ensures forall p :: p in LoadAll(base) ==>
              LoadAll(Imported(l, base, es))[p] == if p in Last(es) then Last(es)[p] else LoadAll(base)[p]
    ensures InlineCovered(base) ==> InlineCovered(Imported(l, base, es))
  {
    var m := LoadAll(base);
    LoadAllKeyed(base);
    UpdatedKeyed(m, es);
    var u := Updated(m, es);
    assert Lists(l.order(u), u);
    LastKeyed(l.order(u));
    LastKeyed(base.inline);
    forall p | p in m
      ensures u[p] == if p in Last(es) then Last(es)[p] else m[p]
    {
      UpdatedIs(m, es, p);
    }
  }

  /** A fast append right after an import undoes it: the live entries are as if nothing had been imported. */
  lemma {:induction false} AppendUndoesImport(l: Layout, limit: nat, base: Snapshot, es: seq<Entry>, c: Change)
    requires Sound(l) && InlineAgrees(base) && IsAppend(Imported(l, base, es), c, limit)
    ensures LoadAll(Appended(l, Imported(l, base, es), c)) == LoadAll(base) + Last(c.add)
  {
    AppendedLoads(l, Imported(l, base, es), c);
    assert LoadAll(base) == Listed(base);
  }

  // ---- snapshots of an external engine ----------------------------------------------------------------------------

  /** Surviving entries without index files take over the known ones. */
  function Carried(m: Live, es: seq<Entry>): seq<Entry>
    decreases |es|
  {
    if es == [] then []
    else
      var e := es[0];
      [if e.path in m && e.indexes == [] then e.(indexes := m[e.path].indexes) else e] + Carried(m - {e.path}, es[1..])
  }

  function Synced(base: Snapshot, es: seq<Entry>): Snapshot {
    Snapshot(base.files, Carried(LoadAll(base), es), base.deletes)
  }

  lemma {:induction false} CarriedPaths(m: Live, es: seq<Entry>)
    ensures |Carried(m, es)| == |es|
    ensures forall i :: 0 <= i < |es| ==> Carried(m, es)[i].path == es[i].path
    decreases |es|
  {
    if es != [] {
      CarriedPaths(m - {es[0].path}, es[1..]);
      var rest := Carried(m - {es[0].path}, es[1..]);
      forall i | 0 <= i < |es|
        ensures Carried(m, es)[i].path == es[i].path
      {
        if i > 0 { assert Carried(m, es)[i] == rest[i - 1] && es[i] == es[1..][i - 1]; }
      }
    }
  }

  lemma {:induction false} CarriedEntry(m: Live, es: seq<Entry>, i: nat)
    requires i < |es| && forall j :: 0 <= j < i ==> es[j].path != es[i].path
    ensures |Carried(m, es)| == |es|
    ensures Carried(m, es)[i]
            == if es[i].path in m && es[i].indexes == [] then es[i].(indexes := m[es[i].path].indexes) else es[i]
    decreases |es|
  {
    CarriedPaths(m, es);
    if i > 0 {
      var rest := es[1..];
      assert rest[i - 1] == es[i] && forall j :: 0 <= j < i - 1 ==> rest[j] == es[j + 1];
      CarriedEntry(m - {es[0].path}, rest, i - 1);
      assert Carried(m, es)[i] == Carried(m - {es[0].path}, rest)[i - 1];
    }
  }

  /** Files that survive a synchronisation keep their index files; all others come as given. */
  lemma {:induction false} SyncKeepsIndexes(base: Snapshot, es: seq<Entry>, i: nat)
    requires Distinct(es) && i < |es|
    ensures var p, m := es[i].path, LoadAll(base);
            var next := LoadAll(Synced(base, es));
            p in next && next[p] == if p in m && es[i].indexes == [] then es[i].(indexes := m[p].indexes) else es[i]
  {
    var out := Carried(LoadAll(base), es);
    CarriedPaths(LoadAll(base), es);
    CarriedEntry(LoadAll(base), es, i);
    assert Distinct(out);
    LastOfDistinct(out);
    assert out[i] in out;
  }

  /** The synchronised snapshot is meant to be exactly the live set: it is, if and only if no file outside it
      is still named by the manifest list, which the new manifest keeps. */
  lemma {:induction false} SyncRetiresIff(base: Snapshot, es: seq<Entry>)
    ensures LoadAll(Synced(base, es)).Keys == Paths(es) <==> Listed(base).Keys <= Paths(es)
  {
    var next := Synced(base, es);
    CarriedPaths(LoadAll(base), es);
    LoadAllKeyed(next);
    SamePaths(next.inline, es);
  }

  lemma {:induction false} SamePaths(a: seq<Entry>, b: seq<Entry>)
    requires |a| == |b| && forall i :: 0 <= i < |a| ==> a[i].path == b[i].path
    ensures Paths(a) == Paths(b)
  {
    forall e | e in a
      ensures e.path in Paths(b)
    {
      var i :| 0 <= i < |a| && a[i] == e;
      assert b[i] in b;
    }
    forall e | e in b
      ensures e.path in Paths(a)
    {
      var i :| 0 <= i < |b| && b[i] == e;
      assert a[i] in a;
    }
  }

  /** A fast append onto a synchronised table without a manifest list leaves only the appended files live. */
  lemma {:induction false} AppendForgetsSynced(l: Layout, limit: nat, base: Snapshot, es: seq<Entry>, c: Change)
    requires Sound(l) && base.files == None && IsAppend(Synced(base, es), c, limit)
    ensures LoadAll(Appended(l, Synced(base, es), c)).Keys == Paths(c.add)
  {
    AppendedLoads(l, Synced(base, es), c);
    LastKeyed(c.add);
  }
}
