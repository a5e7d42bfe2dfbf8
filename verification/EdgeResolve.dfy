/** Edge resolution (`stage_resolve`): edge endpoints are page ids or titles; titles are looked
    up in a broadcast title map by left joins, chunk by chunk, and edges to
    redirect pages are dropped. */
module EdgeResolve {
  import opened Seqs
  import opened Dedup

  datatype Node = Node(id: Option<int>, title: string, redirect: bool)

  datatype RawEdge = RawEdge(source: string, target: string)

  datatype Edge = Edge(source: int, target: int)

  /** A row of the title map; the id column may hold null. */
  datatype TitleRow = TitleRow(title: string, id: Option<int>)

  // ---- the title map -----------------------------------------------------------------------

  function LowerFirst(s: string): string {
    if s != [] && 'A' <= s[0] <= 'Z' then [s[0] - 'A' + 'a'] + s[1..] else s
  }

  function Underscores(s: string): string {
    if s == [] then [] else [if s[0] == '_' then ' ' else s[0]] + Underscores(s[1..])
  }

  function LiveTitles(nodes: seq<Node>): seq<TitleRow> {
    if nodes == [] then []
    else (if nodes[0].redirect then [] else [TitleRow(nodes[0].title, nodes[0].id)]) + LiveTitles(nodes[1..])
  }

  function Lowered(rows: seq<TitleRow>): (r: seq<TitleRow>)
    ensures |r| == |rows| && forall i :: 0 <= i < |r| ==> r[i] == TitleRow(LowerFirst(rows[i].title), rows[i].id)
  {
    seq(|rows|, i requires 0 <= i < |rows| => TitleRow(LowerFirst(rows[i].title), rows[i].id))
  }

  function TitleOf(r: TitleRow): string { r.title }

  /** `concat([live, lowered]).unique(subset=["title"], keep="first")`. */
  function TitleMap(nodes: seq<Node>): seq<TitleRow> {
    FirstByKey(TitleOf, LiveTitles(nodes) + Lowered(LiveTitles(nodes)))
  }

  // ---- the joins --------------------------------------------------------------------------------

  /** The rows of a title map that match a key. */
  function Matches(tm: seq<TitleRow>, key: string): seq<Option<int>> {
    if tm == [] then []
    else (if tm[0].title == key then [tm[0].id] else []) + Matches(tm[1..], key)
  }

  /** What a left join puts beside a row with this key: its matches, or one null. */
  function LeftJoin(tm: seq<TitleRow>, key: string): (r: seq<Option<int>>)
    ensures r != []
  {
    if Matches(tm, key) == [] then [None] else Matches(tm, key)
  }

  function Coalesce(a: Option<int>, b: Option<int>): Option<int> { if a.Some? then a else b }

  /** The candidate endpoints of an edge after both joins: one row per pair of matches. `num` is the
      non-strict cast to Int64. */
  function Candidates(tm: seq<TitleRow>, num: string -> Option<int>, e: RawEdge): seq<(Option<int>, Option<int>)> {
    Pairs(LeftJoin(tm, Underscores(e.source)), LeftJoin(tm, Underscores(e.target)), num(e.source), num(e.target))
  }

  function Pairs(a: seq<Option<int>>, b: seq<Option<int>>, src: Option<int>, dst: Option<int>)
    : seq<(Option<int>, Option<int>)>
  {
    if a == [] then [] else PairsWith(Coalesce(src, a[0]), b, dst) + Pairs(a[1..], b, src, dst)
  }

  function PairsWith(s: Option<int>, b: seq<Option<int>>, dst: Option<int>): seq<(Option<int>, Option<int>)> {
    if b == [] then [] else [(s, Coalesce(dst, b[0]))] + PairsWith(s, b[1..], dst)
  }

  /** The joins keep every pair of matches, once for each way to pair them. */
  lemma {:induction false} PairsHold(a: seq<Option<int>>, b: seq<Option<int>>, src: Option<int>, dst: Option<int>,
                                     x: Option<int>, y: Option<int>)
    requires x in a && y in b
    ensures |Pairs(a, b, src, dst)| == |a| * |b|
    ensures (Coalesce(src, x), Coalesce(dst, y)) in Pairs(a, b, src, dst)
  {
    PairsCount(a, b, src, dst);
    if a[0] == x {
      PairsWithHold(Coalesce(src, x), b, dst, y);
    } else {
      assert x in a[1..];
      PairsHold(a[1..], b, src, dst, x, y);
    }
  }

  lemma {:induction false} PairsWithHold(s: Option<int>, b: seq<Option<int>>, dst: Option<int>, y: Option<int>)
    requires y in b
    ensures (s, Coalesce(dst, y)) in PairsWith(s, b, dst)
  {
    if b[0] != y {
      assert y in b[1..];
      PairsWithHold(s, b[1..], dst, y);
    }
  }

  lemma {:induction false} PairsCount(a: seq<Option<int>>, b: seq<Option<int>>, src: Option<int>, dst: Option<int>)
    ensures |Pairs(a, b, src, dst)| == |a| * |b|
  {
    if a != [] {
      PairsWithCount(Coalesce(src, a[0]), b, dst);
      PairsCount(a[1..], b, src, dst);
      OneMore(|a| - 1, |b|);
    }
  }

  lemma {:induction false} PairsWithCount(s: Option<int>, b: seq<Option<int>>, dst: Option<int>)
    ensures |PairsWith(s, b, dst)| == |b|
  {
    if b != [] { PairsWithCount(s, b[1..], dst); }
  }

  lemma {:induction false} OneMore(m: nat, n: nat)
    ensures (m + 1) * n == n + m * n
  {}

  /** The filter on resolved endpoints. */
  predicate Resolved(c: (Option<int>, Option<int>)) {
    c.0.Some? && c.1.Some? && c.0.value > 0 && c.1.value > 0 && c.0.value != c.1.value
  }

  function KeepResolved(cs: seq<(Option<int>, Option<int>)>): seq<Edge> {
    if cs == [] then []
    else (if Resolved(cs[0]) then [Edge(cs[0].0.value, cs[0].1.value)] else []) + KeepResolved(cs[1..])
  }

  function ResolveChunk(tm: seq<TitleRow>, num: string -> Option<int>, chunk: seq<RawEdge>): seq<Edge> {
    if chunk == [] then [] else ResolveOne(tm, num, chunk[0]) + ResolveChunk(tm, num, chunk[1..])
  }

  function ResolveOne(tm: seq<TitleRow>, num: string -> Option<int>, e: RawEdge): seq<Edge> {
    KeepResolved(Candidates(tm, num, e))
  }

  /** The two anti joins against the redirect pages. */
  function DropRedirects(redirects: set<int>, edges: seq<Edge>): seq<Edge> {
    if edges == [] then []
    else (if edges[0].source in redirects || edges[0].target in redirects then [] else [edges[0]])
         + DropRedirects(redirects, edges[1..])
  }

  function Kept(tm: seq<TitleRow>, num: string -> Option<int>, redirects: set<int>, edges: seq<RawEdge>): seq<Edge> {
    DropRedirects(redirects, ResolveChunk(tm, num, edges))
  }

  // ---- chunking does not matter ---------------------------------------------------------------------

  lemma {:induction false} ResolveAppend(tm: seq<TitleRow>, num: string -> Option<int>, a: seq<RawEdge>,
                                         b: seq<RawEdge>)
    ensures ResolveChunk(tm, num, a + b) == ResolveChunk(tm, num, a) + ResolveChunk(tm, num, b)
    decreases |a|
  {
    if a == [] {
      assert a + b == b;
    } else {
      assert (a + b)[0] == a[0] && (a + b)[1..] == a[1..] + b;
      ResolveAppend(tm, num, a[1..], b);
      ResolveFirst(tm, num, a);
      ResolveFirst(tm, num, a + b);
      Regroup(ResolveOne(tm, num, a[0]), ResolveChunk(tm, num, a[1..]), ResolveChunk(tm, num, b));
    }
  }

  lemma {:induction false} ResolveFirst(tm: seq<TitleRow>, num: string -> Option<int>, edges: seq<RawEdge>)
    requires edges != []
    ensures ResolveChunk(tm, num, edges) == ResolveOne(tm, num, edges[0]) + ResolveChunk(tm, num, edges[1..])
  {
  }

  lemma {:induction false} DropAppend(redirects: set<int>, a: seq<Edge>, b: seq<Edge>)
    ensures DropRedirects(redirects, a + b) == DropRedirects(redirects, a) + DropRedirects(redirects, b)
  {
    if a == [] {
      assert a + b == b;
    } else {
      assert (a + b)[0] == a[0] && (a + b)[1..] == a[1..] + b;
      DropAppend(redirects, a[1..], b);
    }
  }

  lemma {:induction false} KeptAppend(tm: seq<TitleRow>, num: string -> Option<int>, redirects: set<int>,
                                      a: seq<RawEdge>, b: seq<RawEdge>)
    ensures Kept(tm, num, redirects, a + b) == Kept(tm, num, redirects, a) + Kept(tm, num, redirects, b)
  {
    ResolveAppend(tm, num, a, b);
    DropAppend(redirects, ResolveChunk(tm, num, a), ResolveChunk(tm, num, b));
  }

  /** How many edges do not resolve. */
  function Missing(tm: seq<TitleRow>, num: string -> Option<int>, edges: seq<RawEdge>): int {
    |edges| - |ResolveChunk(tm, num, edges)|
  }

  lemma {:induction false} ChunkAdds(tm: seq<TitleRow>, num: string -> Option<int>, redirects: set<int>,
                                     chunks: seq<seq<RawEdge>>, i: nat)
    requires i < |chunks|
    ensures var before, after := Flatten(chunks[..i]), Flatten(chunks[..i + 1]);
            && Kept(tm, num, redirects, after) == Kept(tm, num, redirects, before) + Kept(tm, num, redirects, chunks[i])
            && Missing(tm, num, after) == Missing(tm, num, before) + Missing(tm, num, chunks[i])
  {
    FlattenSnoc(chunks[..i], chunks[i]);
    assert chunks[..i + 1] == chunks[..i] + [chunks[i]];
    KeptAppend(tm, num, redirects, Flatten(chunks[..i]), chunks[i]);
    ResolveAppend(tm, num, Flatten(chunks[..i]), chunks[i]);
  }

  /** One chunk: joins, filter and anti joins, with the number of edges that did not resolve. */
  method ResolveOneChunk(tm: seq<TitleRow>, num: string -> Option<int>, redirects: set<int>, chunk: seq<RawEdge>)
    returns (kept: seq<Edge>, unresolved: int)
    ensures kept == Kept(tm, num, redirects, chunk) && unresolved == Missing(tm, num, chunk)
  {
    var e := ResolveChunk(tm, num, chunk);
    unresolved := |chunk| - |e|;
    kept := DropRedirects(redirects, e);
  }

  /** The chunked stage: for any split of the edge list it writes what resolving the whole list would,
      and its counts are those of the whole list. */
  method ResolveEdges(nodes: seq<Node>, num: string -> Option<int>, chunks: seq<seq<RawEdge>>)
    returns (out: seq<Edge>, total: nat, unresolved: int)
    ensures out == Kept(TitleMap(nodes), num, Redirects(nodes), Flatten(chunks)) && total == |out|
    ensures unresolved == Missing(TitleMap(nodes), num, Flatten(chunks))
    ensures forall e :: e in out <==> (exists r :: r in Flatten(chunks) && Stands(nodes, num, r, e))
                                      && !IsRedirect(nodes, e.source) && !IsRedirect(nodes, e.target)
  {
    var tm, redirects := TitleMap(nodes), Redirects(nodes);
    out, total, unresolved := [], 0, 0;
    for i := 0 to |chunks|
      invariant out == Kept(tm, num, redirects, Flatten(chunks[..i])) && total == |out|
      invariant unresolved == Missing(tm, num, Flatten(chunks[..i]))
    {
      ChunkAdds(tm, num, redirects, chunks, i);
      var kept, missing := ResolveOneChunk(tm, num, redirects, chunks[i]);
      out, total, unresolved := out + kept, total + |kept|, unresolved + missing;
    }
    assert chunks[..|chunks|] == chunks;
    forall e
      ensures e in out <==> (exists r :: r in Flatten(chunks) && Stands(nodes, num, r, e))
                            && !IsRedirect(nodes, e.source) && !IsRedirect(nodes, e.target)
    {
      KeptIff(nodes, num, Flatten(chunks), e);
    }
  }

  /** Kept, unresolved and redirect-dropped edges add up to the input, and none of the counts is negative. */
  lemma {:induction false} CountsAddUp(nodes: seq<Node>, num: string -> Option<int>, edges: seq<RawEdge>)
    ensures var tm, redirects := TitleMap(nodes), Redirects(nodes);
            var dropped := ToRedirects(redirects, ResolveChunk(tm, num, edges));
            && |Kept(tm, num, redirects, edges)| + Missing(tm, num, edges) + |dropped| == |edges|
            && Missing(tm, num, edges) >= 0
            && forall e :: e in dropped ==> e.source in redirects || e.target in redirects
  {
    var tm, redirects := TitleMap(nodes), Redirects(nodes);
    TitleMapIsUnique(nodes);
    JoinsNeverMultiply(tm, num, edges);
    DropSplits(redirects, ResolveChunk(tm, num, edges));
  }

  function ToRedirects(redirects: set<int>, edges: seq<Edge>): seq<Edge> {
    if edges == [] then []
    else (if edges[0].source in redirects || edges[0].target in redirects then [edges[0]] else [])
         + ToRedirects(redirects, edges[1..])
  }

  lemma {:induction false} DropSplits(redirects: set<int>, edges: seq<Edge>)
    ensures |DropRedirects(redirects, edges)| + |ToRedirects(redirects, edges)| == |edges|
    ensures forall e :: e in ToRedirects(redirects, edges) ==> e.source in redirects || e.target in redirects
    decreases |edges|
  {
    if edges != [] { DropSplits(redirects, edges[1..]); }
  }

  // ---- unique titles keep the joins from multiplying -----------------------------------------------------

  lemma {:induction false} MatchesUnique(tm: seq<TitleRow>, key: string)
    requires DistinctKeys(TitleOf, tm)
    ensures |Matches(tm, key)| <= 1
    ensures Matches(tm, key) != [] <==> HasKey(TitleOf, tm, key)
  {
    if tm != [] {
      assert forall i :: 0 <= i < |tm| - 1 ==> tm[1..][i] == tm[i + 1];
      MatchesUnique(tm[1..], key);
      HasKeyAppend(TitleOf, [tm[0]], tm[1..], key);
      assert tm == [tm[0]] + tm[1..];
      assert HasKey(TitleOf, [tm[0]], key) <==> TitleOf([tm[0]][0]) == key;
    }
  }

  lemma {:induction false} OneCandidate(tm: seq<TitleRow>, num: string -> Option<int>, e: RawEdge)
    requires DistinctKeys(TitleOf, tm)
    ensures Candidates(tm, num, e)
         == [(Coalesce(num(e.source), LeftJoin(tm, Underscores(e.source))[0]),
              Coalesce(num(e.target), LeftJoin(tm, Underscores(e.target))[0]))]
  {
    MatchesUnique(tm, Underscores(e.source));
    MatchesUnique(tm, Underscores(e.target));
    var a, b := LeftJoin(tm, Underscores(e.source)), LeftJoin(tm, Underscores(e.target));
    assert |a| == 1 && |b| == 1 && a[1..] == [] && b[1..] == [];
    var s, d := num(e.source), num(e.target);
    assert PairsWith(Coalesce(s, a[0]), b, d)
      == [(Coalesce(s, a[0]), Coalesce(d, b[0]))] + PairsWith(Coalesce(s, a[0]), [], d);
    assert Pairs(a, b, s, d) == PairsWith(Coalesce(s, a[0]), b, d) + Pairs([], b, s, d);
  }

  /** The rows of a chunk after both joins, before any filter. */
  function Joined(tm: seq<TitleRow>, num: string -> Option<int>, chunk: seq<RawEdge>): seq<(Option<int>, Option<int>)> {
    if chunk == [] then [] else Candidates(tm, num, chunk[0]) + Joined(tm, num, chunk[1..])
  }

  /** The joins give every edge exactly one row, its own, so resolved rows never outnumber the input. */
  lemma {:induction false} JoinsNeverMultiply(tm: seq<TitleRow>, num: string -> Option<int>, edges: seq<RawEdge>)
    requires DistinctKeys(TitleOf, tm)
    ensures |Joined(tm, num, edges)| == |edges|
    ensures forall i :: 0 <= i < |edges| ==> [Joined(tm, num, edges)[i]] == Candidates(tm, num, edges[i])
    ensures ResolveChunk(tm, num, edges) == KeepResolved(Joined(tm, num, edges))
    ensures |ResolveChunk(tm, num, edges)| <= |edges|
    decreases |edges|
  {
    if edges != [] {
      OneCandidate(tm, num, edges[0]);
      var cs, rest := Candidates(tm, num, edges[0]), Joined(tm, num, edges[1..]);
      assert cs == [cs[0]] && (cs + rest)[0] == cs[0] && (cs + rest)[1..] == rest;
      KeepOne(cs[0]);
      JoinsNeverMultiply(tm, num, edges[1..]);
      assert forall i :: 0 < i < |edges| ==> edges[i] == edges[1..][i - 1] && (cs + rest)[i] == rest[i - 1];
    }
  }

  lemma {:induction false} TitleMapIsUnique(nodes: seq<Node>)
    ensures DistinctKeys(TitleOf, TitleMap(nodes))
  {
    FirstByKeyMeaning(TitleOf, LiveTitles(nodes) + Lowered(LiveTitles(nodes)));
  }

  // ---- what a kept edge is ---------------------------------------------------------------------------------

  function Redirects(nodes: seq<Node>): set<int> {
    set i | 0 <= i < |nodes| && nodes[i].redirect && nodes[i].id.Some? :: nodes[i].id.value
  }

  lemma {:induction false} KeepResolvedEdges(cs: seq<(Option<int>, Option<int>)>, e: Edge)
    requires e in KeepResolved(cs)
    ensures e.source > 0 && e.target > 0 && e.source != e.target
  {
    if !(Resolved(cs[0]) && e == Edge(cs[0].0.value, cs[0].1.value)) { KeepResolvedEdges(cs[1..], e); }
  }

  lemma {:induction false} ResolvedEdges(tm: seq<TitleRow>, num: string -> Option<int>, edges: seq<RawEdge>, e: Edge)
    requires e in ResolveChunk(tm, num, edges)
    ensures e.source > 0 && e.target > 0 && e.source != e.target
    decreases |edges|
  {
    var first := KeepResolved(Candidates(tm, num, edges[0]));
    if e in first {
      KeepResolvedEdges(Candidates(tm, num, edges[0]), e);
    } else {
      ResolvedEdges(tm, num, edges[1..], e);
    }
  }

  lemma {:induction false} DroppedEdges(redirects: set<int>, edges: seq<Edge>, e: Edge)
    ensures e in DropRedirects(redirects, edges) <==> e in edges && e.source !in redirects && e.target !in redirects
  {
    if edges != [] {
      DroppedEdges(redirects, edges[1..], e);
      assert e in edges <==> e == edges[0] || e in edges[1..];
    }
  }

  /** Kept edges join two different positive page ids, neither a redirect. */
  lemma {:induction false} KeptEdges(tm: seq<TitleRow>, num: string -> Option<int>, redirects: set<int>,
                                     edges: seq<RawEdge>, e: Edge)
    requires e in Kept(tm, num, redirects, edges)
    ensures e.source > 0 && e.target > 0 && e.source != e.target
    ensures e.source !in redirects && e.target !in redirects
  {
    DroppedEdges(redirects, ResolveChunk(tm, num, edges), e);
    ResolvedEdges(tm, num, edges, e);
  }

  // ---- which page a title resolves to -----------------------------------------------------------------------------

  /** The first row with this title. */
  function Lookup(rows: seq<TitleRow>, key: string): Option<Option<int>> {
    if rows == [] then None else if rows[0].title == key then Some(rows[0].id) else Lookup(rows[1..], key)
  }

  lemma {:induction false} LookupAppend(a: seq<TitleRow>, b: seq<TitleRow>, key: string)
    ensures Lookup(a + b, key) == if HasKey(TitleOf, a, key) then Lookup(a, key) else Lookup(b, key)
    ensures HasKey(TitleOf, a, key) <==> Lookup(a, key).Some?
  {
    if a == [] {
      assert a + b == b;
    } else {
      assert (a + b)[0] == a[0] && (a + b)[1..] == a[1..] + b;
      LookupAppend(a[1..], b, key);
      HasKeyAppend(TitleOf, [a[0]], a[1..], key);
      assert a == [a[0]] + a[1..];
      assert HasKey(TitleOf, [a[0]], key) <==> TitleOf([a[0]][0]) == key;
    }
  }

  lemma {:induction false} LookupSnoc(rows: seq<TitleRow>, last: TitleRow, key: string)
    ensures Lookup(rows + [last], key)
         == if Lookup(rows, key).Some? then Lookup(rows, key) else if last.title == key then Some(last.id) else None
    ensures Lookup(rows, key).Some? <==> HasKey(TitleOf, rows, key)
  {
    LookupAppend(rows, [last], key);
    assert Lookup([last][1..], key) == None;
  }

  /** Removing duplicate titles does not change what a title finds. */
  lemma {:induction false} LookupUnique(rows: seq<TitleRow>, key: string)
    ensures Lookup(FirstByKey(TitleOf, rows), key) == Lookup(rows, key)
    decreases |rows|
  {
    if rows != [] {
      var front, last := rows[..|rows| - 1], rows[|rows| - 1];
      assert rows == front + [last];
      LookupUnique(front, key);
      LookupSnoc(front, last, key);
      FirstByKeySnoc(TitleOf, front, last);
      LookupSnoc(FirstByKey(TitleOf, front), last, key);
    }
  }

  lemma {:induction false} LookupMatches(tm: seq<TitleRow>, key: string)
    ensures Matches(tm, key) == [] <==> Lookup(tm, key).None?
    ensures Matches(tm, key) != [] ==> Matches(tm, key)[0] == Lookup(tm, key).value
  {
    if tm != [] { LookupMatches(tm[1..], key); }
  }

  /** The first live page with exactly this title, and only if there is none, the first live page whose
      title with a lower-case initial it is. */
  function Page(nodes: seq<Node>, key: string): Option<int> {
    var live := LiveTitles(nodes);
    match Lookup(live, key)
    case Some(id) => id
    case None => match Lookup(Lowered(live), key) { case Some(id) => id case None => None }
  }

  /** Exact titles win over lower-cased ones, and a join on the title map finds one page or none. */
  lemma {:induction false} ExactTitleWins(nodes: seq<Node>, key: string)
    ensures LeftJoin(TitleMap(nodes), key) == [Page(nodes, key)]
  {
    var live := LiveTitles(nodes);
    var tm := TitleMap(nodes);
    LookupUnique(live + Lowered(live), key);
    LookupAppend(live, Lowered(live), key);
    LookupMatches(tm, key);
    TitleMapIsUnique(nodes);
    MatchesUnique(tm, key);
    if Matches(tm, key) != [] { assert Matches(tm, key) == [Matches(tm, key)[0]]; }
  }

  /** An endpoint is the number it spells, or else the page of its title with spaces for underscores. */
  function Endpoint(nodes: seq<Node>, num: string -> Option<int>, text: string): Option<int> {
    Coalesce(num(text), Page(nodes, Underscores(text)))
  }

  /** An edge resolves to the edge between its endpoints if both are known, positive and different, and otherwise to
      nothing. */
  lemma {:induction false} EdgeResolvesTo(nodes: seq<Node>, num: string -> Option<int>, e: RawEdge)
    ensures var s, d := Endpoint(nodes, num, e.source), Endpoint(nodes, num, e.target);
            ResolveOne(TitleMap(nodes), num, e)
            == if s.Some? && d.Some? && s.value > 0 && d.value > 0 && s.value != d.value
               then [Edge(s.value, d.value)] else []
  {
    var s, d := Endpoint(nodes, num, e.source), Endpoint(nodes, num, e.target);
    assert Candidates(TitleMap(nodes), num, e) == [(s, d)] by {
      TitleMapIsUnique(nodes);
      OneCandidate(TitleMap(nodes), num, e);
      ExactTitleWins(nodes, Underscores(e.source));
      ExactTitleWins(nodes, Underscores(e.target));
    }
    KeepOne((s, d));
  }

  lemma {:induction false} KeepOne(c: (Option<int>, Option<int>))
    ensures KeepResolved([c]) == if Resolved(c) then [Edge(c.0.value, c.1.value)] else []
  {
    assert [c][1..] == [];
  }

  // ---- the result in terms of the nodes alone -----------------------------------------------------------------------

  /** The text with a space for every underscore and all else unchanged. */
  ghost predicate IsKey(text: string, key: string) {
    |key| == |text| && forall i :: 0 <= i < |text| ==> key[i] == if text[i] == '_' then ' ' else text[i]
  }

  /** The same title with its first letter in lower case. */
  ghost predicate IsLowered(title: string, key: string) {
    && |key| == |title| && (forall i :: 0 < i < |title| ==> key[i] == title[i])
    && (title != [] ==> key[0] == if 'A' <= title[0] <= 'Z' then title[0] - 'A' + 'a' else title[0])
  }

  /** A page that is no redirect has this title, or, if `lowered`, this title up to the case of its first letter. */
  ghost predicate Names(n: Node, key: string, lowered: bool) {
    !n.redirect && if lowered then IsLowered(n.title, key) else n.title == key
  }

  ghost predicate FirstNamed(nodes: seq<Node>, key: string, lowered: bool, i: int) {
    0 <= i < |nodes| && Names(nodes[i], key, lowered) && forall j :: 0 <= j < i ==> !Names(nodes[j], key, lowered)
  }

  ghost predicate NoneNamed(nodes: seq<Node>, key: string, lowered: bool) {
    forall j :: 0 <= j < |nodes| ==> !Names(nodes[j], key, lowered)
  }

  /** The page with this key: the first of exactly this title, and only if there is none, the first of this title up to
      the case of its first letter. */
  ghost predicate PageIs(nodes: seq<Node>, key: string, id: int) {
    || (exists i :: FirstNamed(nodes, key, false, i) && nodes[i].id == Some(id))
    || (NoneNamed(nodes, key, false) && exists i :: FirstNamed(nodes, key, true, i) && nodes[i].id == Some(id))
  }

  /** What an endpoint's text stands for: the number it spells, or else the page of its title. */
  ghost predicate StandsFor(nodes: seq<Node>, num: string -> Option<int>, text: string, id: int) {
    if num(text).Some? then num(text).value == id else exists key :: IsKey(text, key) && PageIs(nodes, key, id)
  }

  ghost predicate IsRedirect(nodes: seq<Node>, id: int) {
    exists i :: 0 <= i < |nodes| && nodes[i].redirect && nodes[i].id == Some(id)
  }

  lemma {:induction false} UnderscoresIs(text: string, key: string)
    ensures key == Underscores(text) <==> IsKey(text, key)
  {
    if text != [] && key != [] {
      UnderscoresIs(text[1..], key[1..]);
      assert key == [key[0]] + key[1..];
      var first := if text[0] == '_' then ' ' else text[0];
      assert IsKey(text, key) <==> key[0] == first && IsKey(text[1..], key[1..]) by {
        assert forall i :: 0 < i < |text| ==> text[i] == text[1..][i - 1];
        assert forall i :: 0 < i < |key| ==> key[i] == key[1..][i - 1];
        assert forall i :: 0 <= i < |text| - 1 ==> text[1..][i] == text[i + 1];
        assert forall i :: 0 <= i < |key| - 1 ==> key[1..][i] == key[i + 1];
      }
    }
  }

  lemma {:induction false} LoweredIs(title: string, key: string)
    ensures LowerFirst(title) == key <==> IsLowered(title, key)
  {
    if IsLowered(title, key) && title != [] { assert key == [key[0]] + title[1..] && title == [title[0]] + title[1..]; }
  }

  /** The title rows of the live pages, lowered or not. */
  function TitleRows(nodes: seq<Node>, lowered: bool): seq<TitleRow> {
    if lowered then Lowered(LiveTitles(nodes)) else LiveTitles(nodes)
  }

  lemma {:induction false} TitleRowsCons(nodes: seq<Node>, lowered: bool)
    requires nodes != []
    ensures var n := nodes[0];
            var row := TitleRow(if lowered then LowerFirst(n.title) else n.title, n.id);
            TitleRows(nodes, lowered) == if n.redirect then TitleRows(nodes[1..], lowered)
                                         else [row] + TitleRows(nodes[1..], lowered)
  {
    var rest := LiveTitles(nodes[1..]);
    if !nodes[0].redirect {
      var row := TitleRow(nodes[0].title, nodes[0].id);
      assert Lowered([row] + rest) == [TitleRow(LowerFirst(row.title), row.id)] + Lowered(rest);
    } else {
      assert [] + rest == rest;
    }
  }

  lemma {:induction false} NamesIs(n: Node, key: string, lowered: bool)
    ensures Names(n, key, lowered) <==> !n.redirect && key == if lowered then LowerFirst(n.title) else n.title
  {
    LoweredIs(n.title, key);
  }

  /** Looking a title up among the live pages finds the first that it names. */
  lemma {:induction false} LookupNamed(nodes: seq<Node>, key: string, lowered: bool)
    ensures Lookup(TitleRows(nodes, lowered), key).None? <==> NoneNamed(nodes, key, lowered)
    ensures Lookup(TitleRows(nodes, lowered), key).Some? ==>
              exists i :: FirstNamed(nodes, key, lowered, i)
                          && Lookup(TitleRows(nodes, lowered), key) == Some(nodes[i].id)
    decreases |nodes|
  {
    if nodes != [] {
      var rest := nodes[1..];
      TitleRowsCons(nodes, lowered);
      NamesIs(nodes[0], key, lowered);
      LookupNamed(rest, key, lowered);
      assert forall j :: 0 < j < |nodes| ==> nodes[j] == rest[j - 1];
      if Names(nodes[0], key, lowered) {
        assert FirstNamed(nodes, key, lowered, 0);
      } else {
        LookupLater(nodes, key, lowered);
      }
    }
  }

  lemma {:induction false} LookupLater(nodes: seq<Node>, key: string, lowered: bool)
    requires nodes != [] && !Names(nodes[0], key, lowered)
    ensures NoneNamed(nodes, key, lowered) <==> NoneNamed(nodes[1..], key, lowered)
    ensures Lookup(TitleRows(nodes, lowered), key) == Lookup(TitleRows(nodes[1..], lowered), key)
    ensures forall i :: FirstNamed(nodes[1..], key, lowered, i) ==>
              FirstNamed(nodes, key, lowered, i + 1) && nodes[i + 1] == nodes[1..][i]
  {
    NamedLater(nodes, key, lowered);
    TitleRowsCons(nodes, lowered);
    NamesIs(nodes[0], key, lowered);
    if !nodes[0].redirect {
      var rows := TitleRows(nodes, lowered);
      assert rows[1..] == TitleRows(nodes[1..], lowered);
    }
  }

  lemma {:induction false} NamedLater(nodes: seq<Node>, key: string, lowered: bool)
    requires nodes != [] && !Names(nodes[0], key, lowered)
    ensures NoneNamed(nodes, key, lowered) <==> NoneNamed(nodes[1..], key, lowered)
    ensures forall i :: FirstNamed(nodes[1..], key, lowered, i) ==>
              FirstNamed(nodes, key, lowered, i + 1) && nodes[i + 1] == nodes[1..][i]
  {
    var rest := nodes[1..];
    assert forall j :: 0 < j < |nodes| ==> nodes[j] == rest[j - 1];
    assert forall j :: 0 <= j < |rest| ==> rest[j] == nodes[j + 1];
  }

  lemma {:induction false} OnlyFirst(nodes: seq<Node>, key: string, lowered: bool, i: int, j: int)
    requires FirstNamed(nodes, key, lowered, i) && FirstNamed(nodes, key, lowered, j)
    ensures i == j
  {
  }

  lemma {:induction false} PageMeaning(nodes: seq<Node>, key: string, id: int)
    ensures Page(nodes, key) == Some(id) <==> PageIs(nodes, key, id)
  {
    LookupNamed(nodes, key, false);
    LookupNamed(nodes, key, true);
    var found := Lookup(TitleRows(nodes, false), key);
    if found.Some? {
      var i :| FirstNamed(nodes, key, false, i) && found == Some(nodes[i].id);
      if PageIs(nodes, key, id) {
        var j :| FirstNamed(nodes, key, false, j) && nodes[j].id == Some(id);
        OnlyFirst(nodes, key, false, i, j);
      }
    } else {
      assert forall i :: !FirstNamed(nodes, key, false, i);
      LoweredPage(nodes, key, id);
    }
  }

  lemma {:induction false} LoweredPage(nodes: seq<Node>, key: string, id: int)
    ensures Lookup(TitleRows(nodes, true), key) == Some(Some(id))
            <==> exists i :: FirstNamed(nodes, key, true, i) && nodes[i].id == Some(id)
  {
    LookupNamed(nodes, key, true);
    var found := Lookup(TitleRows(nodes, true), key);
    if found.Some? {
      var i :| FirstNamed(nodes, key, true, i) && found == Some(nodes[i].id);
      forall j | FirstNamed(nodes, key, true, j)
        ensures j == i
      {
        OnlyFirst(nodes, key, true, i, j);
      }
    }
  }

  lemma {:induction false} EndpointMeaning(nodes: seq<Node>, num: string -> Option<int>, text: string, id: int)
    ensures Endpoint(nodes, num, text) == Some(id) <==> StandsFor(nodes, num, text, id)
  {
    var key := Underscores(text);
    UnderscoresIs(text, key);
    PageMeaning(nodes, key, id);
    forall other | IsKey(text, other)
      ensures other == key
    {
      UnderscoresIs(text, other);
    }
  }

  lemma {:induction false} InResolveChunk(tm: seq<TitleRow>, num: string -> Option<int>, edges: seq<RawEdge>, e: Edge)
    ensures e in ResolveChunk(tm, num, edges) <==> exists r :: r in edges && e in ResolveOne(tm, num, r)
    decreases |edges|
  {
    if edges != [] {
      InResolveChunk(tm, num, edges[1..], e);
      ResolveFirst(tm, num, edges);
      assert forall r :: r in edges <==> r == edges[0] || r in edges[1..];
    }
  }

  /** The raw edge stands for this edge. */
  ghost predicate Stands(nodes: seq<Node>, num: string -> Option<int>, r: RawEdge, e: Edge) {
    && StandsFor(nodes, num, r.source, e.source) && StandsFor(nodes, num, r.target, e.target)
    && e.source > 0 && e.target > 0 && e.source != e.target
  }

  lemma {:induction false} ResolveOneIff(nodes: seq<Node>, num: string -> Option<int>, r: RawEdge, e: Edge)
    ensures e in ResolveOne(TitleMap(nodes), num, r) <==> Stands(nodes, num, r, e)
  {
    EdgeResolvesTo(nodes, num, r);
    EndpointMeaning(nodes, num, r.source, e.source);
    EndpointMeaning(nodes, num, r.target, e.target);
  }

  /** An edge is kept if and only if some raw edge stands for it and neither endpoint is a redirect page. */
  lemma {:induction false} KeptIff(nodes: seq<Node>, num: string -> Option<int>, edges: seq<RawEdge>, e: Edge)
    ensures e in Kept(TitleMap(nodes), num, Redirects(nodes), edges)
            <==> (exists r :: r in edges && Stands(nodes, num, r, e))
                 && !IsRedirect(nodes, e.source) && !IsRedirect(nodes, e.target)
  {
    DroppedEdges(Redirects(nodes), ResolveChunk(TitleMap(nodes), num, edges), e);
    InResolveChunk(TitleMap(nodes), num, edges, e);
    forall r | r in edges
      ensures e in ResolveOne(TitleMap(nodes), num, r) <==> Stands(nodes, num, r, e)
    {
      ResolveOneIff(nodes, num, r, e);
    }
  }
}
