/** Section ids of the three-tier pipeline (`stage_tier`): real sections sorted by
    (page, start byte), then one synthetic whole-page section per header-less page. */
module Sections {
  import opened Strings
  import opened Sorting

  datatype Article = Article(id: nat, pageId: string)

  datatype Parsed = Parsed(pageId: string, title: string, level: int, start: int, end: int)

  datatype Section = Section(pageId: string, title: string, level: int, start: int, end: int, articleId: nat)

  // ---- the joins ------------------------------------------------------------------

  function OnArticles(p: Parsed, articles: seq<Article>): seq<Section> {
    if articles == [] then []
    else
      (if articles[0].pageId == p.pageId
       then [Section(p.pageId, p.title, p.level, p.start, p.end, articles[0].id)] else [])
      + OnArticles(p, articles[1..])
  }

  /** Parsed sections joined to their articles by page. */
  function Join(parsed: seq<Parsed>, articles: seq<Article>): seq<Section> {
    if parsed == [] then [] else OnArticles(parsed[0], articles) + Join(parsed[1..], articles)
  }

  function Synthetic(a: Article): Section {
    Section(a.pageId, "", 0, 0, -1, a.id)
  }

  /** Articles whose page has no joined section (anti join). */
  function Headerless(articles: seq<Article>, pages: set<string>): seq<Section> {
    if articles == [] then []
    else (if articles[0].pageId in pages then [] else [Synthetic(articles[0])]) + Headerless(articles[1..], pages)
  }

  function Pages(sections: seq<Section>): set<string> {
    set s | s in sections :: s.pageId
  }

  // ---- the ordering -----------------------------------------------------------------

  predicate ByPageAndStart(a: Section, b: Section) {
    Less(a.pageId, b.pageId) || (a.pageId == b.pageId && a.start <= b.start)
  }

  predicate ByPage(a: Section, b: Section) {
    a.pageId == b.pageId || Less(a.pageId, b.pageId)
  }

  lemma {:induction false} OrdersAreTotal()
    ensures TotalPreorder(ByPageAndStart) && TotalPreorder(ByPage)
  {
    forall a: Section, b: Section
      ensures ByPageAndStart(a, b) || ByPageAndStart(b, a)
      ensures ByPage(a, b) || ByPage(b, a)
    {
      LessTotal(a.pageId, b.pageId);
    }
    forall a: Section, b: Section, c: Section
      ensures ByPageAndStart(a, b) && ByPageAndStart(b, c) ==> ByPageAndStart(a, c)
      ensures ByPage(a, b) && ByPage(b, c) ==> ByPage(a, c)
    {
      if Less(a.pageId, b.pageId) && Less(b.pageId, c.pageId) { LessTransitive(a.pageId, b.pageId, c.pageId); }
    }
  }

  lemma {:induction false} OrdersTieOnKeys(a: Section, b: Section)
    ensures ByPageAndStart(a, b) && ByPageAndStart(b, a) <==> a.pageId == b.pageId && a.start == b.start
    ensures ByPage(a, b) && ByPage(b, a) <==> a.pageId == b.pageId
  {
    LessIrreflexive(a.pageId);
    if Less(a.pageId, b.pageId) && Less(b.pageId, a.pageId) { LessTransitive(a.pageId, b.pageId, a.pageId); }
  }

  /** Neither the joins nor the sorts promise an order beyond the sort keys, so a section table is
      any one that these stages may produce; a section's id is its position. */
  ghost predicate SectionTable(parsed: seq<Parsed>, articles: seq<Article>, out: seq<Section>, n: nat) {
    && n <= |out|
    && multiset(out[..n]) == multiset(Join(parsed, articles))
    && Sorted(ByPageAndStart, out[..n])
    && multiset(out[n..]) == multiset(Headerless(articles, Pages(Join(parsed, articles))))
    && Sorted(ByPage, out[n..])
  }

  /** The table the stage builds when its joins keep their order and its sorts are stable. */
  function BuildSections(parsed: seq<Parsed>, articles: seq<Article>): seq<Section> {
    Sort(ByPageAndStart, Join(parsed, articles))
    + Sort(ByPage, Headerless(articles, Pages(Join(parsed, articles))))
  }

  lemma {:induction false} BuildIsSectionTable(parsed: seq<Parsed>, articles: seq<Article>)
    ensures SectionTable(parsed, articles, BuildSections(parsed, articles), |Join(parsed, articles)|)
  {
    var join := Join(parsed, articles);
    var rest := Headerless(articles, Pages(join));
    OrdersAreTotal();
    SortSorted(ByPageAndStart, join);
    SortElements(ByPageAndStart, join);
    SortSorted(ByPage, rest);
    SortElements(ByPage, rest);
    var out := BuildSections(parsed, articles);
    assert out[..|join|] == Sort(ByPageAndStart, join) && out[|join|..] == Sort(ByPage, rest);
  }

  // ---- ids are stable exactly when keys identify rows --------------------------------------

  lemma {:induction false} JoinAppend(a: seq<Parsed>, b: seq<Parsed>, articles: seq<Article>)
    ensures Join(a + b, articles) == Join(a, articles) + Join(b, articles)
  {
    if a == [] {
      assert a + b == b;
    } else {
      assert (a + b)[0] == a[0] && (a + b)[1..] == a[1..] + b;
      JoinAppend(a[1..], b, articles);
    }
  }

  /** Permuting the parsed rows permutes the join. */
  lemma {:induction false} JoinOfPermutation(a: seq<Parsed>, b: seq<Parsed>, articles: seq<Article>)
    requires multiset(a) == multiset(b)
    ensures multiset(Join(a, articles)) == multiset(Join(b, articles))
    ensures Pages(Join(a, articles)) == Pages(Join(b, articles))
    decreases |a|
  {
    if a == [] {
      assert |multiset(b)| == 0;
    } else {
      var k := TakeOut(a, b);
      JoinOfPermutation(a[1..], b[..k] + b[k + 1..], articles);
      JoinAppend(b[..k], b[k + 1..], articles);
      JoinAppend(b[..k], [b[k]] + b[k + 1..], articles);
      assert ([b[k]] + b[k + 1..])[1..] == b[k + 1..];
    }
    SamePages(Join(a, articles), Join(b, articles));
  }

  lemma {:induction false} SamePages(a: seq<Section>, b: seq<Section>)
    requires multiset(a) == multiset(b)
    ensures Pages(a) == Pages(b)
  {
    assert forall s :: s in a <==> s in multiset(a);
    assert forall s :: s in b <==> s in multiset(b);
  }

  /** Rows that tie in the sort are the same row. */
  ghost predicate KeysIdentify(rows: seq<Section>, leq: (Section, Section) -> bool) {
    forall x, y :: x in rows && y in rows && leq(x, y) && leq(y, x) ==> x == y
  }

  lemma {:induction false} SortedOfSameRows(a: seq<Section>, b: seq<Section>, rows: seq<Section>,
                                            leq: (Section, Section) -> bool)
    requires TotalPreorder(leq) && KeysIdentify(rows, leq)
    requires Sorted(leq, a) && Sorted(leq, b) && multiset(a) == multiset(b) == multiset(rows)
    ensures a == b
  {
    forall i | 0 <= i < |a|
      ensures a[i] in rows
    {
      assert a[i] in multiset(a);
    }
    SortedUnique(leq, a, b);
  }

  /** Swapping two tied but different rows keeps the table sorted and changes it. */
  lemma {:induction false} SwapTied(a: seq<Section>, leq: (Section, Section) -> bool, i: nat, j: nat)
    returns (b: seq<Section>)
    requires TotalPreorder(leq) && Sorted(leq, a)
    requires i < j < |a| && a[i] != a[j] && leq(a[i], a[j]) && leq(a[j], a[i])
    ensures b != a && |b| == |a| && Sorted(leq, b) && multiset(b) == multiset(a)
  {
    b := a[i := a[j]][j := a[i]];
    assert b[i] != a[i];
    forall p, q | 0 <= p < q < |b|
      ensures leq(b[p], b[q])
    {
      assert leq(a[p], a[q]) && leq(b[p], a[p]) && leq(a[q], b[q]);
      assert leq(b[p], a[q]);
    }
  }

  /** Section ids do not depend on the order of the parsed rows if the sort keys identify the
      joined rows and the header-less articles. */
  lemma {:induction false} StableIds(parsed: seq<Parsed>, again: seq<Parsed>, articles: seq<Article>,
                                     out: seq<Section>, out': seq<Section>, n: nat, n': nat)
    requires multiset(parsed) == multiset(again)
    requires KeysIdentify(Join(parsed, articles), ByPageAndStart)
    requires KeysIdentify(Headerless(articles, Pages(Join(parsed, articles))), ByPage)
    requires SectionTable(parsed, articles, out, n) && SectionTable(again, articles, out', n')
    ensures out == out' && n == n'
  {
    var join := Join(parsed, articles);
    var rest := Headerless(articles, Pages(join));
    var a, b, c, d := out[..n], out'[..n'], out[n..], out'[n'..];
    assert multiset(b) == multiset(join) && multiset(d) == multiset(rest) by {
      JoinOfPermutation(parsed, again, articles);
    }
    SameHalf(a, b, join, ByPageAndStart);
    SameHalf(c, d, rest, ByPage);
    Rejoined(out, out', n, n');
  }

  lemma {:induction false} Rejoined(a: seq<Section>, b: seq<Section>, n: nat, m: nat)
    requires n <= |a| && m <= |b| && a[..n] == b[..m] && a[n..] == b[m..]
    ensures a == b && n == m
  {
    assert |a[..n]| == |b[..m]|;
    assert a == a[..n] + a[n..] && b == b[..m] + b[m..];
  }

  lemma {:induction false} SameHalf(a: seq<Section>, b: seq<Section>, rows: seq<Section>,
                                    leq: (Section, Section) -> bool)
    requires leq == ByPageAndStart || leq == ByPage
    requires KeysIdentify(rows, leq) && Sorted(leq, a) && Sorted(leq, b)
    requires multiset(a) == multiset(rows) && multiset(b) == multiset(rows)
    ensures a == b && |a| == |b|
  {
    OrdersAreTotal();
    SortedOfSameRows(a, b, rows, leq);
  }

  /** Rows that tie without being the same give two tables, be it joined rows with the same page and start byte or
      header-less articles with the same page; a rerun may then change ids. */
  lemma {:induction false} UnstableIds(parsed: seq<Parsed>, articles: seq<Article>, out: seq<Section>, n: nat)
    returns (out': seq<Section>)
    requires SectionTable(parsed, articles, out, n)
    requires || !KeysIdentify(Join(parsed, articles), ByPageAndStart)
             || !KeysIdentify(Headerless(articles, Pages(Join(parsed, articles))), ByPage)
    ensures out' != out && SectionTable(parsed, articles, out', n)
  {
    if !KeysIdentify(Join(parsed, articles), ByPageAndStart) {
      out' := OtherReal(parsed, articles, out, n);
    } else {
      out' := OtherSynthetic(parsed, articles, out, n);
    }
  }

  lemma {:induction false} OtherReal(parsed: seq<Parsed>, articles: seq<Article>, out: seq<Section>, n: nat)
    returns (out': seq<Section>)
    requires SectionTable(parsed, articles, out, n) && !KeysIdentify(Join(parsed, articles), ByPageAndStart)
    ensures out' != out && SectionTable(parsed, articles, out', n)
  {
    var a := TieMakesAnother(out[..n], Join(parsed, articles), ByPageAndStart);
    out' := TableOf(parsed, articles, out, n, a, out[n..]);
  }

  lemma {:induction false} OtherSynthetic(parsed: seq<Parsed>, articles: seq<Article>, out: seq<Section>, n: nat)
    returns (out': seq<Section>)
    requires SectionTable(parsed, articles, out, n)
    requires !KeysIdentify(Headerless(articles, Pages(Join(parsed, articles))), ByPage)
    ensures out' != out && SectionTable(parsed, articles, out', n)
  {
    var c := TieMakesAnother(out[n..], Headerless(articles, Pages(Join(parsed, articles))), ByPage);
    out' := TableOf(parsed, articles, out, n, out[..n], c);
  }

  /** Another sorting of either half makes another table. */
  lemma {:induction false} TableOf(parsed: seq<Parsed>, articles: seq<Article>, out: seq<Section>, n: nat,
                                   a: seq<Section>, c: seq<Section>) returns (out': seq<Section>)
    requires SectionTable(parsed, articles, out, n) && |a| == n && (a != out[..n] || c != out[n..])
    requires Sorted(ByPageAndStart, a) && multiset(a) == multiset(out[..n])
    requires Sorted(ByPage, c) && multiset(c) == multiset(out[n..])
    ensures out' != out && SectionTable(parsed, articles, out', n)
  {
    out' := a + c;
    assert out'[..n] == a && out'[n..] == c;
  }

  lemma {:induction false} TieMakesAnother(a: seq<Section>, rows: seq<Section>, leq: (Section, Section) -> bool)
    returns (b: seq<Section>)
    requires leq == ByPageAndStart || leq == ByPage
    requires Sorted(leq, a) && multiset(a) == multiset(rows) && !KeysIdentify(rows, leq)
    ensures b != a && |b| == |a| && Sorted(leq, b) && multiset(b) == multiset(a)
  {
    OrdersAreTotal();
    var x, y :| x in rows && y in rows && leq(x, y) && leq(y, x) && x != y;
    assert x in multiset(a) && y in multiset(a);
    var i :| 0 <= i < |a| && a[i] == x;
    var j :| 0 <= j < |a| && a[j] == y;
    b := SwapTied(a, leq, if i < j then i else j, if i < j then j else i);
  }

  /** Whatever the order of the parsed rows, the stage can only produce one table. */
  ghost predicate OneTable(parsed: seq<Parsed>, articles: seq<Article>) {
    forall again, out, out', n, n' ::
      (&& multiset(parsed) == multiset(again)
       && SectionTable(parsed, articles, out, n)
       && SectionTable(again, articles, out', n')) ==> out == out' && n == n'
  }

  /** Section ids are the same in every rerun exactly when the sort keys identify both the joined rows and the
      header-less articles. */
  lemma {:induction false} StableIdsIff(parsed: seq<Parsed>, articles: seq<Article>)
    ensures OneTable(parsed, articles)
            <==> KeysIdentify(Join(parsed, articles), ByPageAndStart)
                 && KeysIdentify(Headerless(articles, Pages(Join(parsed, articles))), ByPage)
  {
    var join := Join(parsed, articles);
    if KeysIdentify(join, ByPageAndStart) && KeysIdentify(Headerless(articles, Pages(join)), ByPage) {
      forall again, out, out', n, n' |
        multiset(parsed) == multiset(again) && SectionTable(parsed, articles, out, n)
        && SectionTable(again, articles, out', n')
        ensures out == out' && n == n'
      {
        StableIds(parsed, again, articles, out, out', n, n');
      }
    } else {
      var out := BuildSections(parsed, articles);
      BuildIsSectionTable(parsed, articles);
      var out' := UnstableIds(parsed, articles, out, |join|);
    }
  }

  /** Unique page ids and unique (page, start byte) pairs are enough. */
  lemma {:induction false} UniqueKeysIdentify(parsed: seq<Parsed>, articles: seq<Article>)
    requires forall i, j :: 0 <= i < j < |articles| ==> articles[i].pageId != articles[j].pageId
    requires forall i, j :: 0 <= i < j < |parsed| ==>
               parsed[i].pageId != parsed[j].pageId || parsed[i].start != parsed[j].start
    ensures KeysIdentify(Join(parsed, articles), ByPageAndStart)
    ensures KeysIdentify(Headerless(articles, Pages(Join(parsed, articles))), ByPage)
  {
    var join := Join(parsed, articles);
    forall x, y | x in join && y in join && ByPageAndStart(x, y) && ByPageAndStart(y, x)
      ensures x == y
    {
      OrdersTieOnKeys(x, y);
      var i, a := JoinOrigin(parsed, articles, x);
      var j, b := JoinOrigin(parsed, articles, y);
      assert i == j && a == b;
    }
    var pages := Pages(Join(parsed, articles));
    forall x, y | x in Headerless(articles, pages) && y in Headerless(articles, pages) && ByPage(x, y) && ByPage(y, x)
      ensures x == y
    {
      OrdersTieOnKeys(x, y);
      var a := HeaderlessOrigin(articles, pages, x);
      var b := HeaderlessOrigin(articles, pages, y);
      assert a == b;
    }
  }

  lemma {:induction false} OnArticlesOrigin(p: Parsed, articles: seq<Article>, x: Section) returns (a: nat)
    requires x in OnArticles(p, articles)
    ensures a < |articles| && articles[a].pageId == p.pageId
    ensures x == Section(p.pageId, p.title, p.level, p.start, p.end, articles[a].id)
  {
    var row := Section(p.pageId, p.title, p.level, p.start, p.end, articles[0].id);
    if articles[0].pageId == p.pageId && x == row {
      a := 0;
    } else {
      a := OnArticlesOrigin(p, articles[1..], x);
      a := a + 1;
    }
  }

  lemma {:induction false} JoinOrigin(parsed: seq<Parsed>, articles: seq<Article>, x: Section) returns (i: nat, a: nat)
    requires x in Join(parsed, articles)
    ensures i < |parsed| && a < |articles| && articles[a].pageId == parsed[i].pageId
    ensures var p := parsed[i]; x == Section(p.pageId, p.title, p.level, p.start, p.end, articles[a].id)
  {
    if x in OnArticles(parsed[0], articles) {
      i := 0;
      a := OnArticlesOrigin(parsed[0], articles, x);
    } else {
      i, a := JoinOrigin(parsed[1..], articles, x);
      i := i + 1;
    }
  }

  lemma {:induction false} HeaderlessOrigin(articles: seq<Article>, pages: set<string>, x: Section) returns (a: nat)
    requires x in Headerless(articles, pages)
    ensures a < |articles| && articles[a].pageId !in pages && x == Synthetic(articles[a])
  {
    if articles[0].pageId !in pages && x == Synthetic(articles[0]) {
      a := 0;
    } else {
      a := HeaderlessOrigin(articles[1..], pages, x);
      a := a + 1;
    }
  }

  // ---- every article has sections of one kind --------------------------------------------------

  /** How many rows belong to an article. */
  function Owned(rows: seq<Section>, id: nat): nat {
    if rows == [] then 0 else (if rows[0].articleId == id then 1 else 0) + Owned(rows[1..], id)
  }

  lemma {:induction false} OwnedAppend(a: seq<Section>, b: seq<Section>, id: nat)
    ensures Owned(a + b, id) == Owned(a, id) + Owned(b, id)
  {
    if a == [] {
      assert a + b == b;
    } else {
      assert (a + b)[0] == a[0] && (a + b)[1..] == a[1..] + b;
      OwnedAppend(a[1..], b, id);
    }
  }

  lemma {:induction false} OwnedOfPermutation(a: seq<Section>, b: seq<Section>, id: nat)
    requires multiset(a) == multiset(b)
    ensures Owned(a, id) == Owned(b, id)
    decreases |a|
  {
    if a == [] {
      assert |multiset(b)| == 0;
    } else {
      var k := TakeOut(a, b);
      OwnedOfPermutation(a[1..], b[..k] + b[k + 1..], id);
      OwnedAppend(b[..k], b[k + 1..], id);
      OwnedAppend(b[..k], [b[k]] + b[k + 1..], id);
      assert ([b[k]] + b[k + 1..])[1..] == b[k + 1..];
    }
  }

  /** Article ids are row numbers. */
  ghost predicate Numbered(articles: seq<Article>, base: nat) {
    forall i :: 0 <= i < |articles| ==> articles[i].id == base + i
  }

  lemma {:induction false} HeaderlessOwned(articles: seq<Article>, pages: set<string>, base: nat, id: nat)
    requires Numbered(articles, base)
    ensures Owned(Headerless(articles, pages), id)
         == if base <= id < base + |articles| && articles[id - base].pageId !in pages then 1 else 0
  {
    if articles != [] {
      assert Numbered(articles[1..], base + 1) by {
        assert forall i :: 0 <= i < |articles| - 1 ==> articles[1..][i] == articles[i + 1];
      }
      HeaderlessOwned(articles[1..], pages, base + 1, id);
      var first := if articles[0].pageId in pages then [] else [Synthetic(articles[0])];
      OwnedAppend(first, Headerless(articles[1..], pages), id);
    }
  }

  lemma {:induction false} OnArticlesOwned(p: Parsed, articles: seq<Article>, base: nat, id: nat)
    requires Numbered(articles, base)
    ensures Owned(OnArticles(p, articles), id)
         == if base <= id < base + |articles| && articles[id - base].pageId == p.pageId then 1 else 0
  {
    if articles != [] {
      assert Numbered(articles[1..], base + 1) by {
        assert forall i :: 0 <= i < |articles| - 1 ==> articles[1..][i] == articles[i + 1];
      }
      OnArticlesOwned(p, articles[1..], base + 1, id);
      var row := Section(p.pageId, p.title, p.level, p.start, p.end, articles[0].id);
      OwnedAppend(if articles[0].pageId == p.pageId then [row] else [], OnArticles(p, articles[1..]), id);
    }
  }

  /** How many parsed sections a page has. */
  function OnPage(parsed: seq<Parsed>, page: string): nat {
    if parsed == [] then 0 else (if parsed[0].pageId == page then 1 else 0) + OnPage(parsed[1..], page)
  }

  lemma {:induction false} JoinOwned(parsed: seq<Parsed>, articles: seq<Article>, id: nat)
    requires Numbered(articles, 0) && id < |articles|
    ensures Owned(Join(parsed, articles), id) == OnPage(parsed, articles[id].pageId)
  {
    if parsed != [] {
      OnArticlesOwned(parsed[0], articles, 0, id);
      JoinOwned(parsed[1..], articles, id);
      OwnedAppend(OnArticles(parsed[0], articles), Join(parsed[1..], articles), id);
    }
  }

  lemma {:induction false} OwnedPage(rows: seq<Section>, id: nat)
    ensures Owned(rows, id) > 0 <==> exists x :: x in rows && x.articleId == id
  {
    if rows != [] {
      OwnedPage(rows[1..], id);
      assert rows[0] in rows && forall x :: x in rows[1..] ==> x in rows;
      assert forall x :: x in rows ==> x == rows[0] || x in rows[1..];
    }
  }

  lemma {:induction false} PageJoinedIff(parsed: seq<Parsed>, articles: seq<Article>, id: nat)
    requires Numbered(articles, 0) && id < |articles|
    ensures articles[id].pageId in Pages(Join(parsed, articles)) <==> OnPage(parsed, articles[id].pageId) > 0
  {
    var join, page := Join(parsed, articles), articles[id].pageId;
    JoinOwned(parsed, articles, id);
    OwnedPage(join, id);
    if page in Pages(join) {
      var x :| x in join && x.pageId == page;
      var i, a := JoinOrigin(parsed, articles, x);
      OnPageOf(parsed, i);
    }
    if OnPage(parsed, page) > 0 {
      var x :| x in join && x.articleId == id;
      var i, a := JoinOrigin(parsed, articles, x);
      assert a == id;
    }
  }

  lemma {:induction false} OnPageOf(parsed: seq<Parsed>, i: nat)
    requires i < |parsed|
    ensures OnPage(parsed, parsed[i].pageId) > 0
  {
    if i > 0 { OnPageOf(parsed[1..], i - 1); }
  }

  /** In every section table, an article owns exactly its page's parsed sections and no synthetic
      one, or, when its page has none, exactly one synthetic section. */
  lemma {:induction false} RealOrOneSynthetic(parsed: seq<Parsed>, articles: seq<Article>, out: seq<Section>, n: nat,
                                              id: nat)
    requires SectionTable(parsed, articles, out, n) && Numbered(articles, 0) && id < |articles|
    ensures Owned(out[..n], id) == OnPage(parsed, articles[id].pageId)
    ensures Owned(out[n..], id) == if OnPage(parsed, articles[id].pageId) > 0 then 0 else 1
  {
    var join := Join(parsed, articles);
    OwnedOfPermutation(out[..n], join, id);
    JoinOwned(parsed, articles, id);
    PageJoinedIff(parsed, articles, id);
    OwnedOfPermutation(out[n..], Headerless(articles, Pages(join)), id);
    HeaderlessOwned(articles, Pages(join), 0, id);
  }

  // ---- what a section table holds -----------------------------------------------------------------

  ghost predicate RealRow(x: Section, parsed: seq<Parsed>, articles: seq<Article>) {
    exists p, a :: p in parsed && a in articles && p.pageId == a.pageId
                   && x == Section(p.pageId, p.title, p.level, p.start, p.end, a.id)
  }

  ghost predicate SyntheticRow(x: Section, parsed: seq<Parsed>, articles: seq<Article>) {
    && (x.title == "" && x.level == 0 && x.start == 0 && x.end == -1)
    && (exists a :: a in articles && x.pageId == a.pageId && x.articleId == a.id)
    && (forall p :: p in parsed ==> p.pageId != x.pageId)
  }

  lemma {:induction false} JoinHas(parsed: seq<Parsed>, articles: seq<Article>, p: Parsed, a: Article)
    requires p in parsed && a in articles && p.pageId == a.pageId
    ensures p.pageId in Pages(Join(parsed, articles))
  {
    var x := Section(p.pageId, p.title, p.level, p.start, p.end, a.id);
    assert x in Join(parsed, articles) by { JoinHasRow(parsed, articles, p, a); }
    assert x.pageId in Pages(Join(parsed, articles));
  }

  lemma {:induction false} JoinHasRow(parsed: seq<Parsed>, articles: seq<Article>, p: Parsed, a: Article)
    requires p in parsed && a in articles && p.pageId == a.pageId
    ensures Section(p.pageId, p.title, p.level, p.start, p.end, a.id) in Join(parsed, articles)
  {
    if parsed[0] == p {
      OnArticlesHas(p, articles, a);
    } else {
      assert p in parsed[1..];
      JoinHasRow(parsed[1..], articles, p, a);
    }
  }

  lemma {:induction false} OnArticlesHas(p: Parsed, articles: seq<Article>, a: Article)
    requires a in articles && p.pageId == a.pageId
    ensures Section(p.pageId, p.title, p.level, p.start, p.end, a.id) in OnArticles(p, articles)
  {
    if articles[0] != a {
      assert a in articles[1..];
      OnArticlesHas(p, articles[1..], a);
    }
  }

  /** A section table first lists parsed sections with their articles, and then whole-page sections of
      pages that have no parsed one. */
  lemma {:induction false} TableHolds(parsed: seq<Parsed>, articles: seq<Article>, out: seq<Section>, n: nat)
    requires SectionTable(parsed, articles, out, n)
    ensures forall x :: x in out[..n] ==> RealRow(x, parsed, articles)
    ensures forall x :: x in out[n..] ==> SyntheticRow(x, parsed, articles)
  {
    forall x | x in out[..n]
      ensures RealRow(x, parsed, articles)
    {
      assert x in multiset(out[..n]);
      var k, a := JoinOrigin(parsed, articles, x);
      assert parsed[k] in parsed && articles[a] in articles;
    }
    forall x | x in out[n..]
      ensures SyntheticRow(x, parsed, articles)
    {
      assert x in multiset(out[n..]);
      SyntheticOf(parsed, articles, x);
    }
  }

  /** Its pages rise in both halves, and the start bytes of a page rise in the first. */
  lemma {:induction false} TableRises(parsed: seq<Parsed>, articles: seq<Article>, out: seq<Section>, n: nat,
                                      i: nat, j: nat)
    requires SectionTable(parsed, articles, out, n)
    requires i < j < n || n <= i < j < |out|
    ensures Less(out[i].pageId, out[j].pageId) || out[i].pageId == out[j].pageId
    ensures j < n && out[i].pageId == out[j].pageId ==> out[i].start <= out[j].start
  {
    if j < n {
      assert out[..n][i] == out[i] && out[..n][j] == out[j];
      assert ByPageAndStart(out[i], out[j]);
      LessIrreflexive(out[i].pageId);
    } else {
      assert out[n..][i - n] == out[i] && out[n..][j - n] == out[j];
      assert ByPage(out[i], out[j]);
    }
  }

  lemma {:induction false} SyntheticOf(parsed: seq<Parsed>, articles: seq<Article>, x: Section)
    requires x in Headerless(articles, Pages(Join(parsed, articles)))
    ensures SyntheticRow(x, parsed, articles)
  {
    var a := HeaderlessOrigin(articles, Pages(Join(parsed, articles)), x);
    assert articles[a] in articles;
    forall p | p in parsed
      ensures p.pageId != x.pageId
    {
      if p.pageId == x.pageId { JoinHas(parsed, articles, p, articles[a]); }
    }
  }
}
