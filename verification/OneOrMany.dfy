/** One value or a parenthesised list of them: the slice it dereferences to, the owned double-ended iterator
    over it, and how lists are printed with separators. */
module OneOrMany {
  import opened Seqs

  datatype OneOrManyWithParens<T> = One(value: T) | Many(values: seq<T>) {
    function Slice(): seq<T> {
      match this case One(v) => [v] case Many(vs) => vs
    }
  }

  // ---- walking a sequence from both ends ------------------------------------------------------------------

  datatype End = Front | Back

  /** What a call at one end takes. */
  function Taken<T>(s: seq<T>, e: End): Option<T> {
    if s == [] then None else Some(if e == Front then s[0] else s[|s| - 1])
  }

  function Rest<T>(s: seq<T>, e: End): seq<T> {
    if s == [] then [] else if e == Front then s[1..] else s[..|s| - 1]
  }

  function Walk<T>(s: seq<T>, calls: seq<End>): seq<Option<T>> {
    if calls == [] then [] else [Taken(s, calls[0])] + Walk(Rest(s, calls[0]), calls[1..])
  }

  function After<T>(s: seq<T>, calls: seq<End>): seq<T>
    decreases |calls|
  {
    if calls == [] then s else After(Rest(s, calls[0]), calls[1..])
  }

  function Fronts(calls: seq<End>): nat {
    if calls == [] then 0 else (if calls[0] == Front then 1 else 0) + Fronts(calls[1..])
  }

  lemma {:induction false} FrontsBound(calls: seq<End>)
    ensures Fronts(calls) <= |calls|
    decreases |calls|
  {
    if calls != [] { FrontsBound(calls[1..]); }
  }

  /** Any interleaving leaves the middle: the calls at the front and the calls at the back each remove one
      element, and nothing is left once there were as many calls as elements. */
  lemma {:induction false} WalkLeavesMiddle<T>(s: seq<T>, calls: seq<End>)
    ensures Fronts(calls) <= |calls|
    ensures |calls| <= |s| ==> After(s, calls) == s[Fronts(calls)..|s| - (|calls| - Fronts(calls))]
    ensures |calls| >= |s| ==> After(s, calls) == []
    decreases |calls|
  {
    FrontsBound(calls);
    if calls != [] {
      WalkLeavesMiddle(Rest(s, calls[0]), calls[1..]);
    }
  }

  lemma {:induction false} WalkLength<T>(s: seq<T>, calls: seq<End>)
    ensures |Walk(s, calls)| == |calls|
    decreases |calls|
  {
    if calls != [] { WalkLength(Rest(s, calls[0]), calls[1..]); }
  }

  lemma {:induction false} WalkAt<T>(s: seq<T>, calls: seq<End>, i: nat)
    requires i < |calls|
    ensures |Walk(s, calls)| == |calls|
    ensures Walk(s, calls)[i] == Taken(After(s, calls[..i]), calls[i])
    decreases |calls|
  {
    WalkLength(s, calls);
    if i > 0 {
      WalkAt(Rest(s, calls[0]), calls[1..], i - 1);
      assert calls[1..][..i - 1] == calls[..i][1..];
    }
  }

  /** The i-th call yields the next unseen element of its end while elements are left, and nothing from then
      on. */
  lemma {:induction false} CallYields<T>(s: seq<T>, calls: seq<End>, i: nat)
    requires i < |calls|
    ensures |Walk(s, calls)| == |calls| && Fronts(calls[..i]) <= i
    ensures i >= |s| ==> Walk(s, calls)[i] == None
    ensures i < |s| ==>
      Walk(s, calls)[i]
        == Some(if calls[i] == Front then s[Fronts(calls[..i])] else s[|s| - 1 - (i - Fronts(calls[..i]))])
  {
    WalkAt(s, calls, i);
    WalkLeavesMiddle(s, calls[..i]);
  }

  function Somes<T>(s: seq<Option<T>>): seq<T> {
    if s == [] then [] else (if s[0].Some? then [s[0].value] else []) + Somes(s[1..])
  }

  /** Nothing is lost or yielded twice. */
  lemma {:induction false} WalkConserves<T>(s: seq<T>, calls: seq<End>)
    ensures multiset(Somes(Walk(s, calls))) + multiset(After(s, calls)) == multiset(s)
    decreases |calls|
  {
    if calls != [] {
      var rest := Rest(s, calls[0]);
      WalkConserves(rest, calls[1..]);
      TakenConserves(s, calls[0]);
      SomesCons(Taken(s, calls[0]), Walk(rest, calls[1..]));
    }
  }

  lemma {:induction false} SomesCons<T>(x: Option<T>, s: seq<Option<T>>)
    ensures Somes([x] + s) == (if x.Some? then [x.value] else []) + Somes(s)
  {
    assert ([x] + s)[1..] == s;
  }

  lemma {:induction false} TakenConserves<T>(s: seq<T>, e: End)
    ensures multiset(if Taken(s, e).Some? then [Taken(s, e).value] else []) + multiset(Rest(s, e)) == multiset(s)
  {
    if s != [] {
      assert s == if e == Front then [s[0]] + s[1..] else s[..|s| - 1] + [s[|s| - 1]];
    }
  }

  // ---- the owned iterator ------------------------------------------------------------------------------------

  /** A single pending value, or the part of a buffer not yet moved out. */
  datatype Inner<T> = Once(item: Option<T>) | Buffer(buf: seq<T>, lo: nat, hi: nat)

  function FoldLeft<B, T>(f: (B, T) -> B, init: B, s: seq<T>): B {
    if s == [] then init else FoldLeft(f, f(init, s[0]), s[1..])
  }

  lemma {:induction false} FoldLeftSnoc<B, T>(f: (B, T) -> B, init: B, s: seq<T>, x: T)
    ensures FoldLeft(f, init, s + [x]) == f(FoldLeft(f, init, s), x)
    decreases |s|
  {
    if s == [] {
      assert [] + [x] == [x] && [x][1..] == [];
    } else {
      assert (s + [x])[1..] == s[1..] + [x];
      FoldLeftSnoc(f, f(init, s[0]), s[1..], x);
    }
  }

  class IntoIter<T> {
    var inner: Inner<T>

    ghost predicate Valid()
      reads this
    {
      inner.Buffer? ==> inner.lo <= inner.hi <= |inner.buf|
    }

    ghost function Remaining(): seq<T>
      requires Valid()
      reads this
    {
      match inner
      case Once(item) => if item.Some? then [item.value] else []
      case Buffer(buf, lo, hi) => buf[lo..hi]
    }

    constructor (x: OneOrManyWithParens<T>)
      ensures Valid() && Remaining() == x.Slice()
    {
      inner := match x case One(v) => Once(Some(v)) case Many(vs) => Buffer(vs, 0, |vs|);
    }

    method Next() returns (r: Option<T>)
      requires Valid()
      modifies this
      ensures Valid() && r == Taken(old(Remaining()), Front) && Remaining() == Rest(old(Remaining()), Front)
    {
      match inner {
        case Once(item) =>
          r := item;
          inner := Once(None);
        case Buffer(buf, lo, hi) =>
          if lo == hi { return None; }
          r := Some(buf[lo]);
          inner := Buffer(buf, lo + 1, hi);
      }
    }

    method NextBack() returns (r: Option<T>)
      requires Valid()
      modifies this
      ensures Valid() && r == Taken(old(Remaining()), Back) && Remaining() == Rest(old(Remaining()), Back)
    {
      match inner {
        case Once(item) =>
          r := item;
          inner := Once(None);
        case Buffer(buf, lo, hi) =>
          if lo == hi { return None; }
          r := Some(buf[hi - 1]);
          inner := Buffer(buf, lo, hi - 1);
      }
    }

    method SizeHint() returns (low: nat, high: Option<nat>)
      requires Valid()
      ensures low == |Remaining()| && high == Some(|Remaining()|)
    {
      match inner {
        case Once(item) => low := if item.Some? then 1 else 0;
        case Buffer(_, lo, hi) => low := hi - lo;
      }
      high := Some(low);
    }

    method Fold<B>(init: B, f: (B, T) -> B) returns (acc: B)
      requires Valid()
      modifies this
      ensures Valid() && Remaining() == [] && acc == FoldLeft(f, init, old(Remaining()))
    {
      acc := init;
      ghost var s := Remaining();
      ghost var done: nat := 0;
      var item := Next();
      while item.Some?
        invariant Valid() && done <= |s|
        invariant acc == FoldLeft(f, init, s[..done])
        invariant item == Taken(s[done..], Front) && Remaining() == Rest(s[done..], Front)
        decreases |s| - done
      {
        acc := f(acc, item.value);
        FoldLeftSnoc(f, init, s[..done], s[done]);
        assert s[..done] + [s[done]] == s[..done + 1];
        done := done + 1;
        item := Next();
      }
      assert s[..done] == s;
    }
  }

  /** Driving a new iterator by any interleaving of calls yields the walk of the dereferenced slice, and its
      size hint is exact before and after. */
  method Drive<T>(x: OneOrManyWithParens<T>, calls: seq<End>) returns (out: seq<Option<T>>, hints: seq<nat>)
    ensures out == Walk(x.Slice(), calls)
    ensures |hints| == |calls| && forall i :: 0 <= i < |calls| ==> hints[i] == Max(0, |x.Slice()| - i)
  {
    var iter := new IntoIter(x);
    out, hints := [], [];
    ghost var s := x.Slice();
    WalkLength(s, calls);
    for i := 0 to |calls|
      invariant iter.Valid() && iter.Remaining() == After(s, calls[..i])
      invariant |Walk(s, calls)| == |calls|
      invariant out == Walk(s, calls)[..i]
      invariant |hints| == i && forall j :: 0 <= j < i ==> hints[j] == Max(0, |s| - j)
    {
      OneCall(s, calls, i);
      var low, _ := iter.SizeHint();
      hints := hints + [low];
      var item;
      if calls[i] == Front { item := iter.Next(); } else { item := iter.NextBack(); }
      out := out + [item];
    }
  }

  lemma {:induction false} OneCall<T>(s: seq<T>, calls: seq<End>, i: nat)
    requires i < |calls|
    ensures |After(s, calls[..i])| == Max(0, |s| - i)
    ensures After(s, calls[..i + 1]) == Rest(After(s, calls[..i]), calls[i])
    ensures |Walk(s, calls)| == |calls|
    ensures Walk(s, calls)[..i + 1] == Walk(s, calls)[..i] + [Taken(After(s, calls[..i]), calls[i])]
  {
    WalkAt(s, calls, i);
    WalkLeavesMiddle(s, calls[..i]);
    AfterSnoc(s, calls[..i], calls[i]);
    assert calls[..i + 1] == calls[..i] + [calls[i]];
  }

  lemma {:induction false} AfterSnoc<T>(s: seq<T>, calls: seq<End>, e: End)
    ensures After(s, calls + [e]) == Rest(After(s, calls), e)
    decreases |calls|
  {
    if calls == [] {
      assert [] + [e] == [e] && [e][1..] == [];
    } else {
      assert (calls + [e])[1..] == calls[1..] + [e];
      AfterSnoc(Rest(s, calls[0]), calls[1..], e);
    }
  }

  // ---- printing with separators -----------------------------------------------------------------------------

  function Join(texts: seq<string>, sep: string): string {
    if texts == [] then "" else if |texts| == 1 then texts[0] else texts[0] + (sep + Join(texts[1..], sep))
  }

  lemma {:induction false} JoinSnoc(texts: seq<string>, sep: string, t: string)
    requires texts != []
    ensures Join(texts + [t], sep) == Join(texts, sep) + sep + t
    decreases |texts|
  {
    assert (texts + [t])[1..] == texts[1..] + [t];
    if |texts| == 1 {
      assert texts[1..] + [t] == [t];
    } else {
      JoinSnoc(texts[1..], sep, t);
    }
  }

  /** The printing loop: an empty delimiter before the first element, the separator before every other. */
  method DisplaySeparated<T>(slice: seq<T>, sep: string, show: T -> string) returns (text: string)
    ensures text == Join(Map(show, slice), sep)
    ensures slice == [] ==> text == ""
  {
    text := "";
    var delim := "";
    ghost var texts := Map(show, slice);
    for i := 0 to |slice|
      invariant delim == if i == 0 then "" else sep
      invariant text == Join(texts[..i], sep)
    {
      text := text + delim;
      delim := sep;
      text := text + show(slice[i]);
      assert texts[..i + 1] == texts[..i] + [texts[i]];
      if i > 0 { JoinSnoc(texts[..i], sep, texts[i]); }
    }
    assert texts[..|slice|] == texts;
  }

  /** Cutting a text at every occurrence of the separator. */
  function Split(s: string, sep: string): (r: seq<string>)
    requires sep != ""
    ensures r != []
    decreases |s|
  {
    if s == "" then [""]
    else if sep <= s then [""] + Split(s[|sep|..], sep)
    else
      var r := Split(s[1..], sep);
      [[s[0]] + r[0]] + r[1..]
  }

  lemma {:induction false} SplitText(t: string, rest: string, sep: string)
    requires sep != "" && sep[0] !in t && (rest == "" || sep <= rest)
    ensures Split(t + rest, sep) == if rest == "" then [t] else [t] + Split(rest[|sep|..], sep)
    decreases |t|
  {
    if t == "" {
      assert t + rest == rest;
    } else {
      var s := t + rest;
      assert s[0] == t[0] && s[1..] == t[1..] + rest;
      assert !(sep <= s) by { assert sep[0] != s[0]; }
      SplitText(t[1..], rest, sep);
      assert [t[0]] + t[1..] == t;
      var r := Split(t[1..] + rest, sep);
      assert r[0] == t[1..] && r[1..] == if rest == "" then [] else Split(rest[|sep|..], sep);
    }
  }

  /** A printed list determines its elements' texts, if there is at least one and none contains the
      separator's first character. */
  lemma {:induction false} SplitJoin(texts: seq<string>, sep: string)
    requires sep != "" && texts != [] && forall i :: 0 <= i < |texts| ==> sep[0] !in texts[i]
    ensures Split(Join(texts, sep), sep) == texts
    decreases |texts|
  {
    if |texts| == 1 {
      SplitText(texts[0], "", sep);
      assert texts[0] + "" == texts[0];
    } else {
      var rest := sep + Join(texts[1..], sep);
      SplitText(texts[0], rest, sep);
      assert rest[|sep|..] == Join(texts[1..], sep);
      SplitJoin(texts[1..], sep);
      assert texts == [texts[0]] + texts[1..];
    }
  }

  function Display<T>(x: OneOrManyWithParens<T>, show: T -> string): string {
    match x
    case One(v) => show(v)
    case Many(vs) => "(" + Join(Map(show, vs), ", ") + ")"
  }

  /** Two printed lists are the same text only for the same element texts: with no comma or opening
      parenthesis in an element's text, the form (one or many) and the texts can be read off. */
  lemma {:induction false} DisplayDetermines<T>(x: OneOrManyWithParens<T>, y: OneOrManyWithParens<T>, show: T -> string)
    requires Plain(x, show) && Plain(y, show) && x.Slice() != [] && y.Slice() != []
    requires Display(x, show) == Display(y, show)
    ensures x.One? <==> y.One?
    ensures Map(show, x.Slice()) == Map(show, y.Slice())
  {
    Opening(x, show);
    Opening(y, show);
    if x.One? {
      assert Map(show, x.Slice()) == [show(x.value)] && Map(show, y.Slice()) == [show(y.value)];
    } else {
      var a, b := Map(show, x.values), Map(show, y.values);
      assert Join(a, ", ") == Display(x, show)[1..|Display(x, show)| - 1];
      assert Join(b, ", ") == Display(y, show)[1..|Display(y, show)| - 1];
      SplitJoin(a, ", ");
      SplitJoin(b, ", ");
    }
  }

  lemma {:induction false} Opening<T>(x: OneOrManyWithParens<T>, show: T -> string)
    requires Plain(x, show)
    ensures x.Many? <==> Display(x, show) != "" && Display(x, show)[0] == '('
  {
    if x.One? { assert x.Slice()[0] == x.value; }
  }

  ghost predicate Plain<T>(x: OneOrManyWithParens<T>, show: T -> string) {
    forall i :: 0 <= i < |x.Slice()| ==> ',' !in show(x.Slice()[i]) && '(' !in show(x.Slice()[i])
  }
}
