/** The names of numbered part files (`part-007.parquet`, `part_0007.parquet`) and the
    order in which readers sort them. */
module ShardNames {
  import opened Seqs
  import opened Strings
  import opened Sorting
  import opened PartFiles

  function Pow10(w: nat): (r: nat)
    ensures r > 0
  {
    if w == 0 then 1 else 10 * Pow10(w - 1)
  }

  function Digit(d: nat): (c: char)
    requires d < 10
    ensures c == '0' + d as char
  {
    '0' + d as char
  }

  function Decimal(n: nat): string {
    if n < 10 then [Digit(n)] else Decimal(n / 10) + [Digit(n % 10)]
  }

  /** The last `w` decimal digits of `n`. */
  function Digits(n: nat, w: nat): (r: string)
    ensures |r| == w
    decreases w
  {
    if w == 0 then "" else Digits(n / 10, w - 1) + [Digit(n % 10)]
  }

  /** `f"{n:0{w}d}"`: zero-padded to `w` digits, and longer when `n` does not fit. */
  function Padded(n: nat, w: nat): string {
    if n < Pow10(w) then Digits(n, w) else Decimal(n)
  }

  function Name(prefix: string, n: nat, w: nat, suffix: string): string {
    prefix + Padded(n, w) + suffix
  }

  /** Fixed-width digit strings first differ where the numbers do, in the same direction. */
  lemma {:induction false} DigitsDiffer(m: nat, n: nat, w: nat) returns (k: nat)
    requires m < n < Pow10(w)
    ensures k < w && Digits(m, w)[..k] == Digits(n, w)[..k] && Digits(m, w)[k] < Digits(n, w)[k]
    decreases w
  {
    if m / 10 == n / 10 {
      k := w - 1;
      assert Digits(m, w)[..k] == Digits(m / 10, k) && Digits(n, w)[..k] == Digits(n / 10, k);
    } else {
      k := DigitsDiffer(m / 10, n / 10, w - 1);
      assert Digits(m, w)[..k] == Digits(m / 10, w - 1)[..k] && Digits(n, w)[..k] == Digits(n / 10, w - 1)[..k];
    }
  }

  lemma {:induction false} DecimalOfPower(w: nat)
    ensures |Decimal(Pow10(w))| == w + 1 && Decimal(Pow10(w))[0] == '1'
  {
    if w > 0 {
      assert Pow10(w) / 10 == Pow10(w - 1) && Pow10(w) >= 10;
      DecimalOfPower(w - 1);
    }
  }

  lemma {:induction false} AllNines(w: nat)
    requires w > 0
    ensures Digits(Pow10(w) - 1, w)[0] == '9'
  {
    assert (Pow10(w) - 1) / 10 == Pow10(w - 1) - 1;
    assert (Pow10(w) - 1) % 10 == 9;
    if w > 1 { AllNines(w - 1); }
  }

  ghost predicate NamesInOrder(prefix: string, count: nat, w: nat, suffix: string) {
    forall m, n :: 0 <= m < n < count ==> Less(Name(prefix, m, w, suffix), Name(prefix, n, w, suffix))
  }

  lemma {:induction false} LessWithin(prefix: string, a: string, b: string, suffix: string, k: nat)
    requires k < |a| && k < |b| && a[..k] == b[..k] && a[k] != b[k]
    ensures Less(prefix + a + suffix, prefix + b + suffix) <==> a[k] < b[k]
  {
    var x, y, j := prefix + a + suffix, prefix + b + suffix, |prefix| + k;
    assert x[..j] == prefix + a[..k] && y[..j] == prefix + b[..k];
    LessAt(x, y, j);
  }

  /** Sorting part files by name puts them in number order exactly when there are at most
      10^w of them, where w is the padding. */
  lemma {:induction false} NameOrderIff(prefix: string, count: nat, w: nat, suffix: string)
    requires w > 0
    ensures NamesInOrder(prefix, count, w, suffix) <==> count <= Pow10(w)
  {
    if count <= Pow10(w) {
      forall m, n | 0 <= m < n < count
        ensures Less(Name(prefix, m, w, suffix), Name(prefix, n, w, suffix))
      {
        var k := DigitsDiffer(m, n, w);
        LessWithin(prefix, Digits(m, w), Digits(n, w), suffix, k);
      }
    } else {
      var p := Pow10(w);
      DecimalOfPower(w);
      AllNines(w);
      LessWithin(prefix, Digits(p - 1, w), Decimal(p), suffix, 0);
      assert !Less(Name(prefix, p - 1, w, suffix), Name(prefix, p, w, suffix));
    }
  }

  /** The embedding shards, numbered with three digits, are read in order up to 1000 of them;
      the three-tier parts, with four, up to 10000. */
  lemma {:induction false} ShardAndPartNames(count: nat)
    ensures NamesInOrder("part-", count, 3, ".parquet") <==> count <= 1000
    ensures NamesInOrder("part_", count, 4, ".parquet") <==> count <= 10000
  {
    assert Pow10(3) == 10 * Pow10(2) && Pow10(2) == 10 * Pow10(1) && Pow10(1) == 10 * Pow10(0);
    assert Pow10(4) == 10 * Pow10(3);
    NameOrderIff("part-", count, 3, ".parquet");
    NameOrderIff("part_", count, 4, ".parquet");
  }

  // ---- reading files in name order ------------------------------------------------------------

  datatype Naming = Naming(prefix: string, width: nat, suffix: string)

  /** The embedding shards of the demo pipeline. */
  const SHARDS := Naming("part-", 3, ".parquet")

  function NameOf(n: Naming, i: nat): string { Name(n.prefix, i, n.width, n.suffix) }

  function ByName(n: Naming): (nat, nat) -> bool {
    (a: nat, b: nat) => !Less(NameOf(n, b), NameOf(n, a))
  }

  lemma {:induction false} ByNameIsTotal(n: Naming)
    ensures TotalPreorder(ByName(n))
  {
    forall x: nat, y: nat
      ensures ByName(n)(x, y) || ByName(n)(y, x)
    {
      NotBoth(NameOf(n, x), NameOf(n, y));
    }
    forall x: nat, y: nat, z: nat | ByName(n)(x, y) && ByName(n)(y, z)
      ensures ByName(n)(x, z)
    {
      LessTotal(NameOf(n, x), NameOf(n, y));
      LessTotal(NameOf(n, y), NameOf(n, z));
      AtMostTransitive(NameOf(n, x), NameOf(n, y), NameOf(n, z));
    }
  }

  lemma {:induction false} NotBoth(a: string, b: string)
    ensures !(Less(a, b) && Less(b, a))
  {
    if Less(a, b) && Less(b, a) {
      LessTransitive(a, b, a);
      LessIrreflexive(a);
    }
  }

  lemma {:induction false} AtMostTransitive(a: string, b: string, c: string)
    requires !Less(b, a) && !Less(c, b)
    ensures !Less(c, a)
  {
    LessTotal(a, b);
    LessTotal(b, c);
    if Less(a, b) && Less(b, c) { LessTransitive(a, b, c); }
    NotBoth(a, c);
  }

  function Count(k: nat): (r: seq<nat>)
    ensures |r| == k && forall i :: 0 <= i < k ==> r[i] == i
  {
    seq(k, i => i)
  }

  /** The numbers of `k` files in the order of their names. */
  function ReadOrder(n: Naming, k: nat): seq<nat> { Sort(ByName(n), Count(k)) }

  lemma {:induction false} ReadOrderIff(n: Naming, k: nat)
    requires n.width > 0
    ensures ReadOrder(n, k) == Count(k) <==> k <= Pow10(n.width)
  {
    if k <= Pow10(n.width) {
      CountSorted(n, k);
      SortOfSorted(ByName(n), Count(k));
    } else {
      OrderMoves(n, k);
    }
  }

  lemma {:induction false} OrderMoves(n: Naming, k: nat)
    requires n.width > 0 && k > Pow10(n.width)
    ensures ReadOrder(n, k) != Count(k)
  {
    var p, leq := Pow10(n.width), ByName(n);
    assert !leq(p - 1, p) by { TenthPower(n); }
    ByNameIsTotal(n);
    SortSorted(leq, Count(k));
    Unsorted(leq, Sort(leq, Count(k)), Count(k), p);
  }

  lemma {:induction false} Unsorted<T>(leq: (T, T) -> bool, a: seq<T>, b: seq<T>, i: nat)
    requires Sorted(leq, a) && 0 < i < |b| && !leq(b[i - 1], b[i])
    ensures a != b
  {
  }

  lemma {:induction false} CountSorted(n: Naming, k: nat)
    requires n.width > 0 && k <= Pow10(n.width)
    ensures Sorted(ByName(n), Count(k))
  {
    NameOrderIff(n.prefix, k, n.width, n.suffix);
    forall i, j | 0 <= i < j < k
      ensures ByName(n)(Count(k)[i], Count(k)[j])
    {
      NotBoth(NameOf(n, i), NameOf(n, j));
    }
  }

  lemma {:induction false} TenthPower(n: Naming)
    requires n.width > 0
    ensures Less(NameOf(n, Pow10(n.width)), NameOf(n, Pow10(n.width) - 1))
  {
    var p, w := Pow10(n.width), n.width;
    DecimalOfPower(w);
    AllNines(w);
    LessWithin(n.prefix, Decimal(p), Digits(p - 1, w), n.suffix, 0);
  }

  /** The numbers of the files that are there. */
  function Numbers<T>(d: Dir<T>): (r: seq<nat>)
    ensures forall i :: 0 <= i < |r| ==> r[i] < |d|
    ensures forall i, j :: 0 <= i < j < |r| ==> r[i] < r[j]
    decreases |d|
  {
    if d == [] then []
    else
      var n := |d| - 1;
      Numbers(d[..n]) + (if d[n].Some? then [n] else [])
  }

  function FileOf<T>(d: Dir<T>, i: nat): seq<T> { if i < |d| && d[i].Some? then d[i].value else [] }

  /** The files as a reader that sorts their names gets them. */
  function InNameOrder<T>(n: Naming, d: Dir<T>): seq<seq<T>> {
    Map(i => FileOf(d, i), Sort(ByName(n), Numbers(d)))
  }

  lemma {:induction false} NumbersList<T>(d: Dir<T>, whole: Dir<T>)
    requires |d| <= |whole| && whole[..|d|] == d
    ensures Map(i => FileOf(whole, i), Numbers(d)) == Listed(d)
    decreases |d|
  {
    if d != [] {
      var n := |d| - 1;
      assert d[..n + 1] == d && whole[n] == d[n] && whole[..n] == d[..n];
      NumbersList(d[..n], whole);
      ListedSnoc(d, n);
    }
  }

  /** Up to the width of the padding, files are read in the order of their numbers, whichever are missing. */
  lemma {:induction false} InOrderUpTo<T>(n: Naming, d: Dir<T>)
    requires n.width > 0 && |d| <= Pow10(n.width)
    ensures InNameOrder(n, d) == Listed(d)
  {
    var numbers := Numbers(d);
    NameOrderIff(n.prefix, |d|, n.width, n.suffix);
    forall i, j | 0 <= i < j < |numbers|
      ensures ByName(n)(numbers[i], numbers[j])
    {
      NotBoth(NameOf(n, numbers[i]), NameOf(n, numbers[j]));
    }
    SortOfSorted(ByName(n), numbers);
    assert d[..|d|] == d;
    NumbersList(d, d);
  }

  lemma {:induction false} AllNumbers<T>(files: seq<seq<T>>)
    ensures Numbers(Filled(files)) == Count(|files|)
    decreases |files|
  {
    if files != [] {
      var n := |files| - 1;
      assert Filled(files)[..n] == Filled(files[..n]);
      AllNumbers(files[..n]);
    }
  }

  lemma {:induction false} FirstMoved<T>(n: Naming, files: seq<seq<T>>) returns (i: nat)
    requires n.width > 0 && |files| > Pow10(n.width)
    ensures var read, order := InNameOrder(n, Filled(files)), ReadOrder(n, |files|);
            && i < |files| == |read| == |order| && read[..i] == files[..i]
            && order[i] < |files| && order[i] != i && read[i] == files[order[i]]
  {
    var k := |files|;
    var order := ReadOrder(n, k);
    AllNumbers(files);
    assert |order| == k && order != Count(k) by {
      ReadOrderIff(n, k);
      SortElements(ByName(n), Count(k));
    }
    var m :| 0 <= m < k && order[m] != Count(k)[m];
    i := FirstOff(order, m);
    OrderRange(n, k, i);
  }

  lemma {:induction false} FirstOff(order: seq<nat>, m: nat) returns (i: nat)
    requires m < |order| && order[m] != m
    ensures i <= m && order[i] != i && forall l :: 0 <= l < i ==> order[l] == l
  {
    i := 0;
    while order[i] == i
      invariant i <= m && forall l :: 0 <= l < i ==> order[l] == l
      decreases m - i
    {
      i := i + 1;
    }
  }

  lemma {:induction false} OrderRange(n: Naming, k: nat, i: nat)
    requires i < k
    ensures |ReadOrder(n, k)| == k && ReadOrder(n, k)[i] < k
  {
    SortElements(ByName(n), Count(k));
    assert ReadOrder(n, k)[i] in multiset(Count(k));
  }

  /** With files that start differently, the stream read in name order is the one in number order if and only if the
      padding is wide enough. */
  lemma {:induction false} StreamInOrderIff<T>(n: Naming, files: seq<seq<T>>)
    requires n.width > 0 && forall i :: 0 <= i < |files| ==> files[i] != []
    requires forall i, j :: 0 <= i < j < |files| ==> files[i][0] != files[j][0]
    ensures Flatten(InNameOrder(n, Filled(files))) == Flatten(files) <==> |files| <= Pow10(n.width)
  {
    if |files| <= Pow10(n.width) {
      InOrderUpTo(n, Filled(files));
      ListedFilled(files);
    } else {
      var i := FirstMoved(n, files);
      var read, j := InNameOrder(n, Filled(files)), ReadOrder(n, |files|)[i];
      SplitAt(read, i);
      SplitAt(files, i);
      var at := |Flatten(files[..i])|;
      assert Flatten(read)[at] == files[j][0] && Flatten(files)[at] == files[i][0];
    }
  }

  lemma {:induction false} SplitAt<T>(s: seq<seq<T>>, i: nat)
    requires i < |s| && s[i] != []
    ensures |Flatten(s)| > |Flatten(s[..i])| && Flatten(s)[|Flatten(s[..i])|] == s[i][0]
  {
    assert s == s[..i] + s[i..] && s[i..][0] == s[i];
    FlattenAppend(s[..i], s[i..]);
  }
}
