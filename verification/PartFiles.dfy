/** Directories of numbered part files, any of which may be missing. */
module PartFiles {
  import opened Seqs

  /** The file of every number below the length, or None where there is none. */
  type Dir<T> = seq<Option<seq<T>>>

  /** The files in the order of their numbers. */
  function Listed<T>(d: Dir<T>): (r: seq<seq<T>>)
    ensures |r| <= |d|
  {
    if d == [] then [] else (if d[0].Some? then [d[0].value] else []) + Listed(d[1..])
  }

  /** The files before the first missing number. */
  function Leading<T>(d: Dir<T>): seq<seq<T>> {
    if d == [] || d[0].None? then [] else [d[0].value] + Leading(d[1..])
  }

  /** The directory of exactly these files, numbered from 0. */
  function Filled<T>(files: seq<seq<T>>): (d: Dir<T>)
    ensures |d| == |files| && forall i :: 0 <= i < |d| ==> d[i] == Some(files[i])
  {
    seq(|files|, i requires 0 <= i < |files| => Some(files[i]))
  }

  /** No number is missing below one that is there. */
  ghost predicate NoGap<T>(d: Dir<T>) {
    forall i, j :: 0 <= i < j < |d| && d[j].Some? ==> d[i].Some?
  }

  function Remove<T>(d: Dir<T>, i: nat): Dir<T> { if i < |d| then d[i := None] else d }

  /** Removing files one after the other. */
  function RemoveAll<T>(d: Dir<T>, order: seq<nat>): Dir<T>
    decreases |order|
  {
    if order == [] then d else Remove(RemoveAll(d, order[..|order| - 1]), order[|order| - 1])
  }

  /** Writing a file under a number, over whatever is there. */
  function Put<T>(d: Dir<T>, i: nat, file: seq<T>): Dir<T> {
    if i < |d| then d[i := Some(file)] else d + [Some(file)]
  }

  /** Writing files under the numbers from `at` on. */
  function Place<T>(d: Dir<T>, at: nat, files: seq<seq<T>>): (r: Dir<T>)
    requires at <= |d|
    ensures |r| == Max(|d|, at + |files|)
    decreases |files|
  {
    if files == [] then d
    else
      var n := |files| - 1;
      Put(Place(d, at, files[..n]), at + n, files[n])
  }

  // ---- what is listed -----------------------------------------------------------------------

  lemma {:induction false} ListedAppend<T>(a: Dir<T>, b: Dir<T>)
    ensures Listed(a + b) == Listed(a) + Listed(b)
  {
    if a == [] {
      assert a + b == b;
    } else {
      assert (a + b)[0] == a[0] && (a + b)[1..] == a[1..] + b;
      ListedAppend(a[1..], b);
      Regroup(if a[0].Some? then [a[0].value] else [], Listed(a[1..]), Listed(b));
    }
  }

  lemma {:induction false} ListedSnoc<T>(d: Dir<T>, i: nat)
    requires i < |d|
    ensures Listed(d[..i + 1]) == if d[i].Some? then Listed(d[..i]) + [d[i].value] else Listed(d[..i])
  {
    assert d[..i + 1] == d[..i] + [d[i]] && [d[i]][1..] == [];
    ListedAppend(d[..i], [d[i]]);
  }

  lemma {:induction false} ListedFilled<T>(files: seq<seq<T>>)
    ensures Listed(Filled(files)) == files && Leading(Filled(files)) == files
  {
    if files != [] {
      assert Filled(files)[1..] == Filled(files[1..]);
      ListedFilled(files[1..]);
      assert files == [files[0]] + files[1..];
    }
  }

  /** The leading files are those of the numbers before the first missing one, and lead the list. */
  lemma {:induction false} LeadingFirst<T>(d: Dir<T>)
    ensures var g := |Leading(d)|;
            && g <= |d| && (g < |d| ==> d[g].None?) && d[..g] == Filled(Leading(d))
            && Listed(d) == Leading(d) + Listed(d[g..])
  {
    if d != [] && d[0].Some? {
      var rest := d[1..];
      LeadingFirst(rest);
      var g := |Leading(rest)|;
      assert d[1 + g..] == rest[g..] && d[..1 + g] == [d[0]] + rest[..g];
      Regroup([d[0].value], Leading(rest), Listed(rest[g..]));
    } else {
      assert d[0..] == d;
    }
  }

  lemma {:induction false} ListedNone<T>(d: Dir<T>)
    ensures Listed(d) == [] <==> forall i :: 0 <= i < |d| ==> d[i].None?
  {
    if d != [] {
      ListedNone(d[1..]);
      assert forall i :: 0 <= i < |d| - 1 ==> d[1..][i] == d[i + 1];
      assert forall i :: 0 < i < |d| ==> d[i] == d[1..][i - 1];
    }
  }

  /** Without a gap the list is the leading files and its length is the first free number; with one, some file
      has a number at or beyond that. */
  lemma {:induction false} NoGapIff<T>(d: Dir<T>)
    ensures NoGap(d) <==> Listed(d) == Leading(d)
    ensures NoGap(d) <==> forall i :: |Listed(d)| <= i < |d| ==> d[i].None?
    ensures NoGap(d) <==> |Listed(d)| == |Leading(d)|
  {
    var g := |Leading(d)|;
    LeadingFirst(d);
    ListedNone(d[g..]);
    var rest := d[g..];
    assert forall i :: 0 <= i < |rest| ==> rest[i] == d[g + i];
    assert forall i :: g <= i < |d| ==> d[i] == rest[i - g];
    assert forall i :: 0 <= i < g ==> d[i] == d[..g][i];
    if Listed(rest) == [] {
      assert Listed(d) == Leading(d);
    } else {
      var j :| 0 <= j < |rest| && rest[j].Some?;
      assert j > 0 && d[g].None? && d[g + j].Some?;
      Beyond(rest);
    }
  }

  /** A list of files of which the first is missing does not fit before its own length. */
  lemma {:induction false} Beyond<T>(d: Dir<T>)
    requires d != [] && d[0].None? && Listed(d) != []
    ensures exists i :: |Listed(d)| <= i < |d| && d[i].Some?
    decreases |d|
  {
    var n := |d| - 1;
    ListedSnoc(d, n);
    assert d[..n + 1] == d;
    if d[n].Some? {
      assert Listed(d[..n]) == Listed(d[..n][1..]);
    } else {
      Beyond(d[..n]);
      var i :| |Listed(d[..n])| <= i < n && d[..n][i].Some?;
      assert d[i].Some?;
    }
  }

  // ---- writing and removing -------------------------------------------------------------------

  lemma {:induction false} PlaceSnoc<T>(d: Dir<T>, at: nat, files: seq<seq<T>>, file: seq<T>)
    requires at <= |d|
    ensures Place(d, at, files + [file]) == Put(Place(d, at, files), at + |files|, file)
  {
    assert (files + [file])[..|files|] == files;
  }

  /** The placed files stand where they were placed, and the other files where they were. */
  lemma {:induction false} PlaceAt<T>(d: Dir<T>, at: nat, files: seq<seq<T>>, i: nat)
    requires at <= |d| && i < |Place(d, at, files)|
    ensures Place(d, at, files)[i] == if at <= i < at + |files| then Some(files[i - at]) else d[i]
    decreases |files|
  {
    if files != [] {
      var n := |files| - 1;
      if i < |Place(d, at, files[..n])| { PlaceAt(d, at, files[..n], i); }
    }
  }

  lemma {:induction false} PlaceIs<T>(d: Dir<T>, at: nat, files: seq<seq<T>>)
    requires at <= |d|
    ensures Place(d, at, files) == d[..at] + Filled(files) + d[Min(at + |files|, |d|)..]
  {
    var x, y := Place(d, at, files), d[..at] + Filled(files) + d[Min(at + |files|, |d|)..];
    assert |x| == |y|;
    forall i | 0 <= i < |x|
      ensures x[i] == y[i]
    {
      PlaceAt(d, at, files, i);
    }
  }

  /** Written after its first number without a file, a directory without gaps lists the new files last. */
  lemma {:induction false} PlaceAfter<T>(d: Dir<T>, files: seq<seq<T>>)
    requires NoGap(d)
    ensures NoGap(Place(d, |Listed(d)|, files)) && Listed(Place(d, |Listed(d)|, files)) == Listed(d) + files
  {
    var g := |Leading(d)|;
    assert |Listed(d)| == g && Listed(d) == Leading(d) && forall i :: g <= i < |d| ==> d[i].None? by { NoGapIff(d); }
    assert g <= |d| && d[..g] == Filled(Leading(d)) by { LeadingFirst(d); }
    PlacedList(d, g, files);
    var p := Place(d, g, files);
    forall i | 0 <= i < |p|
      ensures p[i].Some? <==> i < g + |files|
    {
      PlaceAt(d, g, files, i);
      assert i < g ==> d[i] == d[..g][i];
    }
  }

  lemma {:induction false} PlacedList<T>(d: Dir<T>, g: nat, files: seq<seq<T>>)
    requires g == |Leading(d)| <= |d| && d[..g] == Filled(Leading(d)) && forall i :: g <= i < |d| ==> d[i].None?
    ensures Listed(Place(d, g, files)) == Leading(d) + files
  {
    var tail := d[Min(g + |files|, |d|)..];
    PlaceIs(d, g, files);
    assert Listed(tail) == [] by { ListedNone(tail); }
    ListedFilled(files);
    ListedFilled(Leading(d));
    ListedAppend(d[..g] + Filled(files), tail);
    ListedAppend(d[..g], Filled(files));
  }

  /** Writing beyond a gap leaves the files before it, and the gap, as they are. */
  lemma {:induction false} PlaceBeyond<T>(d: Dir<T>, at: nat, files: seq<seq<T>>)
    requires |Leading(d)| < at <= |d|
    ensures Leading(Place(d, at, files)) == Leading(d)
  {
    LeadingFirst(d);
    var g, p := |Leading(d)|, Place(d, at, files);
    forall i | 0 <= i <= g
      ensures p[i] == d[i]
    {
      PlaceAt(d, at, files, i);
    }
    assert p[..g] == d[..g];
    LeadingIs(p, Leading(d));
  }

  lemma {:induction false} LeadingIs<T>(d: Dir<T>, files: seq<seq<T>>)
    requires |files| <= |d| && d[..|files|] == Filled(files) && (|files| < |d| ==> d[|files|].None?)
    ensures Leading(d) == files
  {
    if files != [] {
      assert d[0] == d[..|files|][0];
      assert d[1..][..|files| - 1] == d[..|files|][1..] == Filled(files[1..]);
      LeadingIs(d[1..], files[1..]);
      assert files == [files[0]] + files[1..];
    }
  }

  /** Removing a file cuts the leading files at it, if it is one of them. */
  lemma {:induction false} RemoveCuts<T>(d: Dir<T>, i: nat)
    ensures |Remove(d, i)| == |d|
    ensures Leading(Remove(d, i)) == Leading(d)[..Min(i, |Leading(d)|)]
  {
    LeadingFirst(d);
    var e, g := Remove(d, i), Min(i, |Leading(d)|);
    assert e[..g] == d[..g] == Filled(Leading(d)[..g]);
    LeadingIs(e, Leading(d)[..g]);
  }
}
