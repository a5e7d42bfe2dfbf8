/** Sequence vocabulary shared by the pipeline models: concatenating batches,
    cutting rows into batches, and mapping a function over rows. */
module Seqs {

  datatype Option<+T> = None | Some(value: T)

  function Max(a: int, b: int): int { if a < b then b else a }

  function Min(a: int, b: int): int { if a < b then a else b }

  /** The rows of a sequence of batches, in order. */
  function Flatten<T>(batches: seq<seq<T>>): seq<T> {
    if batches == [] then [] else batches[0] + Flatten(batches[1..])
  }

  lemma {:induction false} FlattenAppend<T>(a: seq<seq<T>>, b: seq<seq<T>>)
    ensures Flatten(a + b) == Flatten(a) + Flatten(b)
  {
    if a == [] {
      assert a + b == b;
    } else {
      assert (a + b)[0] == a[0] && (a + b)[1..] == a[1..] + b;
      FlattenAppend(a[1..], b);
      var x, y, z := a[0], Flatten(a[1..]), Flatten(b);
      assert x + (y + z) == (x + y) + z;
    }
  }

  lemma {:induction false} FlattenSnoc<T>(a: seq<seq<T>>, b: seq<T>)
    ensures Flatten(a + [b]) == Flatten(a) + b
  {
    FlattenAppend(a, [b]);
    assert Flatten([b]) == b + Flatten([b][1..]) == b;
  }

  lemma {:induction false} Regroup<T>(a: seq<T>, b: seq<T>, c: seq<T>)
    ensures (a + b) + c == a + (b + c)
  {}

  function Map<A, B>(f: A -> B, s: seq<A>): (r: seq<B>)
    ensures |r| == |s|
    ensures forall i :: 0 <= i < |s| ==> r[i] == f(s[i])
  {
    seq(|s|, i requires 0 <= i < |s| => f(s[i]))
  }

  /** Rows [s, e) of a file that may be shorter. */
  function Range<T>(rows: seq<T>, s: nat, e: nat): seq<T>
    requires s <= e
  {
    rows[Min(s, |rows|)..Min(e, |rows|)]
  }

  /** The batches a reader yields when it cuts `rows` every `size` rows: all are
      full except possibly the last. */
  function Cut<T>(rows: seq<T>, size: nat): (batches: seq<seq<T>>)
    requires size > 0
  {
    if rows == [] then []
    else if |rows| <= size then [rows]
    else [rows[..size]] + Cut(rows[size..], size)
  }

  lemma {:induction false} FlattenCut<T>(rows: seq<T>, size: nat)
    requires size > 0
    ensures Flatten(Cut(rows, size)) == rows
  {
    if rows == [] {
    } else if |rows| <= size {
      assert Flatten([rows]) == rows + Flatten([rows][1..]);
    } else {
      FlattenCut(rows[size..], size);
      FlattenCons(rows[..size], Cut(rows[size..], size));
      assert rows == rows[..size] + rows[size..];
    }
  }

  lemma {:induction false} FlattenCons<T>(a: seq<T>, b: seq<seq<T>>)
    ensures Flatten([a] + b) == a + Flatten(b)
  {
    assert ([a] + b)[1..] == b;
  }

  /** The sizes of the batches. Two readers are in step when these agree. */
  function Sizes<T>(batches: seq<seq<T>>): (r: seq<nat>)
    ensures |r| == |batches|
    ensures forall i :: 0 <= i < |batches| ==> r[i] == |batches[i]|
  {
    seq(|batches|, i requires 0 <= i < |batches| => |batches[i]|)
  }
}
