/** Multiples of a batch size. */
module Multiples {

  lemma {:induction false} ProductAtLeast(k: int, g: int)
    requires k >= 1 && g > 0
    ensures k * g >= g
  {}

  lemma {:induction false} MultipleMod(k: int, g: int)
    requires g > 0
    ensures k * g % g == 0
  {
    var a := k * g;
    var d := k - a / g;
    assert d * g == a % g;
    if d >= 1 { ProductAtLeast(d, g); }
    if d <= -1 { ProductAtLeast(-d, g); }
  }

  lemma {:induction false} SumMod(a: int, b: int, g: int)
    requires g > 0 && a % g == 0 && b % g == 0
    ensures (a + b) % g == 0
  {
    assert a + b == (a / g + b / g) * g;
    MultipleMod(a / g + b / g, g);
  }

  lemma {:induction false} DifferenceMod(a: int, b: int, g: int)
    requires g > 0 && a % g == 0 && b % g == 0
    ensures (a - b) % g == 0
  {
    assert a - b == (a / g - b / g) * g;
    MultipleMod(a / g - b / g, g);
  }

  /** Multiples of `g` are at least `g` apart. */
  lemma {:induction false} MultiplesApart(a: int, b: int, g: int)
    requires g > 0 && a % g == 0 && b % g == 0 && a > b - g
    ensures a >= b
  {
    var d := b / g - a / g;
    assert b - a == d * g;
    if d >= 1 { ProductAtLeast(d, g); }
    if d <= 0 { assert (-d) * g >= 0; }
  }

  /** A positive multiple of `g` leaves a multiple when `g` is taken away. */
  lemma {:induction false} PeelMultiple(a: int, g: int)
    requires g > 0 && a > 0 && a % g == 0
    ensures a >= g && (a - g) % g == 0
  {
    assert g % g == 0;
    MultiplesApart(a, g, g);
    DifferenceMod(a, g, g);
  }

  lemma {:induction false} AddOne(a: int, g: int)
    requires g > 0 && a % g == 0
    ensures (a + g) % g == 0
  {
    assert g % g == 0;
    SumMod(a, g, g);
  }

  /** Taking `g` away again and again ends at zero. */
  predicate Peels(a: nat, g: nat)
    requires g > 0
  {
    a == 0 || (a >= g && Peels(a - g, g))
  }

  lemma {:induction false} PeelsMod(a: nat, g: nat)
    requires g > 0 && Peels(a, g)
    ensures a % g == 0
    decreases a
  {
    if a > 0 {
      PeelsMod(a - g, g);
      AddOne(a - g, g);
    }
  }

  lemma {:induction false} PeelsIff(a: nat, g: nat)
    requires g > 0
    ensures Peels(a, g) <==> a % g == 0
    decreases a
  {
    if Peels(a, g) { PeelsMod(a, g); }
    if a % g == 0 && a > 0 {
      PeelMultiple(a, g);
      PeelsIff(a - g, g);
    }
  }

  /** A multiple of `g` below another one leaves room for `g` more. */
  lemma {:induction false} RoomForOne(a: int, b: int, g: int)
    requires g > 0 && a % g == 0 && b % g == 0 && a < b
    ensures a + g <= b && (a + g) % g == 0
  {
    assert g % g == 0;
    SumMod(a, g, g);
    MultiplesApart(b, a + g, g);
  }

  /** The smallest multiple of `g` that is at least `n`. */
  function RoundUp(n: nat, g: nat): (r: nat)
    requires n > 0 && g > 0
    ensures r % g == 0 && n <= r < n + g
  {
    MultipleMod((n + g - 1) / g, g);
    (n + g - 1) / g * g
  }
}
