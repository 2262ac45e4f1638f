/** Thinning a trip's points or a charge's curve to an even selection (src/detail.rs). */
module Downsample {
  import opened Base

  const USIZE_MAX := 0xFFFF_FFFF_FFFF_FFFF

  /** The index taken at step `i` of `max` out of `0 ..= last`. */
  function Pick(i: nat, last: nat, max: nat): nat
    requires max >= 2
  {
    (i * last) / (max - 1)
  }

  ghost predicate Thinned<T(!new)>(pts: seq<T>, max: nat, picked: seq<T>)
    requires max >= 2 && |pts| > max
  {
    && |picked| == max
    && forall i :: 0 <= i < max ==> Pick(i, |pts| - 1, max) < |pts| && picked[i] == pts[Pick(i, |pts| - 1, max)]
  }

  /** The products the loop forms must fit the machine word. Neither skip ever happens: every step picks. */
  method Downsample<T(!new)>(pts: seq<T>, max: nat) returns (picked: seq<T>)
    requires (max - 1) * (|pts| - 1) <= USIZE_MAX && |pts| <= USIZE_MAX
    ensures max < 2 || |pts| <= max ==> picked == pts
    ensures max >= 2 && |pts| > max ==> Thinned(pts, max, picked)
  {
    if max < 2 || |pts| <= max {
      return pts;
    }
    var last := |pts| - 1;
    var slots := seq(|pts|, k requires 0 <= k < |pts| => Some(pts[k]));
    picked := [];
    var prev := USIZE_MAX;
    for i := 0 to max
      invariant |slots| == |pts| && |picked| == i
      invariant if i == 0 then prev == USIZE_MAX else prev == Pick(i - 1, last, max)
      invariant forall k :: 0 <= k < i ==> Pick(k, last, max) < |pts| && picked[k] == pts[Pick(k, last, max)]
      invariant forall k :: (if i == 0 then 0 else prev + 1) <= k < |pts| ==> slots[k] == Some(pts[k])
    {
      var idx := Pick(i, last, max);
      PickInRange(i, last, max);
      if i > 0 { GapIsEven(i - 1, last, max); }
      if idx == prev {
        assert false;
        continue;
      }
      prev := idx;
      match slots[idx] {
        case Some(pt) =>
          slots := slots[idx := None];
          picked := picked + [pt];
        case None => assert false;
      }
    }
  }

  lemma ProductsOrdered(x: nat, y: nat, d: nat)
    requires x < y
    ensures x * d + d <= y * d
  {
    assert y * d == x * d + (y - x) * d;
    assert (y - x) * d == d + (y - x - 1) * d;
  }

  lemma QuotientIs(a: nat, d: nat, x: nat, y: nat)
    requires a == x * d + y && y < d
    ensures a / d == x
  {
    var z, w := a / d, a % d;
    assert a == z * d + w;
    if z < x { ProductsOrdered(z, x, d); }
    if x < z { ProductsOrdered(x, z, d); }
  }

  lemma PickInRange(i: nat, last: nat, max: nat)
    requires max >= 2 && i < max
    ensures Pick(i, last, max) <= last
    ensures Pick(0, last, max) == 0 && Pick(max - 1, last, max) == last
  {
    var d := max - 1;
    assert 0 * last == 0 == 0 * d;
    QuotientIs(0, d, 0, 0);
    assert d * last == last * d;
    QuotientIs(d * last, d, last, 0);
    var a := i * last;
    if i < d { ProductsOrdered(i, d, last); }
    assert a <= last * d;
    assert a == (a / d) * d + a % d;
    if last < a / d { ProductsOrdered(last, a / d, d); }
  }

  /** Neighbouring picks stand `last / (max - 1)` apart, or one more. */
  lemma GapIsEven(i: nat, last: nat, max: nat)
    requires 2 <= max <= last
    ensures var gap, even := Pick(i + 1, last, max) - Pick(i, last, max), last / (max - 1);
            gap >= 1 && (gap == even || gap == even + 1)
  {
    var d, a := max - 1, i * last;
    assert (i + 1) * last == a + last;
    SumOfQuotients(a, last, d);
  }

  lemma SumOfQuotients(a: nat, b: nat, d: nat)
    requires 1 <= d <= b
    ensures (a + b) / d == a / d + b / d || (a + b) / d == a / d + b / d + 1
    ensures b / d >= 1
  {
    var x, y, q, r := a / d, a % d, b / d, b % d;
    assert a == x * d + y && b == q * d + r;
    assert (x + q) * d == x * d + q * d;
    if y + r < d {
      QuotientIs(a + b, d, x + q, y + r);
    } else {
      assert (x + q + 1) * d == x * d + q * d + d;
      QuotientIs(a + b, d, x + q + 1, y + r - d);
    }
  }

  lemma {:induction false} PicksIncrease(i: nat, j: nat, last: nat, max: nat)
    requires 2 <= max <= last && i < j
    ensures Pick(i, last, max) < Pick(j, last, max)
    decreases j
  {
    GapIsEven(j - 1, last, max);
    if i < j - 1 { PicksIncrease(i, j - 1, last, max); }
  }

  /** What a reader sees: exactly `max` points in their order, the first and the last among them, and no two
      stretches that differ by more than one point. */
  lemma ThinningIsEven<T(!new)>(pts: seq<T>, last: nat, max: nat, picked: seq<T>)
    requires |pts| == last + 1 > max >= 2 && Thinned(pts, max, picked)
    ensures |picked| == max && picked[0] == pts[0] && picked[max - 1] == pts[last]
    ensures forall i, j :: 0 <= i < j < max ==> Pick(i, last, max) < Pick(j, last, max)
    ensures forall i, j :: 0 <= i < max - 1 && 0 <= j < max - 1 ==> Gap(i, last, max) <= Gap(j, last, max) + 1
  {
    PickInRange(0, last, max);
    forall i, j | 0 <= i < j < max ensures Pick(i, last, max) < Pick(j, last, max) {
      PicksIncrease(i, j, last, max);
    }
    forall i, j | 0 <= i < max - 1 && 0 <= j < max - 1 ensures Gap(i, last, max) <= Gap(j, last, max) + 1 {
      GapIsEven(i, last, max);
      GapIsEven(j, last, max);
    }
  }

  function Gap(i: nat, last: nat, max: nat): int
    requires max >= 2
  {
    Pick(i + 1, last, max) - Pick(i, last, max)
  }
}
