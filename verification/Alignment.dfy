/** `group_prefix_cache_alignment`: the least common multiple of the groups' page capacities is
    exactly the spacing of the token boundaries at which every group ends on a full page. */
module Alignment {
  import opened CacheTypes

  /** `math.lcm`: the first multiple of `a`, from `k * a` on, that `b` divides. */
  function LcmFrom(a: nat, b: nat, k: nat): nat
    requires a > 0 && 0 < k <= b
    decreases b - k
  {
    if k == b || (k * a) % b == 0 then k * a else LcmFrom(a, b, k + 1)
  }

  function Lcm(a: nat, b: nat): nat
    requires a > 0 && b > 0
  {
    LcmFrom(a, b, 1)
  }

  lemma MultipleMod(k: int, a: nat)
    requires a > 0
    ensures (k * a) % a == 0
  {
    var q := (k * a) / a;
    assert k * a == a * q + (k * a) % a;
    var d := k - q;
    assert a * d == (k * a) % a by { assert a * d == a * k - a * q; }
    assert d >= 1 ==> a * d >= a;
    assert d <= -1 ==> a * d <= 0 - a;
  }

  lemma {:induction false} LcmFromIsCommon(a: nat, b: nat, k: nat)
    requires a > 0 && 0 < k <= b
    ensures LcmFrom(a, b, k) > 0 && LcmFrom(a, b, k) % a == 0 && LcmFrom(a, b, k) % b == 0
    decreases b - k
  {
    if k == b || (k * a) % b == 0 {
      MultipleMod(k, a);
      MultipleMod(a, b);
      Times(1, k, a);
    } else {
      LcmFromIsCommon(a, b, k + 1);
    }
  }

  lemma {:induction false} LcmFromIsLeast(a: nat, b: nat, k: nat, j: nat)
    requires a > 0 && 0 < k <= b && k <= j && j * a < LcmFrom(a, b, k)
    ensures (j * a) % b != 0
    decreases b - k
  {
    Times(k, j, a);
    if k != b && (k * a) % b != 0 && j > k {
      LcmFromIsLeast(a, b, k + 1, j);
    }
  }

  lemma RemainderOfMultiple(n: nat, m: nat, a: nat)
    requires a > 0 && m > 0 && n % a == 0 && m % a == 0
    ensures (n % m) % a == 0
  {
    var x, y, q := n / a, m / a, n / m;
    assert n == a * x && m == a * y && n == m * q + n % m;
    assert m * q == a * (y * q);
    assert n % m == (x - y * q) * a by {
      assert (x - y * q) * a == a * x - a * (y * q);
    }
    MultipleMod(x - y * q, a);
  }

  lemma MultipleOfMultiple(n: nat, m: nat, a: nat)
    requires a > 0 && m > 0 && n % m == 0 && m % a == 0
    ensures n % a == 0
  {
    var q, y := n / m, m / a;
    assert n == m * q && m == a * y;
    assert n == (y * q) * a;
    MultipleMod(y * q, a);
  }

  lemma LcmIsCommon(a: nat, b: nat)
    requires a > 0 && b > 0
    ensures Lcm(a, b) > 0 && Lcm(a, b) % a == 0 && Lcm(a, b) % b == 0
  {
    LcmFromIsCommon(a, b, 1);
  }

  lemma LcmIsLeast(a: nat, b: nat, r: nat)
    requires a > 0 && b > 0 && 0 < r < Lcm(a, b) && r % a == 0
    ensures r % b != 0
  {
    var j := r / a;
    assert r == j * a && j >= 1;
    LcmFromIsLeast(a, b, 1, j);
  }

  lemma LcmExact(a: nat, b: nat, n: nat)
    requires a > 0 && b > 0
    ensures Lcm(a, b) > 0
    ensures n % Lcm(a, b) == 0 <==> n % a == 0 && n % b == 0
  {
    hide Lcm;
    LcmIsCommon(a, b);
    var m := Lcm(a, b);
    if n % m == 0 {
      MultipleOfMultiple(n, m, a);
      MultipleOfMultiple(n, m, b);
    } else if n % a == 0 {
      RemainderOfMultiple(n, m, a);
      LcmIsLeast(a, b, n % m);
      if n % b == 0 { RemainderOfMultiple(n, m, b); }
    }
  }

  function AlignmentOf(specs: seq<GroupSpec>): nat {
    if specs == [] then 1
    else
      var rest := AlignmentOf(specs[1..]);
      if specs[0].capacity == 0 || rest == 0 then 0 else Lcm(specs[0].capacity, rest)
  }

  /** A token boundary is a multiple of the alignment exactly when every group ends on a page. */
  lemma {:induction false} AlignmentExact(specs: seq<GroupSpec>, n: nat)
    requires forall g :: 0 <= g < |specs| ==> specs[g].capacity > 0
    ensures AlignmentOf(specs) > 0
    ensures n % AlignmentOf(specs) == 0 <==> forall g :: 0 <= g < |specs| ==> n % specs[g].capacity == 0
  {
    hide Lcm;
    if specs != [] {
      AlignmentExact(specs[1..], n);
      LcmExact(specs[0].capacity, AlignmentOf(specs[1..]), n);
      assert specs == [specs[0]] + specs[1..];
    }
  }
}
