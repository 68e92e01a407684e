/** The two Python 2 built-ins the bill splitter relies on, over exact reals:
    `sum` over a list of floats and `round(x, 1)`.
    Floats are modelled as `real`; IEEE-754 rounding is not modelled. */
module PyBuiltins {

  /** Python's `sum(s)`: a left fold `((0 + s[0]) + s[1]) + ...`. */
  function Sum(s: seq<real>): real
    decreases |s|
  {
    if s == [] then 0.0 else Sum(s[..|s| - 1]) + s[|s| - 1]
  }

  /** Appending one value adds it to the sum (what `deal.append(...)` does to `sum(deal)`). */
  lemma SumAppend(s: seq<real>, x: real)
    ensures Sum(s + [x]) == Sum(s) + x
  {
    assert (s + [x])[..|s|] == s;
  }

  /** The sum of a concatenation is the sum of the parts. */
  lemma {:induction false} SumConcat(a: seq<real>, b: seq<real>)
    ensures Sum(a + b) == Sum(a) + Sum(b)
    decreases |b|
  {
    if b == [] {
      assert a + b == a;
    } else {
      var b' := b[..|b| - 1];
      assert (a + b)[..|a + b| - 1] == a + b';
      SumConcat(a, b');
    }
  }

  /** `k` copies of the same value `c` sum to `k * c`. */
  lemma {:induction false} SumConstant(k: nat, c: real)
    ensures Sum(seq(k, _ => c)) == k as real * c
  {
    if k > 0 {
      assert seq(k, _ => c)[..k - 1] == seq(k - 1, _ => c);
      SumConstant(k - 1, c);
    }
  }

  /** A sequence whose every element is `a + b * d[i]` sums to `|d| * a + b * Sum(d)`:
      the linearity that makes the per-roommate totals add up. */
  lemma {:induction false} SumAffine(t: seq<real>, d: seq<real>, a: real, b: real)
    requires |t| == |d|
    requires forall i :: 0 <= i < |t| ==> t[i] == a + b * d[i]
    ensures Sum(t) == |d| as real * a + b * Sum(d)
    decreases |t|
  {
    if t != [] {
      var k := |t| - 1;
      SumAffine(t[..k], d[..k], a, b);
      assert t[k] == a + b * d[k];
    }
  }

  /** Python 2's `round(x, 1)`: round to the nearest multiple of 0.1; a value exactly
      half-way between two multiples is rounded away from zero. */
  function Round1(x: real): (r: real)
    ensures (r * 10.0).Floor as real == r * 10.0
    ensures x >= 0.0 ==> x - 0.05 < r <= x + 0.05
    ensures x < 0.0 ==> x - 0.05 <= r < x + 0.05
  {
    if x >= 0.0 then
      var k := (x * 10.0 + 0.5).Floor;
      assert k as real <= x * 10.0 + 0.5 < k as real + 1.0;
      assert (k as real / 10.0) * 10.0 == k as real;
      assert (k as real).Floor == k;
      k as real / 10.0
    else
      var k := ((-x) * 10.0 + 0.5).Floor;
      assert k as real <= (-x) * 10.0 + 0.5 < k as real + 1.0;
      assert -(k as real / 10.0) * 10.0 == (-k) as real;
      assert ((-k) as real).Floor == -k;
      -(k as real / 10.0)
  }

  /** `round(x, 1) == 1.0` holds exactly for `x` in the interval [0.95, 1.05). */
  lemma RoundsToOne(x: real)
    ensures Round1(x) == 1.0 <==> 0.95 <= x < 1.05
  {
    if x >= 0.0 {
      var k := (x * 10.0 + 0.5).Floor;
      assert k as real <= x * 10.0 + 0.5 < k as real + 1.0;
      if 0.95 <= x < 1.05 {
        assert 10.0 <= x * 10.0 + 0.5 < 11.0;
        assert k == 10;
      }
      if Round1(x) == 1.0 {
        assert k == 10;
      }
    } else {
      var k := ((-x) * 10.0 + 0.5).Floor;
      assert k >= 0;
    }
  }
}
