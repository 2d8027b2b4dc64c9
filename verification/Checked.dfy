/** Checked 64-bit arithmetic with explicit rounding, and how it behaves when its inputs shrink. */
module Checked {
  import opened Results

  const U32_MAX: nat := 0xFFFF_FFFF
  const MILLION: nat := 1_000_000

  type U64 = n: nat | n <= U64_MAX
  type U32 = n: nat | n <= U32_MAX

  datatype Checked<+T> = Value(value: T) | Overflow {
    predicate IsFailure() { Overflow? }
    function PropagateFailure<U>(): Checked<U> requires Overflow? { Overflow }
    function Extract(): T requires Value? { value }
  }

  function Narrow(n: nat): (r: Checked<U64>) { if n <= U64_MAX then Value(n) else Overflow }

  function Mul(a: U64, b: U64): (r: Checked<U64>) { Narrow(a * b) }

  function Add(a: U64, b: U64): (r: Checked<U64>) { Narrow(a + b) }

  function CeilDiv(n: nat, d: nat): (q: nat)
    requires d > 0
  {
    (n + d - 1) / d
  }

  /** Division that rounds up; the rounding term is itself checked. */
  function DivCeil(n: U64, d: U64): (r: Checked<U64>)
    requires d > 0
  {
    var t :- Add(n, d - 1);
    Value(t / d)
  }

  /** `value * ppm / 10^6`, rounded up. */
  function Ppm(value: U64, ppm: U64): (r: Checked<U64>) {
    var product :- Mul(value, ppm);
    DivCeil(product, MILLION)
  }

  /** `capacity * 10^6 / demand`, rounded down. */
  function Headroom(capacity: U64, demand: U64): (r: Checked<U64>)
    requires demand > 0
  {
    var scaled :- Mul(capacity, MILLION);
    Value(scaled / demand)
  }

  /** `demand * 10^6 / unit`, rounded up. */
  function RatioCeil(demand: U64, unit: U64): (r: Checked<U64>)
    requires unit > 0
  {
    var scaled :- Mul(demand, MILLION);
    DivCeil(scaled, unit)
  }

  /** What is left of `total` after a reserve, rounded down. */
  function Budget(total: U64, reserve: U64): (r: Checked<U64>)
    requires reserve <= MILLION
  {
    var scaled :- Mul(total, MILLION - reserve);
    Value(scaled / MILLION)
  }

  // ----- Rounding -----

  lemma CeilDivBounds(n: nat, d: nat)
    requires d > 0
    ensures n <= CeilDiv(n, d) * d < n + d
    ensures n > 0 ==> CeilDiv(n, d) > 0
  {
    var t := n + d - 1;
    assert t == (t / d) * d + t % d;
  }

  lemma FloorDivBounds(n: nat, d: nat)
    requires d > 0
    ensures (n / d) * d <= n < (n / d) * d + d
  {
    assert n == (n / d) * d + n % d;
  }

  lemma DivMonotone(a: nat, b: nat, d: nat)
    requires a <= b && d > 0
    ensures a / d <= b / d
  {
    if a / d > b / d {
      FloorDivBounds(a, d);
      FloorDivBounds(b, d);
      MulMonotone(b / d + 1, a / d, d, d);
      assert false;
    }
  }

  lemma DivAntitone(n: nat, d: nat, e: nat)
    requires 0 < d <= e
    ensures n / e <= n / d
  {
    if n / e > n / d {
      FloorDivBounds(n, d);
      FloorDivBounds(n, e);
      MulMonotone(n / d + 1, n / e, d, e);
      assert false;
    }
  }

  lemma MulMonotone(a: nat, a': nat, b: nat, b': nat)
    requires a <= a' && b <= b'
    ensures a * b <= a' * b'
  {
    assert a * b <= a' * b by { assert (a' - a) * b >= 0; }
    assert a' * b <= a' * b' by { assert a' * (b' - b) >= 0; }
  }

  // ----- Smaller inputs -----

  /** If the larger computation fits, so does the smaller one, with a smaller result. */
  predicate Below(x: Checked<U64>, y: Checked<U64>) {
    y.Value? ==> x.Value? && x.value <= y.value
  }

  lemma MulBelow(a: U64, a': U64, b: U64, b': U64)
    requires a <= a' && b <= b'
    ensures Below(Mul(a, b), Mul(a', b'))
  {
    MulMonotone(a, a', b, b');
  }

  lemma AddBelow(a: U64, a': U64, b: U64, b': U64)
    requires a <= a' && b <= b'
    ensures Below(Add(a, b), Add(a', b'))
  {}

  lemma DivCeilBelow(n: U64, n': U64, d: U64)
    requires n <= n' && d > 0
    ensures Below(DivCeil(n, d), DivCeil(n', d))
  {
    DivMonotone(n + d - 1, n' + d - 1, d);
  }

  lemma PpmBelow(v: U64, v': U64, p: U64, p': U64)
    requires v <= v' && p <= p'
    ensures Below(Ppm(v, p), Ppm(v', p'))
  {
    hide DivCeil, Mul;
    MulBelow(v, v', p, p');
    var x, y := Mul(v, p), Mul(v', p');
    if y.Value? { DivCeilBelow(x.value, y.value, MILLION); }
  }

  lemma RatioCeilBelow(d: U64, d': U64, unit: U64)
    requires d <= d' && unit > 0
    ensures Below(RatioCeil(d, unit), RatioCeil(d', unit))
  {
    hide DivCeil, Mul;
    MulBelow(d, d', MILLION, MILLION);
    var x, y := Mul(d, MILLION), Mul(d', MILLION);
    if y.Value? { DivCeilBelow(x.value, y.value, unit); }
  }

  /** Less demand leaves at least as much headroom, and overflows no earlier. */
  lemma HeadroomAntitone(capacity: U64, d: U64, d': U64)
    requires 0 < d <= d'
    ensures Headroom(capacity, d).Value? <==> Headroom(capacity, d').Value?
    ensures Headroom(capacity, d).Value? ==> Headroom(capacity, d').value <= Headroom(capacity, d).value
  {
    DivAntitone(capacity * MILLION, d, d');
  }

  // ----- Exactness -----

  lemma PpmExact(v: U64, p: U64)
    requires Ppm(v, p).Value?
    ensures Ppm(v, p).value == CeilDiv(v * p, MILLION)
    ensures v * p <= Ppm(v, p).value * MILLION
    ensures v > 0 && p > 0 ==> Ppm(v, p).value > 0
  {
    CeilDivBounds(v * p, MILLION);
    if v > 0 && p > 0 { MulMonotone(1, v, 1, p); }
  }

  lemma RatioCeilExact(d: U64, unit: U64)
    requires unit > 0 && RatioCeil(d, unit).Value?
    ensures d * MILLION <= RatioCeil(d, unit).value * unit
  {
    CeilDivBounds(d * MILLION, unit);
  }

  lemma BudgetExact(total: U64, reserve: U64)
    requires reserve <= MILLION && Budget(total, reserve).Value?
    ensures Budget(total, reserve).value * MILLION <= total * (MILLION - reserve)
  {
    FloorDivBounds(total * (MILLION - reserve), MILLION);
  }

  lemma HeadroomExact(capacity: U64, demand: U64)
    requires demand > 0 && Headroom(capacity, demand).Value?
    ensures Headroom(capacity, demand).value * demand <= capacity * MILLION
  {
    FloorDivBounds(capacity * MILLION, demand);
  }
}
