/** Python integer and sequence operators whose semantics differ from Dafny's:
    the floored `%`, `int(a / b)` (truncation toward zero) and slicing with
    negative or out-of-range bounds. */
module PyOps {

  function Abs(a: int): nat { if a < 0 then -a else a }

  /** Python's `a % b`: the remainder takes the sign of the divisor. */
  function PyMod(a: int, b: int): (r: int)
    requires b != 0
    ensures b > 0 ==> 0 <= r < b
    ensures b < 0 ==> b < r <= 0
    ensures (a - r) % Abs(b) == 0
  {
    if b > 0 then
      var r := a % b;
      assert a - r == (a / b) * b;
      MultipleMod(a / b, b);
      r
    else
      var r := -((-a) % (-b));
      assert a - r == ((-a) / (-b)) * b;
      assert ((-a) / (-b)) * b == -((-a) / (-b)) * (-b);
      MultipleMod(-((-a) / (-b)), -b);
      r
  }

  /** `int(a / b)` on integers: the exact quotient rounded toward zero. */
  function TruncDiv(a: int, b: int): (r: int)
    requires b != 0
    ensures Abs(r) * Abs(b) <= Abs(a) < (Abs(r) + 1) * Abs(b)
    ensures r > 0 ==> (a > 0) == (b > 0)
    ensures r < 0 ==> (a > 0) != (b > 0)
  {
    var A := Abs(a);
    var B := Abs(b);
    var q := A / B;
    DivBounds(A, B);
    assert A == 0 ==> q == 0;
    var r: int := if (a < 0) != (b < 0) then -(q as int) else q;
    assert Abs(r) == q;
    r
  }

  /** A multiple of `m` leaves no remainder. */
  lemma MultipleMod(q: int, m: int)
    requires m > 0
    ensures (q * m) % m == 0
  {
    var x := q * m;
    var d := q - x / m;
    assert x % m == d * m;
  }

  /** The floor quotient of a natural number brackets it. */
  lemma DivBounds(x: nat, m: nat)
    requires m > 0
    ensures (x / m) * m <= x < (x / m + 1) * m
  {
    assert x == (x / m) * m + x % m;
    assert (x / m + 1) * m == (x / m) * m + m;
  }

  /** The floor quotient is the unique `i` with `i * b <= n < (i + 1) * b`. */
  lemma DivUnique(n: nat, b: nat, i: nat)
    requires b >= 1 && i * b <= n < (i + 1) * b
    ensures n / b == i
  {
    DivBounds(n, b);
    var q := n / b;
    assert q < i ==> (q + 1) * b <= i * b;
    assert q > i ==> (i + 1) * b <= q * b;
  }

  /** Taking `b` away from `n` takes one away from the floor quotient. */
  lemma DivStep(n: nat, b: nat)
    requires 1 <= b <= n
    ensures n / b == (n - b) / b + 1
    ensures n / b * b == b + (n - b) / b * b
  {
    var q := (n - b) / b;
    DivBounds(n - b, b);
    assert (q + 1) * b == q * b + b && (q + 2) * b == (q + 1) * b + b;
    DivUnique(n, b, q + 1);
  }

  /** Python's clamping of a slice bound against a sequence of length `n`. */
  function SliceIndex(i: int, n: nat): (r: nat)
    ensures r <= n
    ensures 0 <= i <= n ==> r == i
  {
    if i < 0 then (if i + n < 0 then 0 else i + n)
    else if i > n then n
    else i
  }

  /** `s[start:stop]`. */
  function PySlice<T>(s: seq<T>, start: int, stop: int): (r: seq<T>)
    ensures |r| == (if SliceIndex(start, |s|) < SliceIndex(stop, |s|)
                    then SliceIndex(stop, |s|) - SliceIndex(start, |s|) else 0)
    ensures forall k :: 0 <= k < |r| ==> r[k] == s[SliceIndex(start, |s|) + k]
  {
    var lo := SliceIndex(start, |s|);
    var hi := SliceIndex(stop, |s|);
    if lo < hi then s[lo..hi] else []
  }

  /** Within range, a Python slice is the ordinary subsequence. */
  lemma PySliceInRange<T>(s: seq<T>, start: int, stop: int)
    requires 0 <= start <= stop <= |s|
    ensures PySlice(s, start, stop) == s[start..stop]
  {
  }
}
