/** The few Python integer and list operations whose semantics the batcher relies on. */
module PyOps {

  /** Python's `a // b`: division rounded towards minus infinity. */
  function FloorDiv(a: int, b: int): (q: int)
    requires b != 0
    ensures b > 0 ==> q * b <= a < q * b + b
    ensures b < 0 ==> q * b + b < a <= q * b
  {
    if b > 0 then a / b else (-a) / (-b)
  }

  /** Python's `int(a / b)`: true division truncated towards zero. */
  function TruncDiv(a: int, b: int): (q: int)
    requires b != 0
    ensures a >= 0 && b > 0 ==> q == FloorDiv(a, b)
    ensures (a >= 0) == (b > 0) || a == 0 ==> q >= 0
    ensures (a >= 0) != (b > 0) ==> q <= 0
    ensures Abs(q) * Abs(b) <= Abs(a) < Abs(q) * Abs(b) + Abs(b)
  {
    var m: int := NatDiv(Abs(a), Abs(b));
    if (a >= 0) == (b > 0) then m else -m
  }

  /** Division of naturals, with the two multiples of the divisor that bracket the dividend. */
  function NatDiv(x: nat, y: nat): (d: nat)
    requires y > 0
    ensures d == x / y
    ensures d * y <= x < d * y + y
  {
    assert (x / y) * y + x % y == x;
    x / y
  }

  function Abs(x: int): nat { if x < 0 then -x else x }

  /** Where a Python slice bound `i` lands in a list of length `n`: negative bounds count from the end, and both ends are clamped. */
  function SliceBound(i: int, n: nat): (k: nat)
    ensures k <= n
    ensures 0 <= i <= n ==> k == i
    ensures i > n ==> k == n
    ensures i < 0 ==> k == if i + n < 0 then 0 else i + n
  {
    if i < 0 then (if i + n < 0 then 0 else i + n) else if i > n then n else i
  }

  /** Python's `s[lo:hi]`. */
  function Slice<T>(s: seq<T>, lo: int, hi: int): (r: seq<T>)
    ensures 0 <= lo <= hi <= |s| ==> r == s[lo..hi]
    ensures 0 <= lo <= |s| <= hi ==> r == s[lo..]
    ensures 0 <= hi <= lo ==> r == []
  {
    var i, j := SliceBound(lo, |s|), SliceBound(hi, |s|);
    if i < j then s[i..j] else []
  }
}
