/** Machine integers and the few facts about `%` that the index arithmetic of the firmware needs. */
module Common {

  /** The number of values of `rt_uint16_t`. */
  const MODULUS_16: int := 0x1_0000

  type U16 = x: int | 0 <= x < 0x1_0000

  newtype Byte = x: int | 0 <= x < 256

  datatype Option<+T> = None | Some(value: T)

  /** The value a C assignment to a `rt_uint16_t` stores. */
  function Truncate16(x: int): (r: U16)
    ensures 0 <= x < 0x1_0000 ==> r == x
  {
    x % 0x1_0000
  }

  lemma TruncateNear(x: int)
    requires -0x1_0000 <= x < 0x2_0000
    ensures Truncate16(x) == if x < 0 then x + 0x1_0000 else if x < 0x1_0000 then x else x - 0x1_0000
  {
    ModUnique(x, 0x1_0000, if x < 0 then -1 else if x < 0x1_0000 then 0 else 1,
              if x < 0 then x + 0x1_0000 else if x < 0x1_0000 then x else x - 0x1_0000);
  }

  /** How a truncated difference follows its two operands. */
  lemma TruncatedDifference(p: U16, g: U16)
    ensures p != g ==> Truncate16(p - Truncate16(g + 1)) == Truncate16(p - g) - 1
    ensures Truncate16(Truncate16(p + 1) - g) <= Truncate16(p - g) + 1
  {
    hide Truncate16;
    TruncateNear(g + 1);
    TruncateNear(p + 1);
    TruncateNear(p - g);
    TruncateNear(p - Truncate16(g + 1));
    TruncateNear(Truncate16(p + 1) - g);
  }

  function Min(a: int, b: int): int {
    if a <= b then a else b
  }

  function Max(a: int, b: int): int {
    if a <= b then b else a
  }

  predicate DupFree<T(==)>(s: seq<T>) {
    forall i, j :: 0 <= i < j < |s| ==> s[i] != s[j]
  }

  /** Append to a bounded queue; a full one loses its oldest element. */
  function DropOldest<T>(q: seq<T>, x: T, capacity: nat): (r: seq<T>)
    requires 0 < capacity
    ensures 0 < |r| <= Max(|q|, capacity) && r[|r| - 1] == x
  {
    (if |q| >= capacity then q[1..] else q) + [x]
  }

  /** The last `n` elements. */
  function Newest<T>(s: seq<T>, n: nat): seq<T> {
    if |s| <= n then s else s[|s| - n..]
  }

  lemma NewestShort<T>(s: seq<T>, n: nat)
    ensures |s| <= n ==> Newest(s, n) == s
    ensures |Newest(s, n)| == Min(|s|, n)
  {
  }

  lemma NewestStep<T>(s: seq<T>, x: T, n: nat)
    requires 0 < n
    ensures Newest(s + [x], n) == DropOldest(Newest(s, n), x, n)
  {
  }

  /** `memcpy` of `n` bytes between two buffers. */
  method MemCopy(dst: array<Byte>, to: nat, src: array<Byte>, from: nat, n: nat)
    requires to + n <= dst.Length && from + n <= src.Length && dst != src
    modifies dst
    ensures dst[..] == old(dst[..to]) + src[from..from + n] + old(dst[to + n..])
  {
    for i := 0 to n
      invariant dst[..to] == old(dst[..to]) && dst[to + n..] == old(dst[to + n..])
      invariant dst[to..to + i] == src[from..from + i]
    {
      dst[to + i] := src[from + i];
    }
    assert dst[..] == dst[..to] + dst[to..to + n] + dst[to + n..];
  }

  /** The quotient and remainder of a division are the only ones. */
  lemma ModUnique(a: int, n: int, k: int, r: int)
    requires 0 < n && a == k * n + r && 0 <= r < n
    ensures a % n == r
  {
    var d := a / n - k;
    assert a == (a / n) * n + a % n;
    assert d * n == r - a % n by {
      assert d * n == (a / n) * n - k * n;
    }
  }

  /** How a remainder moves when the dividend moves by less than the divisor. */
  lemma ModAdvance(a: int, n: int, d: int)
    requires 0 < n && 0 <= d <= n
    ensures (a + d) % n == if a % n + d < n then a % n + d else a % n + d - n
  {
    var k := a / n;
    assert a == k * n + a % n;
    if a % n + d < n {
      ModUnique(a + d, n, k, a % n + d);
    } else {
      assert (k + 1) * n == k * n + n;
      ModUnique(a + d, n, k + 1, a % n + d - n);
    }
  }

  /** Numbers less than a divisor apart have different remainders. */
  lemma ModDistinct(a: int, b: int, n: int)
    requires 0 < n && a < b < a + n
    ensures a % n != b % n
  {
    ModAdvance(a, n, b - a);
  }

  /** Reducing by a multiple of `n` first does not change the remainder by `n`. */
  lemma ModOfMod(a: int, m: int, n: int)
    requires 0 < n && 0 < m && m % n == 0
    ensures (a % m) % n == a % n
  {
    var q := m / n;
    assert m == q * n;
    assert a == (a / m) * m + a % m;
    var r := a % m;
    assert r == (r / n) * n + r % n;
    assert a == ((a / m) * q + r / n) * n + r % n by {
      assert (a / m) * m == ((a / m) * q) * n;
    }
    ModUnique(a, n, (a / m) * q + r / n, r % n);
  }
}
