/** The size arithmetic of support/include/utils/common.hpp and of the chunked files built on it. */
module ChunkMath {

  function DivideWithCeiling(numerator: nat, denominator: nat): nat {
    if denominator == 0 then 0
    else numerator / denominator + (if numerator % denominator != 0 then 1 else 0)
  }

  function CalculateReadSize(totalSize: nat, readSize: nat, offset: nat): nat {
    if offset + readSize > totalSize
    then if offset < totalSize then totalSize - offset else 0
    else readSize
  }

  /** The size the code gives to the final chunk of a file of `size` bytes. */
  function LastChunkSize(size: nat, chunk: nat): nat
    requires chunk > 0
  {
    if size <= chunk then size
    else if size % chunk == 0 then chunk
    else size % chunk
  }

  // ---- multiplication and division by a symbolic chunk size ----

  lemma MulMonotone(a: int, b: int, d: nat)
    requires a <= b
    ensures a * d <= b * d
  {
    assert (b - a) * d >= 0;
  }

  lemma MulCancel(a: int, b: int, d: nat)
    requires a * d < b * d
    ensures a < b
  {
    if b <= a {
      MulMonotone(b, a, d);
    }
  }

  lemma DivMod(n: nat, d: nat)
    requires d > 0
    ensures n == n / d * d + n % d && 0 <= n % d < d && 0 <= n / d
  {
  }

  /** `n / d` is the one quotient whose block `[q*d, (q+1)*d)` holds `n`. */
  lemma QuotientUnique(n: nat, d: nat, q: int)
    requires d > 0 && q * d <= n < (q + 1) * d
    ensures q == n / d && n % d == n - q * d
  {
    var p := n / d;
    assert p * d <= n < (p + 1) * d;
    MulCancel(q, p + 1, d);
    MulCancel(p, q + 1, d);
  }

  lemma CeilingBounds(n: nat, d: nat)
    requires d > 0
    ensures n <= DivideWithCeiling(n, d) * d
    ensures n > 0 ==> DivideWithCeiling(n, d) > 0 && (DivideWithCeiling(n, d) - 1) * d < n
    ensures n == 0 ==> DivideWithCeiling(n, d) == 0
  {
    var q := n / d;
    assert q * d + n % d == n;
    assert (q + 1) * d == q * d + d;
  }

  /** The ceiling is characterised by its two bounds. */
  lemma CeilingUnique(n: nat, d: nat, c: nat)
    requires d > 0 && n <= c * d
    requires n > 0 ==> c > 0 && (c - 1) * d < n
    requires n == 0 ==> c == 0
    ensures c == DivideWithCeiling(n, d)
  {
    CeilingBounds(n, d);
    if n > 0 {
      var e := DivideWithCeiling(n, d);
      MulCancel(c - 1, e, d);
      MulCancel(e - 1, c, d);
    }
  }

  /** Every offset inside a file lies in one of its chunks. */
  lemma OffsetInChunk(n: nat, d: nat, offset: nat)
    requires d > 0 && offset < n
    ensures offset / d < DivideWithCeiling(n, d)
    ensures offset / d * d <= offset < (offset / d + 1) * d
    ensures offset == offset / d * d + offset % d && 0 <= offset % d < d
  {
    CeilingBounds(n, d);
    var q := offset / d;
    assert q * d + offset % d == offset;
    assert (q + 1) * d == q * d + d;
    MulCancel(q, DivideWithCeiling(n, d), d);
  }

  /** The final chunk holds exactly what the full chunks before it leave over, and is never empty. */
  lemma {:induction false} LastChunkSizeIsRemainder(size: nat, chunk: nat)
    requires chunk > 0 && size > 0
    ensures LastChunkSize(size, chunk) == size - (DivideWithCeiling(size, chunk) - 1) * chunk
    ensures 0 < LastChunkSize(size, chunk) <= chunk
  {
    var q := size / chunk;
    assert q * chunk + size % chunk == size;
    assert (q - 1) * chunk == q * chunk - chunk;
    if size <= chunk {
      if size == chunk {
        QuotientUnique(size, chunk, 1);
      } else {
        QuotientUnique(size, chunk, 0);
      }
    }
  }

  lemma Distribute(i: int, a: int, b: int)
    ensures i * (a + b) == i * a + i * b
    ensures (i + 1) * a == i * a + a
  {
  }

  /** Chunk `i` starts inside the file; it is full exactly when another chunk follows. */
  lemma ChunkExtent(n: nat, d: nat, i: nat)
    requires d > 0 && i < DivideWithCeiling(n, d)
    ensures 0 <= i * d < n
    ensures (i + 1) * d == i * d + d
    ensures i + 1 < DivideWithCeiling(n, d) ==> (i + 1) * d < n
    ensures i + 1 == DivideWithCeiling(n, d) ==> n <= (i + 1) * d
  {
    CeilingBounds(n, d);
    MulMonotone(0, i, d);
    MulMonotone(i, DivideWithCeiling(n, d) - 1, d);
    Distribute(i, d, 0);
    if i + 1 < DivideWithCeiling(n, d) {
      MulMonotone(i + 1, DivideWithCeiling(n, d) - 1, d);
    }
  }
}
