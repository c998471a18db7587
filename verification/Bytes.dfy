/** Bytes, byte strings and the two small datatypes every other module shares. */
module Bytes {

  type byte = x: int | 0 <= x < 256

  datatype Option<+T> = None | Some(value: T)

  function Min(a: int, b: int): int {
    if a <= b then a else b
  }

  /** A freshly resized buffer: `n` zero bytes. */
  function Zeros(n: nat): (s: seq<byte>)
    ensures |s| == n
    ensures forall i :: 0 <= i < n ==> s[i] == 0
  {
    seq(n, i => 0)
  }

  lemma SliceOfSlice<T>(s: seq<T>, lo: nat, hi: nat, offset: nat, size: nat)
    requires lo + offset + size <= hi <= |s|
    ensures s[lo..hi][offset..offset + size] == s[lo + offset..lo + offset + size]
  {
    var a, b := s[lo..hi][offset..offset + size], s[lo + offset..lo + offset + size];
    assert |a| == |b| && forall k :: 0 <= k < size ==> a[k] == b[k];
  }

  lemma SliceAfterPrefix<T>(a: seq<T>, b: seq<T>, whole: seq<T>)
    requires a + b <= whole
    ensures |a| + |b| <= |whole| && whole[|a|..|a| + |b|] == b
  {
    assert whole[|a|..|a| + |b|] == (a + b)[|a|..];
  }

  lemma SliceJoin<T>(s: seq<T>, a: nat, b: nat, c: nat)
    requires a <= b <= c <= |s|
    ensures s[a..b] + s[b..c] == s[a..c]
  {
  }

  /** `whole` with `bytes` written over it from `at` on. */
  function Patch(whole: seq<byte>, at: nat, bytes: seq<byte>): (r: seq<byte>)
    requires at + |bytes| <= |whole|
    ensures |r| == |whole|
  {
    whole[..at] + bytes + whole[at + |bytes|..]
  }

  lemma PatchTwice(whole: seq<byte>, at: nat, a: seq<byte>, b: seq<byte>)
    requires at + |a| + |b| <= |whole|
    ensures Patch(Patch(whole, at, a), at + |a|, b) == Patch(whole, at, a + b)
  {
  }

  lemma PatchNothing(whole: seq<byte>, at: nat)
    requires at <= |whole|
    ensures Patch(whole, at, []) == whole
  {
  }

  // ---- buffers laid end to end ----

  function Concat(parts: seq<seq<byte>>): seq<byte> {
    if parts == [] then [] else Concat(parts[..|parts| - 1]) + parts[|parts| - 1]
  }

  lemma {:induction false} ConcatPrefix(parts: seq<seq<byte>>, i: nat)
    requires i <= |parts|
    ensures Concat(parts[..i]) <= Concat(parts)
  {
    if i < |parts| {
      var front := parts[..|parts| - 1];
      ConcatPrefix(front, i);
      assert front[..i] == parts[..i];
    } else {
      assert parts[..i] == parts;
    }
  }

  /** Part `i` follows the parts before it; nothing follows the final part. */
  lemma ConcatAt(parts: seq<seq<byte>>, i: nat)
    requires i < |parts|
    ensures Concat(parts[..i]) + parts[i] <= Concat(parts)
    ensures i + 1 == |parts| ==> Concat(parts[..i]) + parts[i] == Concat(parts)
  {
    hide Concat;
    ConcatLast(parts, i);
    ConcatPrefix(parts, i + 1);
    if i + 1 == |parts| {
      assert parts[..i + 1] == parts;
    }
  }

  lemma ConcatLast(parts: seq<seq<byte>>, i: nat)
    requires i < |parts|
    ensures Concat(parts[..i + 1]) == Concat(parts[..i]) + parts[i]
  {
    var first := parts[..i + 1];
    assert first[..i] == parts[..i] && first[i] == parts[i];
  }

  lemma OneMore(n: nat, size: nat)
    ensures (n + 1) * size == n * size + size
  {
  }

  lemma {:induction false} ConcatUniformLength(parts: seq<seq<byte>>, size: nat)
    requires forall i :: 0 <= i < |parts| ==> |parts[i]| == size
    ensures |Concat(parts)| == |parts| * size
  {
    if parts != [] {
      var front := parts[..|parts| - 1];
      ConcatUniformLength(front, size);
      assert |Concat(parts)| == |Concat(front)| + size;
      OneMore(|front|, size);
    }
  }
}
