/**
 * Contiguous-slice search, the `is_sub` helper of the deploy handler:
 * `haystack.windows(needle.len()).any(|c| c == needle)`.
 */
module Substring {

  /** The slices `s.windows(size)` yields, in order: every contiguous window
      of length `size`, and none at all when `s` is shorter than `size`.
      A zero `size` makes `windows` panic, hence the precondition. */
  function Windows<T>(s: seq<T>, size: nat): (ws: seq<seq<T>>)
    requires size > 0
    ensures |ws| == if |s| < size then 0 else |s| - size + 1
    ensures forall i :: 0 <= i < |ws| ==> ws[i] == s[i..i + size]
    decreases |s|
  {
    if |s| < size then []
    else
      var rest := Windows(s[1..], size);
      [s[..size]] + rest
  }

  /** `.any(|c| c == x)` over the windows: stops at the first match. */
  function AnyEqual<T(==)>(ws: seq<seq<T>>, x: seq<T>): (found: bool)
    ensures found <==> x in ws
  {
    if ws == [] then false
    else
      assert ws == [ws[0]] + ws[1..];
      ws[0] == x || AnyEqual(ws[1..], x)
  }

  /** `n` occurs in `h` starting at position `i`. */
  predicate OccursAt<T(==)>(h: seq<T>, n: seq<T>, i: nat)
  {
    i + |n| <= |h| && h[i..i + |n|] == n
  }

  /** `is_sub(haystack, needle)`; the caller must not pass an empty needle. */
  function IsSub<T(==)>(haystack: seq<T>, needle: seq<T>): (found: bool)
    requires |needle| > 0
    ensures |haystack| < |needle| ==> !found
  {
    AnyEqual(Windows(haystack, |needle|), needle)
  }

  /** `is_sub` is exactly "some start position `i <= |h| - |n|` holds `n`". */
  lemma IsSubIffOccurs<T>(h: seq<T>, n: seq<T>)
    requires |n| > 0
    ensures IsSub(h, n) <==> exists i: nat :: OccursAt(h, n, i)
  {
    var ws := Windows(h, |n|);
    if IsSub(h, n) {
      var i :| 0 <= i < |ws| && ws[i] == n;
      assert OccursAt(h, n, i);
    }
    if exists i: nat :: OccursAt(h, n, i) {
      var i: nat :| OccursAt(h, n, i);
      assert ws[i] == n;
    }
  }

  /** Whatever precedes or follows an occurrence, it is still found. */
  lemma IsSubInContext<T>(before: seq<T>, h: seq<T>, after: seq<T>, n: seq<T>)
    requires |n| > 0 && IsSub(h, n)
    ensures IsSub(before + h + after, n)
  {
    IsSubIffOccurs(h, n);
    var i: nat :| OccursAt(h, n, i);
    var whole := before + h + after;
    assert whole[|before| + i..|before| + i + |n|] == h[i..i + |n|];
    assert OccursAt(whole, n, |before| + i);
    IsSubIffOccurs(whole, n);
  }

  /** A needle is found in itself. */
  lemma IsSubSelf<T>(n: seq<T>)
    requires |n| > 0
    ensures IsSub(n, n)
  {
  }

  /** A haystack that lacks the needle's first element never contains it. */
  lemma NotSubWithoutFirst<T>(h: seq<T>, n: seq<T>)
    requires |n| > 0 && n[0] !in h
    ensures !IsSub(h, n)
  {
  }
}
