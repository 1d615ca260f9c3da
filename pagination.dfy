/** The offset/limit window that the in-memory comment store cuts out of a post's
    comments (internal/storage/storage.go:115-123). */
module Pagination {
  import opened Domain

  function Min(a: int, b: int): int { if a <= b then a else b }

  /** The inputs for which the source's slice expression `comments[start:end]` is
      in bounds: either the offset is past the end (the early empty return), or
      both offset and limit are non-negative and `start + limit` does not overflow
      Go's 64-bit `int`. Anything else panics in Go. */
  predicate InBounds(n: nat, limit: int, offset: int) {
    offset >= n || (0 <= offset && 0 <= limit && offset + limit <= MaxInt)
  }

  /** The page of `s` that starts at `offset` and holds at most `limit` elements. */
  function Window<T>(s: seq<T>, limit: int, offset: int): (w: seq<T>)
    requires InBounds(|s|, limit, offset)
    ensures offset >= |s| ==> w == []
    ensures offset < |s| ==> |w| == Min(limit, |s| - offset)
    ensures forall i :: 0 <= i < |w| ==> w[i] == s[offset + i]
  {
    if offset >= |s| then [] else s[offset..Min(offset + limit, |s|)]
  }

  /** Within one listing, two consecutive pages of the same size are the page of
      twice that size: windows cut from the same listing neither skip nor repeat
      an element. */
  lemma AdjacentPages<T>(s: seq<T>, limit: nat, offset: nat)
    requires offset + 2 * limit <= MaxInt
    ensures Window(s, limit, offset) + Window(s, limit, offset + limit) == Window(s, 2 * limit, offset)
  {
  }
}
