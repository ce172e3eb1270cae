/**
 * Bounded buffers as the source builds them with array slicing:
 * `[...prev, x].slice(-n)` keeps the newest `n` at the end (chat messages),
 * `[x, ...prev].slice(0, n)` keeps the newest `n` at the front
 * (notifications, the live activity feed).
 */
module Buffers {

  function Min(a: nat, b: nat): nat {
    if a <= b then a else b
  }

  /** `s.slice(-n)` for a positive `n`. */
  function KeepLast<T>(s: seq<T>, n: nat): (r: seq<T>)
    requires n > 0
  {
    if |s| <= n then s else s[|s| - n..]
  }

  /** `s.slice(0, n)`. */
  function KeepFirst<T>(s: seq<T>, n: nat): (r: seq<T>) {
    if |s| <= n then s else s[..n]
  }

  /** `r` is what remains of `s` when its first elements are dropped. */
  ghost predicate IsSuffix<T>(r: seq<T>, s: seq<T>) {
    |r| <= |s| && r == s[|s| - |r|..]
  }

  /** `r` is what remains of `s` when its last elements are dropped. */
  ghost predicate IsPrefix<T>(r: seq<T>, s: seq<T>) {
    |r| <= |s| && r == s[..|r|]
  }

  /**
   * Appending and keeping the last `n`: the length is `min(|s| + 1, n)`, the new
   * element is last, and the ones before it are the newest of `s` in their order.
   */
  lemma AppendBounded<T>(s: seq<T>, x: T, n: nat)
    requires n > 0
    ensures |KeepLast(s + [x], n)| == Min(|s| + 1, n)
    ensures KeepLast(s + [x], n)[|KeepLast(s + [x], n)| - 1] == x
    ensures IsSuffix(KeepLast(s + [x], n)[..|KeepLast(s + [x], n)| - 1], s)
  {
    var r := KeepLast(s + [x], n);
    if |s| + 1 > n {
      assert r[..|r| - 1] == s[|s| - (n - 1)..];
    } else {
      assert r[..|r| - 1] == s;
    }
  }

  /**
   * Prepending and keeping the first `n`: the new element is at index 0, the
   * length is `min(|s| + 1, n)`, and the rest is a prefix of `s` in order.
   */
  lemma PrependBounded<T>(s: seq<T>, x: T, n: nat)
    requires n > 0
    ensures |KeepFirst([x] + s, n)| == Min(|s| + 1, n)
    ensures KeepFirst([x] + s, n)[0] == x
    ensures IsPrefix(KeepFirst([x] + s, n)[1..], s)
  {
    var r := KeepFirst([x] + s, n);
    if |s| + 1 > n {
      assert r[1..] == s[..n - 1];
    } else {
      assert r[1..] == s;
    }
  }

  /**
   * Trimming before each append loses nothing: a buffer kept bounded after every
   * append equals the last `n` of everything appended, so eviction is strictly
   * oldest first.
   */
  lemma KeepLastAppend<T>(s: seq<T>, x: T, n: nat)
    requires n > 0
    ensures KeepLast(KeepLast(s, n) + [x], n) == KeepLast(s + [x], n)
  {
    if |s| > n {
      var t := s[|s| - n..];
      assert (t + [x])[1..] == (s + [x])[|s| + 1 - n..];
    }
  }

  /** The same for the front-kept buffers: the newest `n`, newest first. */
  lemma KeepFirstPrepend<T>(s: seq<T>, x: T, n: nat)
    requires n > 0
    ensures KeepFirst([x] + KeepFirst(s, n), n) == KeepFirst([x] + s, n)
  {
    if |s| > n {
      assert ([x] + s[..n])[..n] == ([x] + s)[..n];
    }
  }

  /** Appending one element at a time, from empty. */
  function AppendAllBounded<T>(buf: seq<T>, xs: seq<T>, n: nat): seq<T>
    requires n > 0
    decreases |xs|
  {
    if xs == [] then buf else AppendAllBounded(KeepLast(buf + [xs[0]], n), xs[1..], n)
  }

  /**
   * Whatever is appended, one element at a time, to a buffer kept at the last
   * `n`, the buffer ends as the last `n` of the whole history: with `n + 1`
   * distinct elements exactly the first one is evicted.
   */
  lemma {:induction false} BoundedHistory<T>(buf: seq<T>, xs: seq<T>, n: nat)
    requires n > 0
    ensures AppendAllBounded(KeepLast(buf, n), xs, n) == KeepLast(buf + xs, n)
    decreases |xs|
  {
    if xs == [] {
      assert buf + xs == buf;
      if |buf| > n {
        assert KeepLast(buf, n) == buf[|buf| - n..];
      }
    } else {
      KeepLastAppend(buf, xs[0], n);
      BoundedHistory(buf + [xs[0]], xs[1..], n);
      assert buf + [xs[0]] + xs[1..] == buf + xs;
    }
  }

  /** Applied to `n + 1` elements from empty, the oldest is evicted and the rest keep their order. */
  lemma EvictsOldest<T>(xs: seq<T>, n: nat)
    requires n > 0 && |xs| == n + 1
    ensures AppendAllBounded([], xs, n) == xs[1..]
  {
    BoundedHistory([], xs, n);
    assert [] + xs == xs;
  }
}
