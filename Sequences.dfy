/** `filter`, `slice(0, n)` and `reduce((a, b) => a + b, 0)` on arrays. */
module Sequences {

  /** `s.filter(p)`. */
  function Filter<T>(s: seq<T>, p: T -> bool): (r: seq<T>)
    ensures |r| <= |s|
    ensures forall i :: 0 <= i < |r| ==> r[i] in s && p(r[i])
    ensures forall i :: 0 <= i < |s| && p(s[i]) ==> s[i] in r
  {
    if s == [] then [] else (if p(s[0]) then [s[0]] else []) + Filter(s[1..], p)
  }

  lemma {:induction false} FilterAppend<T>(a: seq<T>, b: seq<T>, p: T -> bool)
    ensures Filter(a + b, p) == Filter(a, p) + Filter(b, p)
  {
    if a == [] {
      assert a + b == b;
    } else {
      assert (a + b)[1..] == a[1..] + b;
      FilterAppend(a[1..], b, p);
    }
  }

  /** A filter that keeps everything changes nothing. */
  lemma {:induction false} FilterAll<T>(s: seq<T>, p: T -> bool)
    requires forall i :: 0 <= i < |s| ==> p(s[i])
    ensures Filter(s, p) == s
  {
    if s != [] {
      FilterAll(s[1..], p);
    }
  }

  /** Concatenation is associative; stated so that callers need not prove
      it element by element. */
  lemma AppendAssoc<T>(a: seq<T>, b: seq<T>, c: seq<T>)
    ensures a + b + c == a + (b + c)
  {
  }

  /** Indexing inside the front of a concatenation reads the front. */
  lemma IndexInFront<T>(front: seq<T>, last: seq<T>, k: int)
    requires 0 <= k < |front|
    ensures |front + last| == |front| + |last|
    ensures (front + last)[k] == front[k]
  {
  }

  /** Indexing past the front of a concatenation reads its last part. */
  lemma IndexInLast<T>(front: seq<T>, last: seq<T>, k: int)
    requires 0 <= k < |last|
    ensures |front + last| == |front| + |last|
    ensures (front + last)[|front| + k] == last[k]
  {
  }

  /** A slice inside the front of a concatenation is a slice of the front. */
  lemma SliceInFront<T>(front: seq<T>, last: seq<T>, i: int, j: int)
    requires 0 <= i <= j <= |front|
    ensures (front + last)[i..j] == front[i..j]
  {
  }

  /** The slice past the front of a concatenation is its last part. */
  lemma SliceOfLast<T>(front: seq<T>, last: seq<T>)
    ensures (front + last)[|front|..] == last
  {
  }

  /** Indexing below the head of a six-block tail reads the head. */
  lemma IndexBeforeTail<T>(head: seq<T>, a: seq<T>, b: seq<T>, c: seq<T>, d: seq<T>, e: seq<T>, f: seq<T>, k: int)
    requires 0 <= k < |head|
    ensures k < |head + a + b + c + d + e + f|
    ensures (head + a + b + c + d + e + f)[k] == head[k]
  {
  }

  /** `s.slice(-n)` for n > 0: the last n elements, or all of them. */
  function TakeLast<T>(s: seq<T>, n: nat): (r: seq<T>)
    ensures |r| == if n < |s| then n else |s|
    ensures r == s[|s| - |r|..]
  {
    if n < |s| then s[|s| - n..] else s
  }

  /** A filter that keeps nothing yields the empty sequence. */
  lemma {:induction false} FilterNone<T>(s: seq<T>, p: T -> bool)
    requires forall i :: 0 <= i < |s| ==> !p(s[i])
    ensures Filter(s, p) == []
  {
    if s != [] {
      FilterNone(s[1..], p);
    }
  }

  /** `s.slice(0, n)`. */
  function Take<T>(s: seq<T>, n: nat): (r: seq<T>)
    ensures |r| == if n < |s| then n else |s|
    ensures r == s[..|r|]
  {
    if n < |s| then s[..n] else s
  }

  /** The end index `slice(0, end)` on a string or an array
      actually uses for a length `len`: a negative end counts back from the end. */
  function SliceEnd(len: nat, end: int): (r: nat)
    ensures r <= len
    ensures 0 <= end <= len ==> r == end
    ensures end < 0 ==> r == if len + end < 0 then 0 else len + end
  {
    if end < 0 then (if len + end < 0 then 0 else len + end)
    else if end > len then len
    else end
  }

  /** `s.slice(0, end)` on an array, with JavaScript's reading of a
      negative or too large `end`. */
  function SliceTo<T>(s: seq<T>, end: int): (r: seq<T>)
    ensures |r| <= |s|
    ensures 0 <= end ==> |r| <= end
    ensures r == s[..|r|]
  {
    s[..SliceEnd(|s|, end)]
  }

  function Sum(xs: seq<nat>): nat {
    if xs == [] then 0 else xs[0] + Sum(xs[1..])
  }

  predicate Distinct<T(==)>(s: seq<T>) {
    forall i, j :: 0 <= i < j < |s| ==> s[i] != s[j]
  }

  /** A sequence has no repeated element exactly when no element occurs
      twice in its multiset. */
  lemma {:induction false} DistinctMultiplicity<T>(s: seq<T>)
    ensures Distinct(s) <==> forall x :: multiset(s)[x] <= 1
  {
    if s != [] {
      DistinctMultiplicity(s[1..]);
      assert s == [s[0]] + s[1..];
      assert multiset(s) == multiset{s[0]} + multiset(s[1..]);
      if Distinct(s) {
        assert s[0] !in s[1..];
      }
      if forall x :: multiset(s)[x] <= 1 {
        forall x ensures multiset(s[1..])[x] <= 1 {
          assert multiset(s)[x] == multiset{s[0]}[x] + multiset(s[1..])[x];
        }
        forall i, j | 0 <= i < j < |s| ensures s[i] != s[j] {
          if i == 0 {
            assert s[j] == s[1..][j - 1];
            assert s[j] in multiset(s[1..]);
            assert multiset(s)[s[0]] == 1 + multiset(s[1..])[s[0]];
          } else {
            assert s[1..][i - 1] == s[i] && s[1..][j - 1] == s[j];
          }
        }
      }
    }
  }
}
