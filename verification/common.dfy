/** Small shared vocabulary: an Option type for the source's `None` results,
    Python's `str.join`, list repetition, list reversal and subsequences. */
module Common {

  /** Python's `None`-or-value results. */
  datatype Option<+T> = None | Some(value: T)

  /** `sep.join(xs)` in Python. */
  function Join(xs: seq<string>, sep: string): string
    decreases |xs|
  {
    if |xs| == 0 then ""
    else if |xs| == 1 then xs[0]
    else xs[0] + sep + Join(xs[1..], sep)
  }

  /** `[x] * n` in Python. */
  function Repeat<T>(x: T, n: nat): (r: seq<T>)
    ensures |r| == n
    ensures forall i :: 0 <= i < n ==> r[i] == x
  {
    if n == 0 then [] else [x] + Repeat(x, n - 1)
  }

  /** `list.reverse()` as a value. */
  function Reverse<T>(s: seq<T>): (r: seq<T>)
    ensures |r| == |s|
  {
    if |s| == 0 then [] else Reverse(s[1..]) + [s[0]]
  }

  /** Position i of the reversal holds position `|s| - 1 - i` of the original. */
  lemma {:induction false} ReverseAt<T>(s: seq<T>, i: nat)
    requires i < |s|
    ensures Reverse(s)[i] == s[|s| - 1 - i]
    decreases |s|
  {
    if i < |s| - 1 {
      ReverseAt(s[1..], i);
    }
  }

  /** `r` can be obtained from `s` by deleting elements, keeping the order. */
  predicate IsSubsequence<T(==)>(r: seq<T>, s: seq<T>)
    decreases |s|
  {
    if |s| == 0 then |r| == 0
    else IsSubsequence(r, s[1..]) || (|r| > 0 && r[0] == s[0] && IsSubsequence(r[1..], s[1..]))
  }

  /** The elements of `s` that pass `p`, in their original order. */
  function Filter<T>(s: seq<T>, p: T -> bool): (r: seq<T>)
    ensures |r| <= |s|
    ensures forall i :: 0 <= i < |r| ==> p(r[i])
    ensures IsSubsequence(r, s)
    decreases |s|
  {
    if |s| == 0 then []
    else if p(s[0]) then
      assert ([s[0]] + Filter(s[1..], p))[1..] == Filter(s[1..], p);
      [s[0]] + Filter(s[1..], p)
    else Filter(s[1..], p)
  }

  /** Every element of `s` that passes `p` is kept. */
  lemma {:induction false} FilterKeeps<T>(s: seq<T>, p: T -> bool, i: nat)
    requires i < |s| && p(s[i])
    ensures s[i] in Filter(s, p)
    decreases i
  {
    if i > 0 {
      FilterKeeps(s[1..], p, i - 1);
    }
  }

  /** Filtering by two tests that agree on every element gives the same result. */
  lemma {:induction false} FilterCongruent<T>(s: seq<T>, p: T -> bool, q: T -> bool)
    requires forall i :: 0 <= i < |s| ==> p(s[i]) == q(s[i])
    ensures Filter(s, p) == Filter(s, q)
    decreases |s|
  {
    if |s| > 0 {
      FilterCongruent(s[1..], p, q);
    }
  }

  /** A test that every element passes keeps everything. */
  lemma {:induction false} FilterAll<T>(s: seq<T>, p: T -> bool)
    requires forall i :: 0 <= i < |s| ==> p(s[i])
    ensures Filter(s, p) == s
    decreases |s|
  {
    if |s| > 0 {
      FilterAll(s[1..], p);
    }
  }

  /** A test that no element passes keeps nothing. */
  lemma {:induction false} FilterNone<T>(s: seq<T>, p: T -> bool)
    requires forall i :: 0 <= i < |s| ==> !p(s[i])
    ensures Filter(s, p) == []
    decreases |s|
  {
    if |s| > 0 {
      FilterNone(s[1..], p);
    }
  }

  /** Filtering distributes over concatenation. */
  lemma {:induction false} FilterAppend<T>(a: seq<T>, b: seq<T>, p: T -> bool)
    ensures Filter(a + b, p) == Filter(a, p) + Filter(b, p)
    decreases |a|
  {
    if |a| == 0 {
      assert a + b == b;
    } else {
      assert (a + b)[0] == a[0];
      assert (a + b)[1..] == a[1..] + b;
      FilterAppend(a[1..], b, p);
    }
  }

  /** A filtered element came from the input. */
  lemma {:induction false} FilterFrom<T>(s: seq<T>, p: T -> bool, j: nat)
    requires j < |Filter(s, p)|
    ensures Filter(s, p)[j] in s
    decreases |s|
  {
    if p(s[0]) {
      if j > 0 {
        FilterFrom(s[1..], p, j - 1);
      }
    } else {
      FilterFrom(s[1..], p, j);
    }
  }

  /** Appending one more item to a non-empty join adds one separator and the item. */
  lemma {:induction false} JoinSnoc(xs: seq<string>, y: string, sep: string)
    requires |xs| > 0
    ensures Join(xs + [y], sep) == Join(xs, sep) + sep + y
    decreases |xs|
  {
    if |xs| == 1 {
      assert xs + [y] == [xs[0], y];
      assert (xs + [y])[1..] == [y];
    } else {
      assert (xs + [y])[1..] == xs[1..] + [y];
      JoinSnoc(xs[1..], y, sep);
    }
  }

  /** A join over a growing prefix: the first item alone, then one separator and one item at a time. */
  lemma JoinPrefixStep(xs: seq<string>, j: nat, sep: string)
    requires j < |xs|
    ensures Join(xs[..j + 1], sep) == if j == 0 then xs[0] else Join(xs[..j], sep) + sep + xs[j]
  {
    assert xs[..j + 1] == xs[..j] + [xs[j]];
    if j == 0 {
      assert xs[..1] == [xs[0]];
    } else {
      JoinSnoc(xs[..j], xs[j], sep);
    }
  }

  /** Reversing twice gives back the original list. */
  lemma ReverseReverse<T>(s: seq<T>)
    ensures Reverse(Reverse(s)) == s
  {
    forall i | 0 <= i < |s| ensures Reverse(Reverse(s))[i] == s[i] {
      ReverseAt(Reverse(s), i);
      ReverseAt(s, |s| - 1 - i);
    }
  }

  /** Every list is a subsequence of itself. */
  lemma {:induction false} SubsequenceReflexive<T>(s: seq<T>)
    ensures IsSubsequence(s, s)
    decreases |s|
  {
    if |s| > 0 {
      SubsequenceReflexive(s[1..]);
    }
  }
}
