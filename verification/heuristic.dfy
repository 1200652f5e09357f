/** The decline heuristic of `find_valid_symbol_bymodel`.

    A stored list of day offsets ("algorithm") is reversed; prices are sampled
    from a newest-first closing-price series at the partial sums of the
    reversed list (skipping its first entry), and a symbol is accepted when
    the sampled prices strictly decrease. Prices are integers here. */
module Heuristic {
  import opened Common

  /** Python's `sum` of an integer list, added left to right. */
  function Sum(s: seq<int>): int
    decreases |s|
  {
    if |s| == 0 then 0 else Sum(s[..|s| - 1]) + s[|s| - 1]
  }

  lemma {:induction false} SumAppend(a: seq<int>, b: seq<int>)
    ensures Sum(a + b) == Sum(a) + Sum(b)
    decreases |b|
  {
    if |b| == 0 {
      assert a + b == a;
    } else {
      assert (a + b)[..|a + b| - 1] == a + b[..|b| - 1];
      SumAppend(a, b[..|b| - 1]);
    }
  }

  /** Reversing the offsets does not change their total. */
  lemma {:induction false} SumReverse(a: seq<int>)
    ensures Sum(Reverse(a)) == Sum(a)
    decreases |a|
  {
    if |a| > 0 {
      SumReverse(a[1..]);
      SumAppend(Reverse(a[1..]), [a[0]]);
      assert [a[0]] + a[1..] == a;
      SumAppend([a[0]], a[1..]);
      assert Sum([a[0]]) == a[0] by {
        assert [a[0]][..0] == [];
      }
    }
  }

  /** Python's `~x` on an integer. */
  function PyInvert(x: int): int
  {
    -x - 1
  }

  /** The day shift `~(sum(algorithm) + 15) + 1` handed to the date helper. */
  function Lookback(algorithm: seq<int>): (d: int)
    ensures d == -(Sum(algorithm) + 15)
  {
    PyInvert(Sum(algorithm) + 15) + 1
  }

  /** The fetch window is the same whichever way round the offsets currently are. */
  lemma LookbackIgnoresOrientation(algorithm: seq<int>)
    ensures Lookback(Reverse(algorithm)) == Lookback(algorithm)
  {
    SumReverse(algorithm);
  }

  /** `b = sum(a[1:1 + i])`: the position sampled for the i-th price. */
  function SampleIndex(a: seq<int>, i: nat): int
    requires i < |a|
  {
    Sum(a[1..1 + i])
  }

  /** Sample 0 is the newest price; each later sample lies `a[i + 1]` rows
      further into the past than the one before. */
  lemma SampleIndexStep(a: seq<int>, i: nat)
    requires i + 1 < |a|
    ensures SampleIndex(a, 0) == 0
    ensures SampleIndex(a, i + 1) == SampleIndex(a, i) + a[i + 1]
  {
    assert a[1..2 + i][..i] == a[1..1 + i];
  }

  /** `series.iloc[b]`: non-negative positions count from the front, negative ones from the back. */
  function ILoc(p: seq<int>, b: int): int
    requires -|p| <= b < |p|
  {
    if b >= 0 then p[b] else p[|p| + b]
  }

  /** Every sample position is one `iloc` accepts. */
  predicate SamplesInRange(a: seq<int>, p: seq<int>)
  {
    forall i :: 0 <= i < |a| ==> -|p| <= SampleIndex(a, i) < |p|
  }

  /** The sampled prices, `price[0]`, ..., `price[len(a) - 1]`. */
  function Samples(a: seq<int>, p: seq<int>): (s: seq<int>)
    requires SamplesInRange(a, p)
    ensures |s| == |a|
    ensures forall i :: 0 <= i < |a| ==> s[i] == ILoc(p, SampleIndex(a, i))
  {
    seq(|a|, i requires 0 <= i < |a| => ILoc(p, SampleIndex(a, i)))
  }

  /** Each price is strictly below the one before it. */
  predicate StrictlyDecreasing(s: seq<int>)
    decreases |s|
  {
    |s| < 2 || (s[1] < s[0] && StrictlyDecreasing(s[1..]))
  }

  /** Every later price is strictly below every earlier one. */
  predicate Descending(s: seq<int>)
  {
    forall i, j :: 0 <= i < j < |s| ==> s[j] < s[i]
  }

  /** Comparing neighbours is enough: a strictly decreasing list is
      descending in every pair, and conversely. */
  lemma {:induction false} StrictlyDecreasingIffDescending(s: seq<int>)
    ensures StrictlyDecreasing(s) <==> Descending(s)
    decreases |s|
  {
    if |s| >= 2 {
      StrictlyDecreasingIffDescending(s[1..]);
      if StrictlyDecreasing(s) {
        forall i, j | 0 <= i < j < |s| ensures s[j] < s[i] {
          assert s[j] == s[1..][j - 1];
          if i > 0 {
            assert s[i] == s[1..][i - 1];
          } else if j > 1 {
            assert s[1] == s[1..][0];
          }
        }
      }
      if Descending(s) {
        forall i, j | 0 <= i < j < |s[1..]| ensures s[1..][j] < s[1..][i] {
          assert s[1..][j] == s[j + 1] && s[1..][i] == s[i + 1];
        }
      }
    }
  }

  /** The per-symbol body raises: with no offsets `price[0]` is a `KeyError`,
      and a sample position outside the series is an `IndexError`. */
  predicate Raises(a: seq<int>, p: seq<int>)
  {
    |a| == 0 || !SamplesInRange(a, p)
  }

  /** The outcome of the per-symbol body under the offsets as they stand:
      `None` when it raises, otherwise whether the symbol is appended. */
  function Outcome(a: seq<int>, p: seq<int>): Option<bool>
  {
    if Raises(a, p) then None else Some(StrictlyDecreasing(Samples(a, p)))
  }

  /** The body of the per-symbol loop, once `a` has been reversed: sample the
      prices, then walk them keeping the last accepted price (the source's
      `max`) and stop at the first price that is not strictly below it.
      `stop` is the index at which the walk ended. */
  method CheckSymbol(a: seq<int>, p: seq<int>) returns (accepted: bool, stop: nat)
    requires |a| > 0
    requires SamplesInRange(a, p)
    ensures accepted <==> Descending(Samples(a, p))
    ensures stop < |a|
    ensures accepted ==> stop == |a| - 1
    ensures !accepted ==> stop + 1 < |a|
                          && Samples(a, p)[stop + 1] >= Samples(a, p)[stop]
                          && Descending(Samples(a, p)[..stop + 1])
  {
    var price: seq<int> := [];
    var i := 0;
    while i < |a|
      invariant 0 <= i <= |a|
      invariant price == Samples(a, p)[..i]
    {
      var b := Sum(a[1..1 + i]);
      assert b == SampleIndex(a, i);
      price := price + [ILoc(p, b)];
      i := i + 1;
    }
    assert price == Samples(a, p);
    accepted := true;
    var last := price[0];
    i := 0;
    while i < |a| - 1
      invariant 0 <= i <= |a| - 1
      invariant last == price[i]
      invariant Descending(price[..i + 1])
    {
      if price[i + 1] < last {
        last := price[i + 1];
      } else {
        accepted := false;
        break;
      }
      assert price[..i + 2] == price[..i + 1] + [price[i + 1]];
      i := i + 1;
    }
    assert accepted ==> price[..i + 1] == price;
    stop := i;
  }

  /** The list `algorithm` as it stands when candidate k (counting from 0)
      is reached: `a = algorithm` aliases the list rather than copying it, so
      each candidate's `a.reverse()` reverses the stored list in place. */
  function AsWrittenState(algorithm: seq<int>, k: nat): seq<int>
    decreases k
  {
    if k == 0 then algorithm else Reverse(AsWrittenState(algorithm, k - 1))
  }

  /** The offsets candidate k is checked against: the state after its reversal. */
  function AsWrittenOffsets(algorithm: seq<int>, k: nat): seq<int>
  {
    AsWrittenState(algorithm, k + 1)
  }

  /** The in-place reversals alternate: even candidates see the reversed
      offsets, odd candidates the stored order. */
  lemma {:induction false} AsWrittenAlternates(algorithm: seq<int>, k: nat)
    ensures AsWrittenOffsets(algorithm, k) == if k % 2 == 0 then Reverse(algorithm) else algorithm
    decreases k
  {
    if k > 0 {
      AsWrittenAlternates(algorithm, k - 1);
      ReverseReverse(algorithm);
    }
  }

  /** The outcome for each candidate k: its price series `series[k]` checked
      against the offsets `offsets[k]`. */
  function Outcomes(offsets: seq<seq<int>>, series: seq<seq<int>>): (o: seq<Option<bool>>)
    requires |offsets| == |series|
    ensures |o| == |series|
    ensures forall k :: 0 <= k < |series| ==> o[k] == Outcome(offsets[k], series[k])
  {
    seq(|series|, k requires 0 <= k < |series| => Outcome(offsets[k], series[k]))
  }

  /** Some candidate's body raises, so the exception escapes the whole call. */
  predicate SomeRaise(outcomes: seq<Option<bool>>)
  {
    exists k :: 0 <= k < |outcomes| && outcomes[k].None?
  }

  /** The items whose outcome is acceptance, in order (`valid_symbol_list.append`). */
  function Pick(outcomes: seq<Option<bool>>, items: seq<string>): seq<string>
    requires |outcomes| == |items|
    decreases |items|
  {
    if |items| == 0 then []
    else (if outcomes[0] == Some(true) then [items[0]] else []) + Pick(outcomes[1..], items[1..])
  }

  /** The picked items are a subsequence of the candidates. */
  lemma {:induction false} PickIsSubsequence(outcomes: seq<Option<bool>>, items: seq<string>)
    requires |outcomes| == |items|
    ensures IsSubsequence(Pick(outcomes, items), items)
    decreases |items|
  {
    if |items| > 0 {
      var rest := Pick(outcomes[1..], items[1..]);
      PickIsSubsequence(outcomes[1..], items[1..]);
      if outcomes[0] == Some(true) {
        assert ([items[0]] + rest)[1..] == rest;
      } else {
        assert Pick(outcomes, items) == [] + rest == rest;
      }
    }
  }

  /** Every accepted candidate is picked. */
  lemma {:induction false} PickKeepsAccepted(outcomes: seq<Option<bool>>, items: seq<string>, k: nat)
    requires |outcomes| == |items|
    requires k < |items| && outcomes[k] == Some(true)
    ensures items[k] in Pick(outcomes, items)
    decreases |items|
  {
    if k > 0 {
      PickKeepsAccepted(outcomes[1..], items[1..], k - 1);
    }
  }

  /** Only accepted candidates are picked. */
  lemma {:induction false} PickOnlyAccepted(outcomes: seq<Option<bool>>, items: seq<string>, x: string)
    requires |outcomes| == |items|
    requires x in Pick(outcomes, items)
    ensures exists k :: 0 <= k < |items| && items[k] == x && outcomes[k] == Some(true)
    decreases |items|
  {
    var rest := Pick(outcomes[1..], items[1..]);
    if x in rest {
      PickOnlyAccepted(outcomes[1..], items[1..], x);
      var k :| 0 <= k < |items[1..]| && items[1..][k] == x && outcomes[1..][k] == Some(true);
      assert items[k + 1] == x && outcomes[k + 1] == Some(true);
    } else {
      assert items[0] == x && outcomes[0] == Some(true);
    }
  }

  /** Picking from two lists one after the other is picking from their concatenation. */
  lemma {:induction false} PickAppend(o1: seq<Option<bool>>, s1: seq<string>, o2: seq<Option<bool>>, s2: seq<string>)
    requires |o1| == |s1| && |o2| == |s2|
    ensures Pick(o1 + o2, s1 + s2) == Pick(o1, s1) + Pick(o2, s2)
    decreases |s1|
  {
    if |s1| == 0 {
      assert o1 + o2 == o2 && s1 + s2 == s2;
    } else {
      assert (o1 + o2)[1..] == o1[1..] + o2;
      assert (s1 + s2)[1..] == s1[1..] + s2;
      PickAppend(o1[1..], s1[1..], o2, s2);
    }
  }

  /** Extending the prefix by one appends that item if it was accepted. */
  lemma PickPrefixStep(outcomes: seq<Option<bool>>, items: seq<string>, k: nat)
    requires |outcomes| == |items| && k < |items|
    ensures Pick(outcomes[..k + 1], items[..k + 1])
         == Pick(outcomes[..k], items[..k]) + (if outcomes[k] == Some(true) then [items[k]] else [])
  {
    assert outcomes[..k + 1] == outcomes[..k] + [outcomes[k]];
    assert items[..k + 1] == items[..k] + [items[k]];
    PickAppend(outcomes[..k], items[..k], [outcomes[k]], [items[k]]);
    assert [outcomes[k]][1..] == [] && [items[k]][1..] == [];
  }

  /** Offsets for each of n candidates as the source computes them. */
  function AsWrittenSchedule(algorithm: seq<int>, n: nat): (o: seq<seq<int>>)
    ensures |o| == n
    ensures forall k :: 0 <= k < n ==> o[k] == AsWrittenOffsets(algorithm, k)
  {
    seq(n, k requires 0 <= k < n => AsWrittenOffsets(algorithm, k))
  }

  /** Offsets for each of n candidates as intended: the reversed list every time. */
  function FixedSchedule(algorithm: seq<int>, n: nat): (o: seq<seq<int>>)
    ensures |o| == n
    ensures forall k :: 0 <= k < n ==> o[k] == Reverse(algorithm)
  {
    Repeat(Reverse(algorithm), n)
  }

  /** The whole per-symbol body, from sampling to the verdict. */
  method SymbolOutcome(a: seq<int>, p: seq<int>) returns (r: Option<bool>)
    ensures r == Outcome(a, p)
  {
    if |a| == 0 || !SamplesInRange(a, p) {
      return None;
    }
    var accepted, _ := CheckSymbol(a, p);
    StrictlyDecreasingIffDescending(Samples(a, p));
    return Some(accepted);
  }

  /** `find_valid_symbol_bymodel` as written, with the stored offsets, the
      candidate symbols and each candidate's newest-first closing prices as
      inputs; `None` stands for the exception that escapes when some
      candidate's body raises. The aliased list is reversed once per
      candidate. */
  method FindValidSymbols(algorithm: seq<int>, symbols: seq<string>, series: seq<seq<int>>)
    returns (valid: Option<seq<string>>)
    requires |series| == |symbols|
    ensures valid.None? <==> SomeRaise(Outcomes(AsWrittenSchedule(algorithm, |symbols|), series))
    ensures valid.Some? ==> valid.value == Pick(Outcomes(AsWrittenSchedule(algorithm, |symbols|), series), symbols)
  {
    ghost var outcomes := Outcomes(AsWrittenSchedule(algorithm, |symbols|), series);
    var picked := [];
    var a := algorithm;
    var k := 0;
    while k < |symbols|
      invariant 0 <= k <= |symbols|
      invariant a == AsWrittenState(algorithm, k)
      invariant forall m :: 0 <= m < k ==> outcomes[m].Some?
      invariant picked == Pick(outcomes[..k], symbols[..k])
    {
      a := Reverse(a);
      var outcome := SymbolOutcome(a, series[k]);
      assert outcome == outcomes[k];
      if outcome.None? {
        return None;
      }
      PickPrefixStep(outcomes, symbols, k);
      if outcome.value {
        picked := picked + [symbols[k]];
      }
      k := k + 1;
    }
    assert outcomes[..k] == outcomes && symbols[..k] == symbols;
    valid := Some(picked);
  }

  /** `find_valid_symbol_bymodel` as evidently intended: every candidate is
      checked against the reversed offsets. */
  method FindValidSymbolsFixed(algorithm: seq<int>, symbols: seq<string>, series: seq<seq<int>>)
    returns (valid: Option<seq<string>>)
    requires |series| == |symbols|
    ensures valid.None? <==> SomeRaise(Outcomes(FixedSchedule(algorithm, |symbols|), series))
    ensures valid.Some? ==> valid.value == Pick(Outcomes(FixedSchedule(algorithm, |symbols|), series), symbols)
  {
    ghost var outcomes := Outcomes(FixedSchedule(algorithm, |symbols|), series);
    var a := Reverse(algorithm);
    var picked := [];
    var k := 0;
    while k < |symbols|
      invariant 0 <= k <= |symbols|
      invariant forall m :: 0 <= m < k ==> outcomes[m].Some?
      invariant picked == Pick(outcomes[..k], symbols[..k])
    {
      var outcome := SymbolOutcome(a, series[k]);
      assert outcome == outcomes[k];
      if outcome.None? {
        return None;
      }
      PickPrefixStep(outcomes, symbols, k);
      if outcome.value {
        picked := picked + [symbols[k]];
      }
      k := k + 1;
    }
    assert outcomes[..k] == outcomes && symbols[..k] == symbols;
    valid := Some(picked);
  }

  /** With one schedule for every candidate, a candidate's outcome does not
      depend on its place in the list: selecting from two lists one after the
      other is selecting from their concatenation. */
  lemma FixedSelectionAppend(algorithm: seq<int>, s1: seq<string>, p1: seq<seq<int>>, s2: seq<string>, p2: seq<seq<int>>)
    requires |p1| == |s1| && |p2| == |s2|
    ensures Pick(Outcomes(FixedSchedule(algorithm, |s1| + |s2|), p1 + p2), s1 + s2)
         == Pick(Outcomes(FixedSchedule(algorithm, |s1|), p1), s1) + Pick(Outcomes(FixedSchedule(algorithm, |s2|), p2), s2)
  {
    var o := Outcomes(FixedSchedule(algorithm, |s1| + |s2|), p1 + p2);
    var o1 := Outcomes(FixedSchedule(algorithm, |s1|), p1);
    var o2 := Outcomes(FixedSchedule(algorithm, |s2|), p2);
    assert o == o1 + o2 by {
      forall k | 0 <= k < |o| ensures o[k] == (o1 + o2)[k] {
        if k < |s1| {
          assert (p1 + p2)[k] == p1[k];
        } else {
          assert (p1 + p2)[k] == p2[k - |s1|];
        }
      }
    }
    PickAppend(o1, s1, o2, s2);
  }

  /** The series used below: prices 10, 10, 10, 9, 10, 11, newest first. */
  function ExampleSeries(): seq<int>
  {
    [10, 10, 10, 9, 10, 11]
  }

  lemma ReversedExampleAccepted()
    ensures Outcome(Reverse([3, 5]), ExampleSeries()) == Some(true)
  {
    var rev := Reverse([3, 5]);
    assert rev == [5, 3];
    assert SampleIndex(rev, 1) == 3 by {
      assert rev[1..2] == [3];
      assert [3][..0] == [];
    }
    assert Samples(rev, ExampleSeries()) == [10, 9];
  }

  lemma StoredExampleRejected()
    ensures Outcome([3, 5], ExampleSeries()) == Some(false)
  {
    assert SampleIndex([3, 5], 1) == 5 by {
      assert [3, 5][1..2] == [5];
      assert [5][..0] == [];
    }
    assert SampleIndex([3, 5], 0) == 0;
    assert SamplesInRange([3, 5], ExampleSeries());
    assert Samples([3, 5], ExampleSeries()) == [10, 11];
  }

  /** Picking from two items is the two outcomes in order. */
  lemma PickPair(o: seq<Option<bool>>, s: seq<string>)
    requires |o| == |s| == 2
    ensures Pick(o, s) == (if o[0] == Some(true) then [s[0]] else []) + (if o[1] == Some(true) then [s[1]] else [])
  {
    assert Pick(o[1..][1..], s[1..][1..]) == [];
    assert Pick(o[1..], s[1..]) == (if o[1] == Some(true) then [s[1]] else []);
  }

  /** With offsets [3, 5], two candidates with identical prices get different
      verdicts as written: the first is sampled at rows 0 and 3 (10 then 9,
      accepted), the second, after the list has flipped back, at rows 0 and 5
      (10 then 11, rejected). Neither raises, so the call returns `["A"]`.
      Checked against the reversed offsets every time, both are accepted. */
  lemma AlternationCounterexample()
    ensures !SomeRaise(Outcomes(AsWrittenSchedule([3, 5], 2), [ExampleSeries(), ExampleSeries()]))
    ensures Pick(Outcomes(AsWrittenSchedule([3, 5], 2), [ExampleSeries(), ExampleSeries()]), ["A", "B"]) == ["A"]
    ensures !SomeRaise(Outcomes(FixedSchedule([3, 5], 2), [ExampleSeries(), ExampleSeries()]))
    ensures Pick(Outcomes(FixedSchedule([3, 5], 2), [ExampleSeries(), ExampleSeries()]), ["A", "B"]) == ["A", "B"]
  {
    ReversedExampleAccepted();
    StoredExampleRejected();
    var series := [ExampleSeries(), ExampleSeries()];
    var asWritten := Outcomes(AsWrittenSchedule([3, 5], 2), series);
    AsWrittenAlternates([3, 5], 0);
    AsWrittenAlternates([3, 5], 1);
    assert AsWrittenSchedule([3, 5], 2) == [Reverse([3, 5]), [3, 5]];
    assert asWritten[0] == Some(true);
    assert asWritten[1] == Some(false);
    PickPair(asWritten, ["A", "B"]);
    var fixed := Outcomes(FixedSchedule([3, 5], 2), series);
    assert fixed[0] == Some(true) && fixed[1] == Some(true);
    PickPair(fixed, ["A", "B"]);
  }
}
