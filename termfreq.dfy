/**
  The document model shared by the three variants: a dense term-frequency
  vector over the vocabulary indices, the number of distinct terms of the
  document, and the initial log-probability vector that is `log(1/n_distinct)`
  on the terms of the document and `log 0` elsewhere.
 */
module TermFrequency {
  import opened LogSpace

  /** The vocabulary index of each token of a document whose tokens are all known. */
  function Indices<T>(vocab: map<T, nat>, d: seq<T>): seq<nat>
    requires forall t | t in d :: t in vocab
  {
    seq(|d|, k requires 0 <= k < |d| => vocab[d[k]])
  }

  /** Position `k` holds the first token missing from the vocabulary. */
  ghost predicate FirstUnknown<T>(vocab: map<T, nat>, d: seq<T>, k: nat)
  {
    k < |d| && d[k] !in vocab && forall j | 0 <= j < k :: d[j] in vocab
  }

  /** One unit of frequency per token (`tf[i] += 1`). */
  function Units(n: nat): seq<real>
  {
    seq(n, _ => 1.0)
  }

  /** The frequency that the tokens with index `i` add up to. */
  function IndexTotal(idx: seq<nat>, ws: seq<real>, i: nat): real
    requires |idx| == |ws|
  {
    if idx == [] then 0.0
    else
      var n := |idx| - 1;
      IndexTotal(idx[..n], ws[..n], i) + (if idx[n] == i then ws[n] else 0.0)
  }

  /** `tf = zeros(n)`, then `tf[idx[k]] += ws[k]` for every token `k`. */
  function TermFreq(idx: seq<nat>, ws: seq<real>, n: nat): seq<real>
    requires |idx| == |ws|
  {
    seq(n, i requires 0 <= i < n => IndexTotal(idx, ws, i))
  }

  /** `tf -= (tf < thresh) * tf`: the entries below `thresh` become zero. */
  function Threshold(tf: seq<real>, thresh: int): seq<real>
  {
    seq(|tf|, i requires 0 <= i < |tf| => if tf[i] < thresh as real then 0.0 else tf[i])
  }

  /** `(tf > 0).sum()`. */
  function CountPositive(tf: seq<real>): nat
  {
    if tf == [] then 0
    else CountPositive(tf[..|tf| - 1]) + (if tf[|tf| - 1] > 0.0 then 1 else 0)
  }

  /** The indices at which the frequency is positive. */
  ghost function Positive(tf: seq<real>): set<nat>
  {
    set i: nat | i < |tf| && tf[i] > 0.0
  }

  /** `np.log(tf > 0) - np.log(n_distinct)`: the log of a boolean is 0 or
      minus infinity. */
  function InitialLogProb(num: Numerics, tf: seq<real>): seq<LogP>
  {
    seq(|tf|, i requires 0 <= i < |tf| =>
      Sub(if tf[i] > 0.0 then Finite(0.0) else NegInf, Log(num, CountPositive(tf) as real)))
  }

  /** The incremental `n_distinct`: one more each time a token's index still
      has `tf[i] == 0` when it is read. */
  function Touches(idx: seq<nat>, ws: seq<real>): nat
    requires |idx| == |ws|
  {
    if idx == [] then 0
    else
      var n := |idx| - 1;
      Touches(idx[..n], ws[..n]) + (if IndexTotal(idx[..n], ws[..n], idx[n]) == 0.0 then 1 else 0)
  }

  /** The incremental `p_term`: `-inf` everywhere, `0` at every index read,
      then `p_term -= log(n_distinct)`. */
  function TouchedLogProb(num: Numerics, idx: seq<nat>, ws: seq<real>, n: nat): seq<LogP>
    requires |idx| == |ws|
  {
    seq(n, i => Sub(if i in idx then Finite(0.0) else NegInf, Log(num, Touches(idx, ws) as real)))
  }

  /** A log-probability vector whose support is the set of terms with
      positive frequency: finite there, `log 0` elsewhere. */
  ghost predicate SupportedBy(v: seq<LogP>, tf: seq<real>)
  {
    |v| == |tf| &&
    forall i | 0 <= i < |tf| :: (tf[i] > 0.0 ==> v[i].Finite?) && (tf[i] <= 0.0 ==> v[i] == NegInf)
  }

  ghost predicate NonNegative(tf: seq<real>)
  {
    forall i | 0 <= i < |tf| :: tf[i] >= 0.0
  }

  // ---------------------------------------------------------------------
  // Term frequencies

  lemma IndicesSnoc<T>(vocab: map<T, nat>, d: seq<T>)
    requires d != [] && forall t | t in d :: t in vocab
    ensures Indices(vocab, d) == Indices(vocab, d[..|d| - 1]) + [vocab[d[|d| - 1]]]
  {
  }

  /** Reading one more token adds its weight at its index and nowhere else. */
  lemma TermFreqSnoc(idx: seq<nat>, ws: seq<real>, i: nat, x: real, n: nat)
    requires |idx| == |ws| && i < n
    ensures TermFreq(idx + [i], ws + [x], n) == TermFreq(idx, ws, n)[i := TermFreq(idx, ws, n)[i] + x]
  {
    assert (idx + [i])[..|idx|] == idx;
    assert (ws + [x])[..|idx|] == ws;
  }

  /** With an injective vocabulary, `tf[vocab[t]]` is the number of times `t`
      occurs in the document. */
  lemma {:induction false} TermFreqCounts<T>(vocab: map<T, nat>, d: seq<T>, t: T)
    requires forall t' | t' in d :: t' in vocab
    requires forall a, b | a in vocab && b in vocab && vocab[a] == vocab[b] :: a == b
    requires t in vocab
    ensures IndexTotal(Indices(vocab, d), Units(|d|), vocab[t]) == multiset(d)[t] as real
  {
    if d != [] {
      var n := |d| - 1;
      IndicesSnoc(vocab, d);
      assert Units(|d|)[..n] == Units(n);
      TermFreqCounts(vocab, d[..n], t);
      assert d == d[..n] + [d[n]];
    }
  }

  /** Every count is non-negative when every weight is. */
  lemma {:induction false} IndexTotalNonNegative(idx: seq<nat>, ws: seq<real>, i: nat)
    requires |idx| == |ws| && NonNegative(ws)
    ensures IndexTotal(idx, ws, i) >= 0.0
  {
    if idx != [] {
      IndexTotalNonNegative(idx[..|idx| - 1], ws[..|idx| - 1], i);
    }
  }

  /** Counting non-negative weights gives non-negative frequencies, and
      thresholding keeps them so. */
  lemma TermFreqNonNegative(idx: seq<nat>, ws: seq<real>, n: nat, thresh: int)
    requires |idx| == |ws| && NonNegative(ws)
    ensures NonNegative(TermFreq(idx, ws, n))
    ensures NonNegative(Threshold(TermFreq(idx, ws, n), thresh))
  {
    forall i | 0 <= i < n ensures IndexTotal(idx, ws, i) >= 0.0 {
      IndexTotalNonNegative(idx, ws, i);
    }
  }

  /** An index that no token has carries no frequency. */
  lemma {:induction false} IndexTotalAbsent(idx: seq<nat>, ws: seq<real>, i: nat)
    requires |idx| == |ws| && i !in idx
    ensures IndexTotal(idx, ws, i) == 0.0
  {
    if idx != [] {
      var n := |idx| - 1;
      assert idx == idx[..n] + [idx[n]];
      IndexTotalAbsent(idx[..n], ws[..n], i);
    }
  }

  /** Reading one more token counts one more distinct term exactly when its
      index still has frequency zero. */
  lemma TouchesSnoc(idx: seq<nat>, ws: seq<real>, i: nat, x: real)
    requires |idx| == |ws|
    ensures Touches(idx + [i], ws + [x]) == Touches(idx, ws) + (if IndexTotal(idx, ws, i) == 0.0 then 1 else 0)
  {
    assert (idx + [i])[..|idx|] == idx;
    assert (ws + [x])[..|idx|] == ws;
  }

  /** With positive weights, an index has a positive count exactly when it
      occurs in the document. */
  lemma {:induction false} IndexTotalPositive(idx: seq<nat>, ws: seq<real>, i: nat)
    requires |idx| == |ws| && forall k | 0 <= k < |ws| :: ws[k] > 0.0
    ensures IndexTotal(idx, ws, i) > 0.0 <==> i in idx
    ensures IndexTotal(idx, ws, i) == 0.0 <==> i !in idx
  {
    if idx != [] {
      var n := |idx| - 1;
      IndexTotalPositive(idx[..n], ws[..n], i);
      assert idx == idx[..n] + [idx[n]];
    }
  }

  // ---------------------------------------------------------------------
  // Thresholding

  /** Threshold 0 (the default) changes no frequency vector. */
  lemma ThresholdZero(tf: seq<real>)
    requires NonNegative(tf)
    ensures Threshold(tf, 0) == tf
  {
  }

  /** Applying the same threshold twice is applying it once. */
  lemma ThresholdIdempotent(tf: seq<real>, thresh: int)
    ensures Threshold(Threshold(tf, thresh), thresh) == Threshold(tf, thresh)
  {
  }

  /** After thresholding, the positive entries are those that were positive
      and not below the threshold. */
  lemma ThresholdPositive(tf: seq<real>, thresh: int, i: nat)
    requires i < |tf|
    ensures Threshold(tf, thresh)[i] > 0.0 <==> tf[i] > 0.0 && tf[i] >= thresh as real
  {
  }

  // ---------------------------------------------------------------------
  // Distinct terms and the initial support

  /** `(tf > 0).sum()` is the number of indices with positive frequency. */
  lemma {:induction false} CountPositiveIsSize(tf: seq<real>)
    ensures CountPositive(tf) == |Positive(tf)|
  {
    if tf != [] {
      var n := |tf| - 1;
      CountPositiveIsSize(tf[..n]);
      if tf[n] > 0.0 {
        assert Positive(tf) == Positive(tf[..n]) + {n};
      } else {
        assert Positive(tf) == Positive(tf[..n]);
      }
    }
  }

  lemma {:induction false} CountPositiveUpdate(tf: seq<real>, i: nat, x: real)
    requires i < |tf|
    ensures CountPositive(tf[i := x]) ==
      CountPositive(tf) - (if tf[i] > 0.0 then 1 else 0) + (if x > 0.0 then 1 else 0)
  {
    var n := |tf| - 1;
    if i == n {
      assert tf[i := x][..n] == tf[..n];
    } else {
      assert tf[i := x][..n] == tf[..n][i := x];
      CountPositiveUpdate(tf[..n], i, x);
    }
  }

  /** The initial log-probabilities: with at least one term of positive
      frequency, finite exactly on those terms and `log 0` on the others;
      with none, `log(0) - log(0)`, NaN, everywhere. */
  lemma InitialSupport(num: Numerics, tf: seq<real>)
    ensures CountPositive(tf) > 0 ==> SupportedBy(InitialLogProb(num, tf), tf)
    ensures CountPositive(tf) == 0 ==> forall i | 0 <= i < |tf| :: InitialLogProb(num, tf)[i] == NaN
  {
    CountPositiveIsSize(tf);
    forall i | 0 <= i < |tf| && tf[i] > 0.0 ensures CountPositive(tf) > 0 {
      assert i in Positive(tf);
    }
  }

  /** The incremental `p_term`: with at least one token read, finite exactly
      on the indices read and `log 0` on the others. */
  lemma {:induction false} TouchedSupport(num: Numerics, idx: seq<nat>, ws: seq<real>, n: nat)
    requires |idx| == |ws| && idx != []
    ensures forall i | 0 <= i < n :: TouchedLogProb(num, idx, ws, n)[i].Finite? <==> i in idx
    ensures forall i | 0 <= i < n :: TouchedLogProb(num, idx, ws, n)[i].NegInf? <==> i !in idx
  {
    TouchesFirst(idx, ws);
  }

  /** The first token always finds `tf[i] == 0`, so `n_distinct` is at least 1. */
  lemma TouchesFirst(idx: seq<nat>, ws: seq<real>)
    requires |idx| == |ws| && idx != []
    ensures Touches(idx, ws) >= 1
  {
    var n := |idx| - 1;
    if n > 0 {
      TouchesFirst(idx[..n], ws[..n]);
    } else {
      assert idx[..n] == [] && ws[..n] == [];
    }
  }

  /** With positive weights, the incremental `n_distinct` is the number of
      indices with positive frequency, `(tf > 0).sum()`. */
  lemma {:induction false} TouchesCountsDistinct(idx: seq<nat>, ws: seq<real>, n: nat)
    requires |idx| == |ws| && forall k | 0 <= k < |ws| :: ws[k] > 0.0
    requires forall k | 0 <= k < |idx| :: idx[k] < n
    ensures Touches(idx, ws) == CountPositive(TermFreq(idx, ws, n))
  {
    if idx == [] {
      CountPositiveIsSize(TermFreq(idx, ws, n));
      assert Positive(TermFreq(idx, ws, n)) == {};
    } else {
      var m := |idx| - 1;
      var pre, wpre, i := idx[..m], ws[..m], idx[m];
      TouchesCountsDistinct(pre, wpre, n);
      var tf := TermFreq(pre, wpre, n);
      assert TermFreq(idx, ws, n) == tf[i := tf[i] + ws[m]];
      CountPositiveUpdate(tf, i, tf[i] + ws[m]);
      IndexTotalNonNegative(pre, wpre, i);
    }
  }

  /** With positive weights the incremental construction agrees with the
      whole-array one: `p_term` is `log(tf > 0) - log((tf > 0).sum())`. */
  lemma TouchedMatchesInitial(num: Numerics, idx: seq<nat>, ws: seq<real>, n: nat)
    requires |idx| == |ws| && forall k | 0 <= k < |ws| :: ws[k] > 0.0
    requires forall k | 0 <= k < |idx| :: idx[k] < n
    ensures TouchedLogProb(num, idx, ws, n) == InitialLogProb(num, TermFreq(idx, ws, n))
  {
    TouchesCountsDistinct(idx, ws, n);
    forall i | 0 <= i < n
      ensures TouchedLogProb(num, idx, ws, n)[i] == InitialLogProb(num, TermFreq(idx, ws, n))[i]
    {
      IndexTotalPositive(idx, ws, i);
    }
  }

  /** Zero weights break the agreement: two lines of one term with frequency
      0 are counted as two distinct terms although no frequency is positive. */
  lemma ZeroFrequencyOvercount()
    ensures Touches([0, 0], [0.0, 0.0]) == 2
    ensures CountPositive(TermFreq([0, 0], [0.0, 0.0], 1)) == 0
  {
    assert [0, 0][..1] == [0];
    assert [0.0, 0.0][..1] == [0.0];
  }

  /** One occurrence of index `i` with weight `x` in the line-by-line
      document models, after the occurrences `idx` with weights `ws`:
      `p_term[i]` becomes 0 and `n_distinct` grows by one when `tf[i]` is
      still zero, then `x` is added to `tf[i]`. */
  method AddOccurrence(tf: array<real>, pTerm: array<LogP>, nDistinct: nat, i: nat, x: real,
                 ghost idx: seq<nat>, ghost ws: seq<real>) returns (count: nat)
    requires |idx| == |ws| && i < tf.Length == pTerm.Length
    requires tf[..] == TermFreq(idx, ws, tf.Length)
    requires nDistinct == Touches(idx, ws)
    requires forall j | 0 <= j < pTerm.Length :: pTerm[j] == if j in idx then Finite(0.0) else NegInf
    modifies tf, pTerm
    ensures tf[..] == TermFreq(idx + [i], ws + [x], tf.Length)
    ensures count == Touches(idx + [i], ws + [x])
    ensures forall j | 0 <= j < pTerm.Length :: pTerm[j] == if j in idx + [i] then Finite(0.0) else NegInf
  {
    TermFreqSnoc(idx, ws, i, x, tf.Length);
    TouchesSnoc(idx, ws, i, x);
    count := nDistinct;
    if tf[i] == 0.0 {
      pTerm[i] := Finite(0.0);
      count := count + 1;
    } else if i !in idx {
      IndexTotalAbsent(idx, ws, i);
      assert false;
    }
    ghost var tf0 := tf[..];
    tf[i] := tf[i] + x;
    assert tf[..] == tf0[i := tf0[i] + x];
  }
}
