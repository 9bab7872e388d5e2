/**
  The vocabulary and corpus-frequency bookkeeping shared by all three
  variants: `vocab.setdefault(key, len(vocab))` assigns dense first-seen
  indices, and a `defaultdict(int)` accumulates a weight per index.
 */
module Vocabulary {
  import opened LogSpace

  /** A table whose keys are exactly the indices 0 .. n-1. */
  ghost predicate IndexedBy<V>(cf: map<nat, V>, n: nat)
  {
    forall i: nat :: i in cf <==> i < n
  }

  /** All the terms of all the documents, in reading order. */
  function Flatten<T>(docs: seq<seq<T>>): seq<T>
  {
    if docs == [] then [] else Flatten(docs[..|docs| - 1]) + docs[|docs| - 1]
  }

  /** The dict built by `vocab.setdefault(key, len(vocab))` for each key in order. */
  function FirstSeen<K(==)>(keys: seq<K>): map<K, nat>
  {
    if keys == [] then map[]
    else
      var vocab := FirstSeen(keys[..|keys| - 1]);
      var k := keys[|keys| - 1];
      if k in vocab then vocab else vocab[k := |vocab|]
  }

  /** A vocabulary whose indices are exactly 0 .. len(vocab)-1, each used once. */
  ghost predicate DenseIndex<K>(vocab: map<K, nat>)
  {
    && (forall k | k in vocab :: vocab[k] < |vocab|)
    && (forall k, k' | k in vocab && k' in vocab && vocab[k] == vocab[k'] :: k == k')
    && (forall i: nat :: i in vocab.Values <==> i < |vocab|)
  }

  /** The `cf` table: `cf[vocab.setdefault(key, len(vocab))] += weight` for
      each key and weight in order. */
  function Tally<K(==)>(keys: seq<K>, weights: seq<int>): map<nat, int>
    requires |keys| == |weights|
  {
    if keys == [] then map[]
    else
      var n := |keys| - 1;
      var cf := Tally(keys[..n], weights[..n]);
      var vocab := FirstSeen(keys[..n]);
      var i := if keys[n] in vocab then vocab[keys[n]] else |vocab|;
      cf[i := (if i in cf then cf[i] else 0) + weights[n]]
  }

  /** The total weight carried by key `k`. */
  function Weight<K(==)>(keys: seq<K>, weights: seq<int>, k: K): int
    requires |keys| == |weights|
  {
    if keys == [] then 0
    else
      var n := |keys| - 1;
      Weight(keys[..n], weights[..n], k) + (if keys[n] == k then weights[n] else 0)
  }

  /** One unit of weight per token. */
  function Ones(n: nat): (r: seq<int>)
    ensures |r| == n
  {
    if n == 0 then [] else Ones(n - 1) + [1]
  }

  function Sum(s: seq<int>): int
  {
    if s == [] then 0 else Sum(s[..|s| - 1]) + s[|s| - 1]
  }

  /** `sum(cf.itervalues())` for a table whose keys are 0 .. n-1. */
  function Total(cf: map<nat, int>, n: nat): int
    requires forall i: nat | i < n :: i in cf
  {
    if n == 0 then 0 else Total(cf, n - 1) + cf[n - 1]
  }

  /** `p_corpus[i] = log(cf[i]) - log(sum(cf))` for every index. */
  function CorpusLogProb(num: Numerics, cf: map<nat, int>, n: nat): seq<LogP>
    requires IndexedBy(cf, n)
  {
    seq(n, i requires 0 <= i < n => Sub(Log(num, cf[i] as real), Log(num, Total(cf, n) as real)))
  }

  // ---------------------------------------------------------------------
  // Properties of the vocabulary

  /** Membership and multiplicity in a sequence, split at its last element. */
  lemma SplitLast<K>(keys: seq<K>)
    requires keys != []
    ensures forall x :: x in keys <==> x in keys[..|keys| - 1] || x == keys[|keys| - 1]
    ensures multiset(keys) == multiset(keys[..|keys| - 1]) + multiset{keys[|keys| - 1]}
  {
    assert keys == keys[..|keys| - 1] + [keys[|keys| - 1]];
  }

  /** Indices are dense and assigned once, and the vocabulary holds exactly
      the keys that were read. */
  lemma {:induction false} FirstSeenIsDense<K>(keys: seq<K>)
    ensures DenseIndex(FirstSeen(keys))
    ensures forall k :: k in FirstSeen(keys) <==> k in keys
  {
    if keys != [] {
      var n := |keys| - 1;
      var vocab := FirstSeen(keys[..n]);
      FirstSeenIsDense(keys[..n]);
      SplitLast(keys);
      var k := keys[n];
      if k !in vocab {
        var v' := vocab[k := |vocab|];
        assert |v'| == |vocab| + 1;
        forall x: nat ensures x in v'.Values <==> x < |v'| {
          if x in v'.Values {
            var k' :| k' in v' && v'[k'] == x;
          }
          if x < |v'| {
            if x == |vocab| {
              assert v'[k] == x;
            } else {
              assert x in vocab.Values;
              var k' :| k' in vocab && vocab[k'] == x;
              assert v'[k'] == x;
            }
          }
        }
      }
    }
  }

  /** A key already in the vocabulary keeps its index however many more
      keys are read. */
  lemma {:induction false} FirstSeenStable<K>(keys: seq<K>, more: seq<K>)
    ensures forall k | k in FirstSeen(keys) ::
      k in FirstSeen(keys + more) && FirstSeen(keys + more)[k] == FirstSeen(keys)[k]
  {
    if more != [] {
      var m := |more| - 1;
      FirstSeenStable(keys, more[..m]);
      assert keys + more == (keys + more[..m]) + [more[m]] by {
        assert more == more[..m] + [more[m]];
      }
      SnocVocab(keys + more[..m], more[m]);
    } else {
      assert keys + more == keys;
    }
  }

  /** A key read for the first time gets index `len(vocab)`. */
  lemma FirstSeenNext<K>(keys: seq<K>, k: K)
    requires k !in FirstSeen(keys)
    ensures FirstSeen(keys + [k]) == FirstSeen(keys)[k := |FirstSeen(keys)|]
  {
    assert (keys + [k])[..|keys|] == keys;
  }

  // ---------------------------------------------------------------------
  // Properties of the frequency table

  /** Reading one more key: the vocabulary grows only by a new key, which
      gets index `len(vocab)`. */
  lemma SnocVocab<K>(keys: seq<K>, k: K)
    ensures FirstSeen(keys + [k]) ==
      if k in FirstSeen(keys) then FirstSeen(keys) else FirstSeen(keys)[k := |FirstSeen(keys)|]
  {
    assert (keys + [k])[..|keys|] == keys;
  }

  /** Reading one more key: the table changes only at that key's index. */
  lemma SnocTally<K>(keys: seq<K>, weights: seq<int>, k: K, x: int)
    requires |keys| == |weights|
    ensures
      var vocab, cf := FirstSeen(keys), Tally(keys, weights);
      var i := if k in vocab then vocab[k] else |vocab|;
      Tally(keys + [k], weights + [x]) == cf[i := (if i in cf then cf[i] else 0) + x]
  {
    assert (keys + [k])[..|keys|] == keys;
    assert (weights + [x])[..|keys|] == weights;
  }

  lemma SnocWeight<K>(keys: seq<K>, weights: seq<int>, k: K, x: int)
    requires |keys| == |weights|
    ensures forall k' :: Weight(keys + [k], weights + [x], k') == Weight(keys, weights, k') + (if k == k' then x else 0)
  {
    assert (keys + [k])[..|keys|] == keys;
    assert (weights + [x])[..|keys|] == weights;
  }

  lemma {:induction false} WeightAbsent<K>(keys: seq<K>, weights: seq<int>, k: K)
    requires |keys| == |weights|
    requires k !in keys
    ensures Weight(keys, weights, k) == 0
  {
    if keys != [] {
      var n := |keys| - 1;
      SplitLast(keys);
      WeightAbsent(keys[..n], weights[..n], k);
    }
  }

  /** With unit weights, the weight of a key is its number of occurrences. */
  lemma {:induction false} WeightOnes<K>(keys: seq<K>, k: K)
    ensures Weight(keys, Ones(|keys|), k) == multiset(keys)[k]
  {
    if keys != [] {
      var n := |keys| - 1;
      assert Ones(|keys|)[..n] == Ones(n) by {
        assert Ones(|keys|) == Ones(n) + [1];
      }
      WeightOnes(keys[..n], k);
      SplitLast(keys);
    }
  }

  /** `cf` has an entry for exactly the indices 0 .. len(vocab)-1, and the
      entry of each key's index is that key's total weight. */
  lemma {:induction false} TallyMeaning<K>(keys: seq<K>, weights: seq<int>)
    requires |keys| == |weights|
    ensures IndexedBy(Tally(keys, weights), |FirstSeen(keys)|)
    ensures forall k | k in FirstSeen(keys) ::
      FirstSeen(keys)[k] in Tally(keys, weights) &&
      Tally(keys, weights)[FirstSeen(keys)[k]] == Weight(keys, weights, k)
  {
    if keys != [] {
      var n := |keys| - 1;
      var pre, ws, k, x := keys[..n], weights[..n], keys[n], weights[n];
      TallyMeaning(pre, ws);
      FirstSeenIsDense(pre);
      var vocab, cf := FirstSeen(pre), Tally(pre, ws);
      var i := if k in vocab then vocab[k] else |vocab|;
      var vocab', cf' := FirstSeen(keys), Tally(keys, weights);
      if k in vocab {
        forall k' | k' in vocab' ensures vocab'[k'] in cf' && cf'[vocab'[k']] == Weight(keys, weights, k') {
          if k' != k {
            assert vocab[k'] != i;
          }
        }
      } else {
        FirstSeenIsDense(pre);
        WeightAbsent(pre, ws, k);
        assert |vocab'| == |vocab| + 1;
        forall k' | k' in vocab' ensures vocab'[k'] in cf' && cf'[vocab'[k']] == Weight(keys, weights, k') {
          if k' != k {
            assert vocab[k'] < |vocab|;
          }
        }
      }
    }
  }

  lemma {:induction false} TotalUpdate(cf: map<nat, int>, n: nat, i: nat, x: int)
    requires (forall j: nat | j < n :: j in cf) && i < n
    ensures Total(cf[i := x], n) == Total(cf, n) - cf[i] + x
  {
    if n - 1 != i {
      TotalUpdate(cf, n - 1, i, x);
    } else {
      TotalAgree(cf[i := x], cf, n - 1);
    }
  }

  lemma {:induction false} TotalAgree(cf: map<nat, int>, cf': map<nat, int>, n: nat)
    requires forall i: nat | i < n :: i in cf && i in cf'
    requires forall i | 0 <= i < n :: cf[i] == cf'[i]
    ensures Total(cf, n) == Total(cf', n)
  {
    if n > 0 {
      TotalAgree(cf, cf', n - 1);
    }
  }

  lemma TallyKeys<K>(keys: seq<K>, weights: seq<int>)
    requires |keys| == |weights|
    ensures IndexedBy(Tally(keys, weights), |FirstSeen(keys)|)
    ensures forall k | k in FirstSeen(keys) :: FirstSeen(keys)[k] < |FirstSeen(keys)|
  {
    TallyMeaning(keys, weights);
    FirstSeenIsDense(keys);
  }

  lemma SumSnoc(s: seq<int>, x: int)
    ensures Sum(s + [x]) == Sum(s) + x
  {
    assert (s + [x])[..|s|] == s;
  }

  /** The entries of `cf` sum to the total weight read. */
  lemma {:induction false} TallyTotal<K>(keys: seq<K>, weights: seq<int>)
    requires |keys| == |weights|
    ensures IndexedBy(Tally(keys, weights), |FirstSeen(keys)|)
    ensures Total(Tally(keys, weights), |FirstSeen(keys)|) == Sum(weights)
  {
    TallyKeys(keys, weights);
    if keys != [] {
      var n := |keys| - 1;
      var pre, ws, k, x := keys[..n], weights[..n], keys[n], weights[n];
      TallyTotal(pre, ws);
      TallyKeys(pre, ws);
      var vocab, cf := FirstSeen(pre), Tally(pre, ws);
      var i := if k in vocab then vocab[k] else |vocab|;
      assert Tally(keys, weights) == cf[i := (if i in cf then cf[i] else 0) + x];
      assert |FirstSeen(keys)| == if k in vocab then |vocab| else |vocab| + 1;
      assert Sum(weights) == Sum(ws) + x;
      TotalAdd(cf, |vocab|, i, x);
    }
  }

  /** Adding `x` at an existing index, or at the next one, adds `x` to the
      total. */
  lemma TotalAdd(cf: map<nat, int>, n: nat, i: nat, x: int)
    requires IndexedBy(cf, n) && i <= n
    ensures var cf' := cf[i := (if i in cf then cf[i] else 0) + x];
      var n' := if i < n then n else n + 1;
      IndexedBy(cf', n') && Total(cf', n') == Total(cf, n) + x
  {
    if i < n {
      TotalUpdate(cf, n, i, cf[i] + x);
    } else {
      TotalAgree(cf[n := x], cf, n);
    }
  }

  /** Counting tokens one by one: every vocabulary index has a count of at
      least one, and the counts sum to the number of tokens. */
  lemma {:induction false} CountsPositive<K>(keys: seq<K>)
    ensures IndexedBy(Tally(keys, Ones(|keys|)), |FirstSeen(keys)|)
    ensures forall i | i in Tally(keys, Ones(|keys|)) :: Tally(keys, Ones(|keys|))[i] >= 1
    ensures Total(Tally(keys, Ones(|keys|)), |FirstSeen(keys)|) == |keys|
  {
    var cf := Tally(keys, Ones(|keys|));
    var vocab := FirstSeen(keys);
    TallyTotal(keys, Ones(|keys|));
    TallyMeaning(keys, Ones(|keys|));
    SumOnes(|keys|);
    FirstSeenIsDense(keys);
    forall i | i in cf ensures cf[i] >= 1 {
      assert i in vocab.Values;
      var k :| k in vocab && vocab[k] == i;
      WeightOnes(keys, k);
    }
  }

  lemma {:induction false} SumOnes(n: nat)
    ensures Sum(Ones(n)) == n
  {
    if n > 0 {
      SumOnes(n - 1);
      SumSnoc(Ones(n - 1), 1);
    }
  }

  lemma {:induction false} TotalAtLeast(cf: map<nat, int>, n: nat)
    requires forall i: nat | i < n :: i in cf
    requires forall i | 0 <= i < n :: cf[i] >= 1
    ensures Total(cf, n) >= n
  {
    if n > 0 {
      TotalAtLeast(cf, n - 1);
    }
  }

  /** When every index has a positive count, every corpus log-probability is
      finite: `log(cf[i]) - log(total)`. */
  lemma CorpusLogProbFinite(num: Numerics, cf: map<nat, int>, n: nat)
    requires IndexedBy(cf, n)
    requires forall i | i in cf :: cf[i] >= 1
    ensures forall i | 0 <= i < n ::
      CorpusLogProb(num, cf, n)[i] == Finite(num.log(cf[i] as real) - num.log(Total(cf, n) as real))
  {
    TotalAtLeast(cf, n);
  }

  /** What counting every token once builds: the table has an entry for
      each vocabulary index, the entry of a term's index is the number of
      occurrences of the term, every entry is at least 1, and the entries
      add up to the number of tokens. */
  lemma CountTermsMeaning<K>(keys: seq<K>)
    ensures var vocab, cf := FirstSeen(keys), Tally(keys, Ones(|keys|));
      && DenseIndex(vocab)
      && IndexedBy(cf, |vocab|)
      && (forall k | k in vocab :: vocab[k] in cf && cf[vocab[k]] == multiset(keys)[k])
      && (forall i | i in cf :: cf[i] >= 1)
      && Total(cf, |vocab|) == |keys|
  {
    FirstSeenIsDense(keys);
    CountsPositive(keys);
    TallyMeaning(keys, Ones(|keys|));
    forall k | k in FirstSeen(keys) ensures Weight(keys, Ones(|keys|), k) == multiset(keys)[k] {
      WeightOnes(keys, k);
    }
  }

  /** With every count at least 1, every corpus log-probability is finite. */
  lemma CorpusLogProbAllFinite<K>(num: Numerics, keys: seq<K>)
    ensures IndexedBy(Tally(keys, Ones(|keys|)), |FirstSeen(keys)|)
    ensures forall i | 0 <= i < |FirstSeen(keys)| ::
      CorpusLogProb(num, Tally(keys, Ones(|keys|)), |FirstSeen(keys)|)[i].Finite?
  {
    CountsPositive(keys);
    CorpusLogProbFinite(num, Tally(keys, Ones(|keys|)), |FirstSeen(keys)|);
  }

  // ---------------------------------------------------------------------
  // The loops of `WeighWords.__init__`, shared by both weighwords variants

  lemma FlattenSnoc<T>(docs: seq<seq<T>>, d: seq<T>)
    ensures Flatten(docs + [d]) == Flatten(docs) + d
  {
    assert (docs + [d])[..|docs|] == docs;
  }

  /** `vocab` and `cf` are what reading the keys `keys` with weights
      `weights` one by one builds. */
  ghost predicate Tallied<K>(keys: seq<K>, weights: seq<int>, vocab: map<K, nat>, cf: map<nat, int>)
  {
    |keys| == |weights| && vocab == FirstSeen(keys) && cf == Tally(keys, weights)
  }

  /** Reading one more key: `i = vocab.setdefault(k, len(vocab)); cf[i] += x`. */
  lemma TallyOne<K>(keys: seq<K>, weights: seq<int>, vocab: map<K, nat>, cf: map<nat, int>,
                    k: K, x: int, vocab': map<K, nat>, cf': map<nat, int>)
    requires Tallied(keys, weights, vocab, cf)
    requires vocab' == if k in vocab then vocab else vocab[k := |vocab|]
    requires cf' == cf[vocab'[k] := (if vocab'[k] in cf then cf[vocab'[k]] else 0) + x]
    ensures Tallied(keys + [k], weights + [x], vocab', cf')
  {
    SnocVocab(keys, k);
    SnocTally(keys, weights, k, x);
  }

  /** The nested loop over documents and tokens: `i = vocab.setdefault(tok,
      len(vocab)); cf[i] += 1`. */
  method CountTerms<T(==)>(documents: seq<seq<T>>) returns (vocab: map<T, nat>, cf: map<nat, int>)
    ensures vocab == FirstSeen(Flatten(documents))
    ensures cf == Tally(Flatten(documents), Ones(|Flatten(documents)|))
  {
    vocab, cf := map[], map[];
    for j := 0 to |documents|
      invariant vocab == FirstSeen(Flatten(documents[..j]))
      invariant cf == Tally(Flatten(documents[..j]), Ones(|Flatten(documents[..j])|))
    {
      assert Flatten(documents[..j + 1]) == Flatten(documents[..j]) + documents[j] by {
        assert documents[..j + 1][..j] == documents[..j];
      }
      vocab, cf := CountDocument(vocab, cf, documents[j], Flatten(documents[..j]));
    }
    assert documents[..|documents|] == documents;
  }

  /** The inner loop of `CountTerms`: the tokens of one document. */
  method CountDocument<T(==)>(vocab0: map<T, nat>, cf0: map<nat, int>, d: seq<T>, ghost read: seq<T>)
    returns (vocab: map<T, nat>, cf: map<nat, int>)
    requires Tallied(read, Ones(|read|), vocab0, cf0)
    ensures Tallied(read + d, Ones(|read + d|), vocab, cf)
  {
    vocab, cf := vocab0, cf0;
    ghost var seen := read;
    for k := 0 to |d|
      invariant seen == read + d[..k]
      invariant Tallied(seen, Ones(|seen|), vocab, cf)
    {
      var tok := d[k];
      assert seen + [tok] == read + d[..k + 1] by {
        assert d[..k + 1] == d[..k] + [tok];
      }
      ghost var (vocab0, cf0) := (vocab, cf);
      if tok !in vocab {
        vocab := vocab[tok := |vocab|];
      }
      var i := vocab[tok];
      cf := cf[i := (if i in cf then cf[i] else 0) + 1];
      TallyOne(seen, Ones(|seen|), vocab0, cf0, tok, 1, vocab, cf);
      seen := seen + [tok];
    }
    assert d[..|d|] == d;
  }

  /** `c_size = log(sum(cf.itervalues()))`, then `p_corpus = zeros(n)` and
      `p_corpus[i] = log(f) - c_size` for each entry `(i, f)` of `cf`, taken
      in index order. */
  method FillCorpusLogProb(num: Numerics, cf: map<nat, int>, n: nat) returns (p: array<LogP>)
    requires IndexedBy(cf, n)
    ensures fresh(p)
    ensures p[..] == CorpusLogProb(num, cf, n)
  {
    var total := 0;
    for i := 0 to n
      invariant total == Total(cf, i)
    {
      total := total + cf[i];
    }
    var cSize := Log(num, total as real);
    p := new LogP[n](_ => Finite(0.0));
    for i := 0 to n
      invariant forall j | 0 <= j < i :: p[j] == Sub(Log(num, cf[j] as real), cSize)
      invariant forall j | i <= j < n :: p[j] == Finite(0.0)
    {
      p[i] := Sub(Log(num, cf[i] as real), cSize);
    }
  }

  /** The corpus model of a token sequence: dense first-seen indices and
      `p_corpus[i] = log(cf[i]) - log(sum(cf))` for every index. */
  ghost predicate CorpusModelOf<K>(num: Numerics, corpus: seq<K>, vocab: map<K, nat>, p: seq<LogP>)
  {
    && vocab == FirstSeen(corpus)
    && DenseIndex(vocab)
    && IndexedBy(Tally(corpus, Ones(|corpus|)), |vocab|)
    && p == CorpusLogProb(num, Tally(corpus, Ones(|corpus|)), |vocab|)
  }

  /** The body of `WeighWords.__init__` apart from the stored parameters:
      counting, then filling `p_corpus`. */
  method BuildCorpusModel<T(==)>(num: Numerics, documents: seq<seq<T>>) returns (vocab: map<T, nat>, p: array<LogP>)
    ensures fresh(p)
    ensures CorpusModelOf(num, Flatten(documents), vocab, p[..])
  {
    var cf;
    vocab, cf := CountTerms(documents);
    CountTermsMeaning(Flatten(documents));
    p := FillCorpusLogProb(num, cf, |vocab|);
  }
}
