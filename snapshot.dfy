/**
  `weighwords.py`, an earlier snapshot of the `WeighWords` class. Its
  corpus model has no frequency threshold and no stored weight, and its
  document model counts distinct terms while it reads the document instead
  of from the finished frequency vector.

  As written, every method of the snapshot fails on a name that is not
  defined. The class below is the evidently intended program, with
  `self.vocab`, `self.p_corpus`, `self._document_model`, `self._EM` and a
  stored weight `self.w` where the text names something undefined. The
  functions after it model the text as written, down to the statement
  where it raises.
 */
module WeighWordsSnapshot {
  import opened LogSpace
  import opened Python
  import opened Vocabulary
  import opened TermFrequency
  import opened EMLoop

  /** The default of `n_iter`. */
  const DefaultIterations := 50

  class WeighWords<T(==)> {
    /** Weight of the document model; the corpus model gets `1 - w`. */
    const w: real
    /** Maps each term of the corpus to its dense index. */
    const vocab: map<T, nat>
    /** `log P(t|C)` by index. */
    const pCorpus: array<LogP>
    /** The floating-point primitives `np.log` and `np.logaddexp`. */
    const num: Numerics
    /** All tokens of the corpus, in reading order. */
    ghost const corpus: seq<T>

    ghost predicate Valid()
      reads pCorpus
    {
      CorpusModelOf(num, corpus, vocab, pCorpus[..])
    }

    /** `__init__(documents, w)` with `self.vocab` as the dictionary the
        loop fills, `self.p_corpus` as the array the loop writes and `w`
        kept for `_EM`. */
    constructor (documents: seq<seq<T>>, w: real, num: Numerics)
      ensures this.w == w && this.num == num
      ensures corpus == Flatten(documents)
      ensures fresh(pCorpus)
      ensures Valid()
    {
      this.w := w;
      this.num := num;
      var vocab, p := BuildCorpusModel(num, documents);
      this.vocab := vocab;
      corpus := Flatten(documents);
      pCorpus := p;
    }

    /** `_document_model(d)` over `self.vocab`: term frequencies, and the
        log-probabilities that are `0 - log(n_distinct)` on every index read
        and `-inf` elsewhere. An unknown token raises `KeyError`. */
    method DocumentModel(d: seq<T>) returns (r: Outcome<(array<real>, array<LogP>)>)
      requires Valid()
      ensures r.Ok? <==> forall t | t in d :: t in vocab
      ensures r.Raise? ==> r.exc.KeyError? && FirstUnknown(vocab, d, r.exc.at)
      ensures r.Ok? ==>
        && (forall t | t in d :: t in vocab)
        && fresh(r.value.0) && fresh(r.value.1)
        && r.value.0[..] == TermFreq(Indices(vocab, d), Units(|d|), |vocab|)
        && r.value.1[..] == TouchedLogProb(num, Indices(vocab, d), Units(|d|), |vocab|)
    {
      r := BuildDocumentModel(num, vocab, d);
    }

    /** `_EM(tf, p_term, n_iter=None)` with the stored weight: the corpus
        model is shifted into a new array, `tf` is logged into a new array
        and `p_term` is copied before the loop. */
    method EM(tf: array<real>, pTerm: array<LogP>, nIter: Option<int>) returns (r: Outcome<array<LogP>>)
      requires tf.Length == pTerm.Length == pCorpus.Length
      ensures tf[..] == old(tf[..]) && pTerm[..] == old(pTerm[..]) && pCorpus[..] == old(pCorpus[..])
      ensures
        var n := OrDefault(nIter, DefaultIterations);
        && (n > 0 && pTerm.Length == 0 ==> r == Raise(ValueError))
        && (n <= 0 ==> r.Ok? && fresh(r.value) && r.value[..] == pTerm[..])
        && (n > 0 && pTerm.Length > 0 ==>
              r.Ok? && fresh(r.value) &&
              r.value[..] == Iterate(num, LogAll(num, tf[..]), Shift(pCorpus[..], Log(num, 1.0 - w)),
                                     pTerm[..], Log(num, w), n))
    {
      r := RunEM(num, pCorpus, tf, pTerm, w, OrDefault(nIter, DefaultIterations));
    }

    /** The first two lines of `top(k, d, n_iter=None)`, calling the two
        methods by the names the class defines; the ranking of the result
        is not modelled. */
    method Posterior(d: seq<T>, nIter: Option<int>) returns (r: Outcome<array<LogP>>)
      requires Valid()
      ensures r.Ok? ==> fresh(r.value)
      ensures !(forall t | t in d :: t in vocab) ==> r.Raise? && r.exc.KeyError? && FirstUnknown(vocab, d, r.exc.at)
      ensures (forall t | t in d :: t in vocab) ==>
        var idx := Indices(vocab, d);
        var n := OrDefault(nIter, DefaultIterations);
        && (n > 0 && |vocab| == 0 ==> r == Raise(ValueError))
        && (n <= 0 ==> r.Ok? && r.value[..] == TouchedLogProb(num, idx, Units(|d|), |vocab|))
        && (n > 0 && |vocab| > 0 ==>
              r.Ok? && r.value[..] == Iterate(num, LogAll(num, TermFreq(idx, Units(|d|), |vocab|)),
                                               Shift(pCorpus[..], Log(num, 1.0 - w)),
                                               TouchedLogProb(num, idx, Units(|d|), |vocab|), Log(num, w), n))
    {
      var model := DocumentModel(d);
      if model.Raise? {
        return Raise(model.exc);
      }
      var (tf, pTerm) := model.value;
      r := EM(tf, pTerm, nIter);
    }
  }

  /** The body of `_document_model`: `tf` starts at zero and `p_term` at
      `-inf`; each token sets `p_term[i] = 0` and counts one more distinct
      term when `tf[i]` is still zero, then adds 1 to `tf[i]`; finally
      `p_term -= log(n_distinct)`. */
  method BuildDocumentModel<T>(num: Numerics, vocab: map<T, nat>, d: seq<T>)
    returns (r: Outcome<(array<real>, array<LogP>)>)
    requires forall t | t in vocab :: vocab[t] < |vocab|
    ensures r.Ok? <==> forall t | t in d :: t in vocab
    ensures r.Raise? ==> r.exc.KeyError? && FirstUnknown(vocab, d, r.exc.at)
    ensures r.Ok? ==>
      && (forall t | t in d :: t in vocab)
      && fresh(r.value.0) && fresh(r.value.1)
      && r.value.0[..] == TermFreq(Indices(vocab, d), Units(|d|), |vocab|)
      && r.value.1[..] == TouchedLogProb(num, Indices(vocab, d), Units(|d|), |vocab|)
  {
    var read := ReadTokens(vocab, d);
    if read.Raise? {
      return Raise(read.exc);
    }
    var (tf, pTerm, nDistinct) := read.value;
    forall i | 0 <= i < pTerm.Length {
      pTerm[i] := Sub(pTerm[i], Log(num, nDistinct as real));
    }
    return Ok((tf, pTerm));
  }

  /** The token loop of `_document_model`: `tf`, the `p_term` that is `0`
      exactly on the indices read so far and `-inf` elsewhere, and
      `n_distinct`. */
  method ReadTokens<T>(vocab: map<T, nat>, d: seq<T>) returns (r: Outcome<(array<real>, array<LogP>, nat)>)
    requires forall t | t in vocab :: vocab[t] < |vocab|
    ensures r.Ok? <==> forall t | t in d :: t in vocab
    ensures r.Raise? ==> r.exc.KeyError? && FirstUnknown(vocab, d, r.exc.at)
    ensures r.Ok? ==>
      && (forall t | t in d :: t in vocab)
      && fresh(r.value.0) && fresh(r.value.1)
      && r.value.0[..] == TermFreq(Indices(vocab, d), Units(|d|), |vocab|)
      && r.value.1.Length == |vocab|
      && (forall i | 0 <= i < |vocab| :: r.value.1[i] == if i in Indices(vocab, d) then Finite(0.0) else NegInf)
      && r.value.2 == Touches(Indices(vocab, d), Units(|d|))
  {
    var tf := new real[|vocab|](_ => 0.0);
    var pTerm := new LogP[|vocab|](_ => NegInf);
    var nDistinct := 0;
    for k := 0 to |d|
      invariant forall j | 0 <= j < k :: d[j] in vocab
      invariant tf[..] == TermFreq(Indices(vocab, d[..k]), Units(k), |vocab|)
      invariant nDistinct == Touches(Indices(vocab, d[..k]), Units(k))
      invariant forall i | 0 <= i < pTerm.Length ::
        pTerm[i] == if i in Indices(vocab, d[..k]) then Finite(0.0) else NegInf
    {
      if d[k] !in vocab {
        return Raise(KeyError(k));
      }
      var i := vocab[d[k]];
      assert Indices(vocab, d[..k + 1]) == Indices(vocab, d[..k]) + [i];
      assert Units(k + 1) == Units(k) + [1.0];
      nDistinct := AddOccurrence(tf, pTerm, nDistinct, i, 1.0, Indices(vocab, d[..k]), Units(k));
    }
    assert d[..|d|] == d;
    return Ok((tf, pTerm, nDistinct));
  }

  /** Counted one token at a time, the snapshot's document model is the
      packaged one with threshold 0: the same frequencies, and the same
      initial log-probabilities. */
  lemma MatchesPackage<T>(num: Numerics, vocab: map<T, nat>, d: seq<T>)
    requires (forall t | t in vocab :: vocab[t] < |vocab|) && forall t | t in d :: t in vocab
    ensures var tf := TermFreq(Indices(vocab, d), Units(|d|), |vocab|);
      && Threshold(tf, 0) == tf
      && TouchedLogProb(num, Indices(vocab, d), Units(|d|), |vocab|) == InitialLogProb(num, tf)
  {
    var idx := Indices(vocab, d);
    TermFreqNonNegative(idx, Units(|d|), |vocab|, 0);
    ThresholdZero(TermFreq(idx, Units(|d|), |vocab|));
    TouchedMatchesInitial(num, idx, Units(|d|), |vocab|);
  }

  /** With at least one token, EM keeps the snapshot's support: every
      iterate is finite exactly on the terms of `d` and `log 0` elsewhere. */
  lemma PipelineSupport<T>(num: Numerics, documents: seq<seq<T>>, d: seq<T>, w: real, n: int)
    requires d != [] && forall t | t in d :: t in FirstSeen(Flatten(documents))
    requires 0.0 < w < 1.0
    ensures d[0] in FirstSeen(Flatten(documents))
    ensures
      var corpus := Flatten(documents);
      var vocab := FirstSeen(corpus);
      var idx := Indices(vocab, d);
      IndexedBy(Tally(corpus, Ones(|corpus|)), |vocab|) &&
      var pc := CorpusLogProb(num, Tally(corpus, Ones(|corpus|)), |vocab|);
      var v := Iterate(num, LogAll(num, TermFreq(idx, Units(|d|), |vocab|)), Shift(pc, Log(num, 1.0 - w)),
                       TouchedLogProb(num, idx, Units(|d|), |vocab|), Log(num, w), n);
      |v| == |vocab| &&
      forall i | 0 <= i < |vocab| :: (v[i].Finite? <==> i in idx) && (v[i] == NegInf <==> i !in idx)
  {
    var corpus := Flatten(documents);
    var vocab := FirstSeen(corpus);
    FirstSeenIsDense(corpus);
    CorpusLogProbAllFinite(num, corpus);
    TouchedEMSupport(num, Indices(vocab, d), Units(|d|), CorpusLogProb(num, Tally(corpus, Ones(|corpus|)), |vocab|),
                     Log(num, 1.0 - w), Log(num, w), n);
  }
}
