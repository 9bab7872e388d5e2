/**
  `weighwords.WeighWords`, the packaged class: a corpus model built once from
  a list of documents, a document model with a frequency threshold, and the
  EM loop that re-estimates the document's term log-probabilities against
  the corpus model.
 */
module WeighWordsPackage {
  import opened LogSpace
  import opened Python
  import opened Vocabulary
  import opened TermFrequency
  import opened EMLoop

  /** The default of `n_iter`. */
  const DefaultIterations := 50

  class WeighWords<T(==)> {
    /** Terms that occur fewer times than this in a document are dropped. */
    const thresh: int
    /** Weight of the document model; the corpus model gets `1 - w`. */
    const w: real
    /** Maps each term of the corpus to its dense index. */
    const vocab: map<T, nat>
    /** `log P(t|C)` by index. */
    const pCorpus: array<LogP>
    /** The floating-point primitives `np.log` and `np.logaddexp`. */
    const num: Numerics
    /** All tokens of the corpus, in reading order. */
    ghost const corpus: seq<T>

    ghost predicate Valid()
      reads pCorpus
    {
      CorpusModelOf(num, corpus, vocab, pCorpus[..])
    }

    /** `__init__(documents, w, thresh=0)`: counts every token of every
        document and fills `p_corpus[i] = log(cf[i]) - log(sum(cf))`. */
    constructor (documents: seq<seq<T>>, w: real, num: Numerics, thresh: int := 0)
      ensures this.thresh == thresh && this.w == w && this.num == num
      ensures corpus == Flatten(documents)
      ensures fresh(pCorpus)
      ensures Valid()
    {
      this.thresh := thresh;
      this.w := w;
      this.num := num;
      var vocab, p := BuildCorpusModel(num, documents);
      this.vocab := vocab;
      corpus := Flatten(documents);
      pCorpus := p;
    }

    /** `_document_model(d)`: term frequencies of `d` over the vocabulary,
        thresholded, and the initial log-probabilities `log(tf > 0) -
        log(n_distinct)`. A token outside the vocabulary raises `KeyError`. */
    method DocumentModel(d: seq<T>) returns (r: Outcome<(array<real>, array<LogP>)>)
      requires Valid()
      ensures r.Ok? <==> forall t | t in d :: t in vocab
      ensures r.Raise? ==> r.exc.KeyError? && FirstUnknown(vocab, d, r.exc.at)
      ensures r.Ok? ==>
        && (forall t | t in d :: t in vocab)
        && fresh(r.value.0) && fresh(r.value.1)
        && r.value.0[..] == Threshold(TermFreq(Indices(vocab, d), Units(|d|), |vocab|), thresh)
        && r.value.1[..] == InitialLogProb(num, r.value.0[..])
    {
      r := BuildDocumentModel(num, vocab, d, thresh);
    }

    /** `_EM(tf, p_term, w, n_iter=None)`: `n_iter` defaults to 50 and `w` to
        the weight given to the constructor. The corpus model is shifted into
        a new array, `tf` is logged into a new array and `p_term` is copied
        before the loop, so neither the object nor the caller's arrays
        change. */
    method EM(tf: array<real>, pTerm: array<LogP>, w: Option<real>, nIter: Option<int>)
      returns (r: Outcome<array<LogP>>)
      requires tf.Length == pTerm.Length == pCorpus.Length
      ensures tf[..] == old(tf[..]) && pTerm[..] == old(pTerm[..]) && pCorpus[..] == old(pCorpus[..])
      ensures
        var n := OrDefault(nIter, DefaultIterations);
        var weight := OrDefault(w, this.w);
        && (n > 0 && pTerm.Length == 0 ==> r == Raise(ValueError))
        && (n <= 0 ==> r.Ok? && fresh(r.value) && r.value[..] == pTerm[..])
        && (n > 0 && pTerm.Length > 0 ==>
              r.Ok? && fresh(r.value) &&
              r.value[..] == Iterate(num, LogAll(num, tf[..]), Shift(pCorpus[..], Log(num, 1.0 - weight)),
                                     pTerm[..], Log(num, weight), n))
    {
      r := RunEM(num, pCorpus, tf, pTerm, OrDefault(w, this.w), OrDefault(nIter, DefaultIterations));
    }

    /** The first two lines of `top(k, d, n_iter=None, w=None)`: the document
        model of `d` followed by EM; the ranking of the result is not
        modelled. */
    method Posterior(d: seq<T>, nIter: Option<int>, w: Option<real>) returns (r: Outcome<array<LogP>>)
      requires Valid()
      ensures r.Ok? ==> fresh(r.value)
      ensures !(forall t | t in d :: t in vocab) ==> r.Raise? && r.exc.KeyError? && FirstUnknown(vocab, d, r.exc.at)
      ensures (forall t | t in d :: t in vocab) ==>
        var tf := Threshold(TermFreq(Indices(vocab, d), Units(|d|), |vocab|), thresh);
        var n := OrDefault(nIter, DefaultIterations);
        var weight := OrDefault(w, this.w);
        && (n > 0 && |vocab| == 0 ==> r == Raise(ValueError))
        && (n <= 0 ==> r.Ok? && r.value[..] == InitialLogProb(num, tf))
        && (n > 0 && |vocab| > 0 ==>
              r.Ok? && r.value[..] == Iterate(num, LogAll(num, tf), Shift(pCorpus[..], Log(num, 1.0 - weight)),
                                               InitialLogProb(num, tf), Log(num, weight), n))
    {
      var model := DocumentModel(d);
      if model.Raise? {
        return Raise(model.exc);
      }
      var (tf, pTerm) := model.value;
      r := EM(tf, pTerm, w, nIter);
    }
  }

  /** The body of `_document_model`, over the vocabulary it reads. */
  method BuildDocumentModel<T>(num: Numerics, vocab: map<T, nat>, d: seq<T>, thresh: int)
    returns (r: Outcome<(array<real>, array<LogP>)>)
    requires forall t | t in vocab :: vocab[t] < |vocab|
    ensures r.Ok? <==> forall t | t in d :: t in vocab
    ensures r.Raise? ==> r.exc.KeyError? && FirstUnknown(vocab, d, r.exc.at)
    ensures r.Ok? ==>
      && (forall t | t in d :: t in vocab)
      && fresh(r.value.0) && fresh(r.value.1)
      && r.value.0[..] == Threshold(TermFreq(Indices(vocab, d), Units(|d|), |vocab|), thresh)
      && r.value.1[..] == InitialLogProb(num, r.value.0[..])
  {
    var counted := CountTokens(vocab, d);
    if counted.Raise? {
      return Raise(counted.exc);
    }
    var tf := counted.value;
    // rare = (tf < thresh); tf -= rare * tf
    forall i | 0 <= i < tf.Length {
      tf[i] := tf[i] - (if tf[i] < thresh as real then tf[i] else 0.0);
    }
    var nDistinct := CountPositive(tf[..]);
    var pTerm := new LogP[tf.Length](i requires 0 <= i < tf.Length reads tf =>
      Sub(if tf[i] > 0.0 then Finite(0.0) else NegInf, Log(num, nDistinct as real)));
    return Ok((tf, pTerm));
  }

  /** The loop of `_document_model`: `tf[self.vocab[tok]] += 1` for each
      token, into a new array of zeros. */
  method CountTokens<T>(vocab: map<T, nat>, d: seq<T>) returns (r: Outcome<array<real>>)
    requires forall t | t in vocab :: vocab[t] < |vocab|
    ensures r.Ok? <==> forall t | t in d :: t in vocab
    ensures r.Raise? ==> r.exc.KeyError? && FirstUnknown(vocab, d, r.exc.at)
    ensures r.Ok? ==>
      && (forall t | t in d :: t in vocab)
      && fresh(r.value) && r.value[..] == TermFreq(Indices(vocab, d), Units(|d|), |vocab|)
  {
    var tf := new real[|vocab|](_ => 0.0);
    for k := 0 to |d|
      invariant forall j | 0 <= j < k :: d[j] in vocab
      invariant tf[..] == TermFreq(Indices(vocab, d[..k]), Units(k), |vocab|)
    {
      if d[k] !in vocab {
        return Raise(KeyError(k));
      }
      var i := vocab[d[k]];
      assert Indices(vocab, d[..k + 1]) == Indices(vocab, d[..k]) + [i];
      assert Units(k + 1) == Units(k) + [1.0];
      TermFreqSnoc(Indices(vocab, d[..k]), Units(k), i, 1.0, |vocab|);
      tf[i] := tf[i] + 1.0;
    }
    assert d[..|d|] == d;
    return Ok(tf);
  }

  // ---------------------------------------------------------------------
  // Properties of the pipeline `top` runs

  /** The corpus model: one entry per vocabulary term, each finite. */
  lemma CorpusModelFinite<T>(num: Numerics, documents: seq<seq<T>>)
    ensures var corpus := Flatten(documents);
      IndexedBy(Tally(corpus, Ones(|corpus|)), |FirstSeen(corpus)|) &&
      var pc := CorpusLogProb(num, Tally(corpus, Ones(|corpus|)), |FirstSeen(corpus)|);
      |pc| == |FirstSeen(corpus)| && forall i | 0 <= i < |pc| :: pc[i].Finite?
  {
    CorpusLogProbAllFinite(num, Flatten(documents));
  }

  /** The document model: `tf[vocab[t]]` is the number of occurrences of
      `t` when that reaches the threshold, and zero otherwise. */
  lemma DocumentModelCounts<T>(vocab: map<T, nat>, d: seq<T>, thresh: int, t: T)
    requires DenseIndex(vocab) && (forall t' | t' in d :: t' in vocab) && t in vocab
    ensures var tf := Threshold(TermFreq(Indices(vocab, d), Units(|d|), |vocab|), thresh);
      tf[vocab[t]] == (if multiset(d)[t] < thresh then 0.0 else multiset(d)[t] as real)
  {
    TermFreqCounts(vocab, d, t);
  }

  /** Term-frequency support is kept through EM: starting from the document
      model, whenever some term reaches the threshold, every iterate is
      finite exactly on the terms with positive (thresholded) frequency and
      `log 0` on every other term, for any number of iterations and any
      weight strictly between 0 and 1. */
  lemma PipelineSupport<T>(num: Numerics, documents: seq<seq<T>>, d: seq<T>, thresh: int, w: real, n: int)
    requires forall t | t in d :: t in FirstSeen(Flatten(documents))
    requires 0.0 < w < 1.0
    ensures
      var corpus := Flatten(documents);
      var vocab := FirstSeen(corpus);
      var tf := Threshold(TermFreq(Indices(vocab, d), Units(|d|), |vocab|), thresh);
      IndexedBy(Tally(corpus, Ones(|corpus|)), |vocab|) &&
      var pc := Shift(CorpusLogProb(num, Tally(corpus, Ones(|corpus|)), |vocab|), Log(num, 1.0 - w));
      CountPositive(tf) > 0 ==>
        SupportedBy(Iterate(num, LogAll(num, tf), pc, InitialLogProb(num, tf), Log(num, w), n), tf)
  {
    var corpus := Flatten(documents);
    var vocab := FirstSeen(corpus);
    CorpusModelFinite(num, documents);
    TermFreqNonNegative(Indices(vocab, d), Units(|d|), |vocab|, thresh);
    var tf := Threshold(TermFreq(Indices(vocab, d), Units(|d|), |vocab|), thresh);
    EMSupport(num, tf, CorpusLogProb(num, Tally(corpus, Ones(|corpus|)), |vocab|), Log(num, 1.0 - w), Log(num, w), n);
  }
}
