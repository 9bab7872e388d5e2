/**
  `parsimonious.py`: the module-level version of the model, over corpora
  given as lines `tok pos freq rest`. Terms are `(tok, pos)` pairs, every
  line carries a frequency, and logarithms are taken in base 2 (`np.log2`,
  `np.logaddexp2`), so the `Numerics` passed in are the base-2 primitives.
 */
module Parsimonious {
  import opened LogSpace
  import opened Python
  import opened Records
  import opened Vocabulary
  import opened TermFrequency
  import opened EMLoop

  /** A vocabulary key: the pair `(tok, pos)`. */
  type Key = (string, string)

  /** `tok, pos, freq, rest = ln.split()`: the key and the frequency field
      of a line with exactly four fields; any other number of fields makes
      the unpacking raise `ValueError`. */
  function Unpack(ln: string): Option<(Key, string)>
  {
    var fields := Split(ln);
    if |fields| == 4 then Some(((fields[0], fields[1]), fields[2])) else None
  }

  // ---------------------------------------------------------------------
  // `corpus_model(documents)`, lines 8-26

  /** What reading one corpus line yields: its key and `int(freq)`, or
      `None` when it raises `ValueError`. */
  type Record = Option<(Key, int)>

  /** A corpus line as lines 16-18 read it. */
  function CorpusRecord(ln: string): Record
  {
    match Unpack(ln)
    case None => None
    case Some((key, freq)) =>
      match ParseInt(freq)
      case None => None
      case Some(n) => Some((key, n))
  }

  /** The reading of every line, in order. */
  function CorpusRecords(lines: seq<string>): seq<Record>
  {
    seq(|lines|, k requires 0 <= k < |lines| => CorpusRecord(lines[k]))
  }

  /** Every line read without an exception. */
  predicate AllSome(rs: seq<Record>)
  {
    forall k | 0 <= k < |rs| :: rs[k].Some?
  }

  /** The key of each line read. */
  function Keys(rs: seq<Record>): seq<Key>
    requires AllSome(rs)
  {
    seq(|rs|, k requires 0 <= k < |rs| => rs[k].value.0)
  }

  /** The frequency of each line read. */
  function Freqs(rs: seq<Record>): seq<int>
    requires AllSome(rs)
  {
    seq(|rs|, k requires 0 <= k < |rs| => rs[k].value.1)
  }

  /** Every line unpacks into four fields and has an integer frequency. */
  predicate Readable(lines: seq<string>)
  {
    AllSome(CorpusRecords(lines))
  }

  /** The key of each line, in reading order. */
  function RecordKeys(lines: seq<string>): seq<Key>
    requires Readable(lines)
  {
    Keys(CorpusRecords(lines))
  }

  /** The frequency of each line, in reading order. */
  function RecordFreqs(lines: seq<string>): seq<int>
    requires Readable(lines)
  {
    Freqs(CorpusRecords(lines))
  }

  /** The corpus model of weighted keys: dense first-seen indices, `cf[i]`
      the total weight of the key with index `i`, and `p_corpus[i] =
      log(cf[i]) - log(sum(cf))`. */
  ghost predicate WeightedModelOf(num: Numerics, keys: seq<Key>, weights: seq<int>, vocab: map<Key, nat>, p: seq<LogP>)
  {
    && |keys| == |weights|
    && vocab == FirstSeen(keys)
    && DenseIndex(vocab)
    && IndexedBy(Tally(keys, weights), |vocab|)
    && p == CorpusLogProb(num, Tally(keys, weights), |vocab|)
  }

  /** `corpus_model(documents)`: every line of every document is split,
      its key gets the next index when it is new, and `int(freq)` is added
      to that index's count; then `p_corpus[i] = log2(cf[i]) -
      log2(sum(cf))`. A line that does not split into four fields, or whose
      frequency is not an integer, raises `ValueError`. */
  method CorpusModel(num: Numerics, documents: seq<seq<string>>) returns (r: Outcome<(map<Key, nat>, array<LogP>)>)
    ensures r.Ok? <==> Readable(Flatten(documents))
    ensures r.Raise? ==> r.exc == ValueError
    ensures r.Ok? ==>
      var lines := Flatten(documents);
      && Readable(lines)
      && fresh(r.value.1)
      && WeightedModelOf(num, RecordKeys(lines), RecordFreqs(lines), r.value.0, r.value.1[..])
  {
    var vocab: map<Key, nat>, cf: map<nat, int> := map[], map[];
    for j := 0 to |documents|
      invariant Readable(Flatten(documents[..j]))
      invariant Tallied(RecordKeys(Flatten(documents[..j])), RecordFreqs(Flatten(documents[..j])), vocab, cf)
    {
      ghost var read := Flatten(documents[..j]);
      assert Flatten(documents[..j + 1]) == read + documents[j] by {
        assert documents[..j + 1][..j] == documents[..j];
      }
      var counted := CountLines(vocab, cf, documents[j], RecordKeys(read), RecordFreqs(read), CorpusRecords(documents[j]));
      if counted.Raise? {
        UnreadableDocument(documents, j);
        return Raise(ValueError);
      }
      vocab, cf := counted.value.0, counted.value.1;
      RecordsAppend(read, documents[j]);
    }
    assert documents[..|documents|] == documents;
    ghost var lines := Flatten(documents);
    TallyKeys(RecordKeys(lines), RecordFreqs(lines));
    FirstSeenIsDense(RecordKeys(lines));
    var p := FillCorpusLogProb(num, cf, |vocab|);
    return Ok((vocab, p));
  }

  /** The inner loop of `corpus_model` over the lines of one document, read
      as `rs`, continuing the tables built from the keys and weights read
      before it. */
  method CountLines(vocab0: map<Key, nat>, cf0: map<nat, int>, d: seq<string>,
                    ghost keys: seq<Key>, ghost weights: seq<int>, ghost rs: seq<Record>)
    returns (r: Outcome<(map<Key, nat>, map<nat, int>)>)
    requires |rs| == |d|
    requires forall k {:trigger CorpusRecord(d[k])} | 0 <= k < |d| :: rs[k] == CorpusRecord(d[k])
    requires Tallied(keys, weights, vocab0, cf0)
    ensures r.Ok? <==> AllSome(rs)
    ensures r.Raise? ==> r.exc == ValueError
    ensures r.Ok? ==> AllSome(rs) && Tallied(keys + Keys(rs), weights + Freqs(rs), r.value.0, r.value.1)
  {
    var vocab: map<Key, nat>, cf: map<nat, int> := vocab0, cf0;
    assert keys + Keys(rs[..0]) == keys && weights + Freqs(rs[..0]) == weights;
    for k := 0 to |d|
      invariant AllSome(rs[..k])
      invariant Tallied(keys + Keys(rs[..k]), weights + Freqs(rs[..k]), vocab, cf)
    {
      var rec := CorpusRecord(d[k]);
      if rec.None? {
        return Raise(ValueError);
      }
      var (key, freq) := rec.value;
      ghost var (vocab1, cf1) := (vocab, cf);
      vocab, cf := AddRecord(vocab, cf, key, freq);
      CountStep(keys, weights, rs, k, key, freq, vocab1, cf1, vocab, cf);
    }
    assert rs[..|d|] == rs;
    return Ok((vocab, cf));
  }

  /** Lines 17-18: `i = vocab.setdefault(key, len(vocab))`, then
      `cf[i] += x`. */
  method AddRecord(vocab: map<Key, nat>, cf: map<nat, int>, key: Key, x: int)
    returns (vocab': map<Key, nat>, cf': map<nat, int>)
    ensures vocab' == if key in vocab then vocab else vocab[key := |vocab|]
    ensures cf' == cf[vocab'[key] := (if vocab'[key] in cf then cf[vocab'[key]] else 0) + x]
  {
    vocab' := vocab;
    if key !in vocab' {
      vocab' := vocab'[key := |vocab'|];
    }
    var i := vocab'[key];
    cf' := cf[i := (if i in cf then cf[i] else 0) + x];
  }

  /** Lines 16-18 on one more line that reads. */
  lemma CountStep(keys: seq<Key>, weights: seq<int>, rs: seq<Record>, k: nat, key: Key, x: int,
                  vocab: map<Key, nat>, cf: map<nat, int>, vocab': map<Key, nat>, cf': map<nat, int>)
    requires k < |rs| && AllSome(rs[..k]) && rs[k] == Some((key, x))
    requires Tallied(keys + Keys(rs[..k]), weights + Freqs(rs[..k]), vocab, cf)
    requires vocab' == if key in vocab then vocab else vocab[key := |vocab|]
    requires cf' == cf[vocab'[key] := (if vocab'[key] in cf then cf[vocab'[key]] else 0) + x]
    ensures AllSome(rs[..k + 1])
    ensures Tallied(keys + Keys(rs[..k + 1]), weights + Freqs(rs[..k + 1]), vocab', cf')
  {
    assert Keys(rs[..k + 1]) == Keys(rs[..k]) + [key];
    assert Freqs(rs[..k + 1]) == Freqs(rs[..k]) + [x];
    assert keys + Keys(rs[..k + 1]) == keys + Keys(rs[..k]) + [key];
    assert weights + Freqs(rs[..k + 1]) == weights + Freqs(rs[..k]) + [x];
    TallyOne(keys + Keys(rs[..k]), weights + Freqs(rs[..k]), vocab, cf, key, x, vocab', cf');
  }

  /** Reading a document after the lines before it. */
  lemma RecordsAppend(read: seq<string>, d: seq<string>)
    requires Readable(read) && AllSome(CorpusRecords(d))
    ensures Readable(read + d)
    ensures RecordKeys(read + d) == RecordKeys(read) + Keys(CorpusRecords(d))
    ensures RecordFreqs(read + d) == RecordFreqs(read) + Freqs(CorpusRecords(d))
  {
    assert CorpusRecords(read + d) == CorpusRecords(read) + CorpusRecords(d);
    assert RecordKeys(read + d) == RecordKeys(read) + Keys(CorpusRecords(d));
    assert RecordFreqs(read + d) == RecordFreqs(read) + Freqs(CorpusRecords(d));
  }

  /** A document with a line that does not read makes the whole corpus
      unreadable. */
  lemma UnreadableDocument(docs: seq<seq<string>>, j: nat)
    requires j < |docs| && !AllSome(CorpusRecords(docs[j]))
    ensures !Readable(Flatten(docs))
  {
    var k :| 0 <= k < |docs[j]| && CorpusRecords(docs[j])[k].None?;
    FlattenContains(docs, j);
    assert docs[j][k] in Flatten(docs);
    var q :| 0 <= q < |Flatten(docs)| && Flatten(docs)[q] == docs[j][k];
    assert CorpusRecords(Flatten(docs))[q].None?;
  }

  /** Every line of every document is a line of the flattened corpus. */
  lemma {:induction false} FlattenContains<T>(docs: seq<seq<T>>, j: nat)
    requires j < |docs|
    ensures forall x | x in docs[j] :: x in Flatten(docs)
  {
    var n := |docs| - 1;
    if j < n {
      FlattenContains(docs[..n], j);
    }
  }

  /** What `corpus_model` counts: the vocabulary holds exactly the keys of
      the lines, with dense indices, and `cf` at the index of a line's key
      is the sum of `int(freq)` over all lines with that key, not their
      number. */
  lemma CorpusCounts(lines: seq<string>)
    requires Readable(lines)
    ensures var keys, freqs := RecordKeys(lines), RecordFreqs(lines);
      var vocab := FirstSeen(keys);
      && DenseIndex(vocab)
      && (forall key | key in vocab :: exists k | 0 <= k < |keys| :: keys[k] == key)
      && (forall k | 0 <= k < |keys| ::
            keys[k] in vocab && vocab[keys[k]] in Tally(keys, freqs) &&
            Tally(keys, freqs)[vocab[keys[k]]] == Weight(keys, freqs, keys[k]))
  {
    KeyCounts(RecordKeys(lines), RecordFreqs(lines));
  }

  lemma KeyCounts(keys: seq<Key>, freqs: seq<int>)
    requires |keys| == |freqs|
    ensures var vocab := FirstSeen(keys);
      && DenseIndex(vocab)
      && (forall key | key in vocab :: exists k | 0 <= k < |keys| :: keys[k] == key)
      && (forall k | 0 <= k < |keys| ::
            keys[k] in vocab && vocab[keys[k]] in Tally(keys, freqs) &&
            Tally(keys, freqs)[vocab[keys[k]]] == Weight(keys, freqs, keys[k]))
  {
    TallyMeaning(keys, freqs);
    FirstSeenIsDense(keys);
  }

  /** With every frequency at least 1, every key's total weight is at
      least 1. */
  lemma {:induction false} WeightPositive(keys: seq<Key>, weights: seq<int>, key: Key)
    requires |keys| == |weights| && key in keys
    requires forall k | 0 <= k < |weights| :: weights[k] >= 1
    ensures Weight(keys, weights, key) >= 1
  {
    var n := |keys| - 1;
    if keys[n] != key {
      assert key in keys[..n] by {
        var k :| 0 <= k < |keys| && keys[k] == key;
        assert keys[..n][k] == key;
      }
      WeightPositive(keys[..n], weights[..n], key);
    } else if key in keys[..n] {
      WeightPositive(keys[..n], weights[..n], key);
    } else {
      WeightAbsent(keys[..n], weights[..n], key);
    }
  }

  /** With every corpus frequency at least 1, the corpus model is finite
      everywhere. */
  lemma CorpusModelFinite(num: Numerics, keys: seq<Key>, weights: seq<int>)
    requires |keys| == |weights| && forall k | 0 <= k < |weights| :: weights[k] >= 1
    ensures IndexedBy(Tally(keys, weights), |FirstSeen(keys)|)
    ensures forall i | 0 <= i < |FirstSeen(keys)| :: CorpusLogProb(num, Tally(keys, weights), |FirstSeen(keys)|)[i].Finite?
  {
    var vocab, cf := FirstSeen(keys), Tally(keys, weights);
    TallyMeaning(keys, weights);
    FirstSeenIsDense(keys);
    forall i | i in cf ensures cf[i] >= 1 {
      assert i in vocab.Values;
      var key :| key in vocab && vocab[key] == i;
      WeightPositive(keys, weights, key);
    }
    CorpusLogProbFinite(num, cf, |vocab|);
  }

  // ---------------------------------------------------------------------
  // `document_model(d, vocab)`, lines 29-52

  /** What reading one document line yields: its vocabulary index and
      `float(freq)`, or the exception it raises. */
  type Reading = Outcome<(nat, real)>

  /** A document line as lines 43-48 read it. The unpacking raises
      `ValueError` first, then the lookup `KeyError`, then `float`
      `ValueError`; a `KeyError` carries the position of the line. */
  function DocumentRecord(vocab: map<Key, nat>, ln: string, k: nat): Reading
  {
    match Unpack(ln)
    case None => Raise(ValueError)
    case Some((key, freq)) =>
      if key !in vocab then Raise(KeyError(k))
      else
        match ParseFloat(freq)
        case None => Raise(ValueError)
        case Some(x) => Ok((vocab[key], x))
  }

  /** The reading of every line of `d`, in order. */
  function DocumentRecords(vocab: map<Key, nat>, d: seq<string>): seq<Reading>
  {
    seq(|d|, k requires 0 <= k < |d| => DocumentRecord(vocab, d[k], k))
  }

  /** Every line read without an exception. */
  predicate AllRead(rs: seq<Reading>)
  {
    forall k | 0 <= k < |rs| :: rs[k].Ok?
  }

  /** Reading `rs[k]` is the first that raised. */
  ghost predicate FirstFailure(rs: seq<Reading>, k: nat)
  {
    k < |rs| && rs[k].Raise? && forall j | 0 <= j < k :: rs[j].Ok?
  }

  /** The vocabulary index of each line read. */
  function ReadIndices(rs: seq<Reading>): seq<nat>
    requires AllRead(rs)
  {
    seq(|rs|, k requires 0 <= k < |rs| => rs[k].value.0)
  }

  /** The frequency of each line read. */
  function ReadFreqs(rs: seq<Reading>): seq<real>
    requires AllRead(rs)
  {
    seq(|rs|, k requires 0 <= k < |rs| => rs[k].value.1)
  }

  /** Every line of `d` reads without an exception. */
  predicate Known(vocab: map<Key, nat>, d: seq<string>)
  {
    AllRead(DocumentRecords(vocab, d))
  }

  /** The vocabulary index of each line of a document that reads. */
  function LineIndices(vocab: map<Key, nat>, d: seq<string>): seq<nat>
    requires Known(vocab, d)
  {
    ReadIndices(DocumentRecords(vocab, d))
  }

  /** The frequency of each line of a document that reads. */
  function LineFreqs(vocab: map<Key, nat>, d: seq<string>): seq<real>
    requires Known(vocab, d)
  {
    ReadFreqs(DocumentRecords(vocab, d))
  }

  /** `document_model(d, vocab)`: `tf[i]` is the sum of `float(freq)` over
      the lines whose key has index `i`; `p_term` is `0 - log2(n_distinct)`
      at every index read and `-inf` elsewhere, where `n_distinct` counts
      the lines read while their index still had `tf == 0`. The first line
      that raises decides the exception. */
  method DocumentModel(num: Numerics, d: seq<string>, vocab: map<Key, nat>)
    returns (r: Outcome<(array<real>, array<LogP>)>)
    requires forall t | t in vocab :: vocab[t] < |vocab|
    ensures r.Ok? <==> Known(vocab, d)
    ensures r.Raise? ==> exists k: nat :: FirstFailure(DocumentRecords(vocab, d), k) && r.exc == DocumentRecord(vocab, d[k], k).exc
    ensures r.Ok? ==>
      && Known(vocab, d)
      && fresh(r.value.0) && fresh(r.value.1)
      && r.value.0[..] == TermFreq(LineIndices(vocab, d), LineFreqs(vocab, d), |vocab|)
      && r.value.1[..] == TouchedLogProb(num, LineIndices(vocab, d), LineFreqs(vocab, d), |vocab|)
  {
    var read := ReadLines(vocab, d, DocumentRecords(vocab, d));
    if read.Raise? {
      return Raise(read.exc);
    }
    var (tf, pTerm, nDistinct) := read.value;
    forall i | 0 <= i < pTerm.Length {
      pTerm[i] := Sub(pTerm[i], Log(num, nDistinct as real));
    }
    return Ok((tf, pTerm));
  }

  /** The line loop of `document_model`, lines 37-48, given the reading
      `rs` of each line. The updates of lines 45-47 made before a `float`
      that raises are on arrays the caller never sees, so each line is read
      whole before the arrays change. */
  method ReadLines(vocab: map<Key, nat>, d: seq<string>, ghost rs: seq<Reading>)
    returns (r: Outcome<(array<real>, array<LogP>, nat)>)
    requires forall t | t in vocab :: vocab[t] < |vocab|
    requires |rs| == |d|
    requires forall k {:trigger DocumentRecord(vocab, d[k], k)} | 0 <= k < |d| :: rs[k] == DocumentRecord(vocab, d[k], k)
    ensures r.Ok? <==> AllRead(rs)
    ensures r.Raise? ==> exists k: nat :: FirstFailure(rs, k) && r.exc == rs[k].exc
    ensures r.Ok? ==>
      && AllRead(rs)
      && fresh(r.value.0) && fresh(r.value.1)
      && r.value.0[..] == TermFreq(ReadIndices(rs), ReadFreqs(rs), |vocab|)
      && r.value.1.Length == |vocab|
      && (forall i | 0 <= i < |vocab| :: r.value.1[i] == if i in ReadIndices(rs) then Finite(0.0) else NegInf)
      && r.value.2 == Touches(ReadIndices(rs), ReadFreqs(rs))
  {
    var tf := new real[|vocab|](_ => 0.0);
    var pTerm := new LogP[|vocab|](_ => NegInf);
    var nDistinct := 0;
    for k := 0 to |d|
      invariant AllRead(rs[..k])
      invariant tf[..] == TermFreq(ReadIndices(rs[..k]), ReadFreqs(rs[..k]), |vocab|)
      invariant nDistinct == Touches(ReadIndices(rs[..k]), ReadFreqs(rs[..k]))
      invariant forall i | 0 <= i < pTerm.Length ::
        pTerm[i] == if i in ReadIndices(rs[..k]) then Finite(0.0) else NegInf
    {
      var rec := DocumentRecord(vocab, d[k], k);
      if rec.Raise? {
        FailsAt(rs, k);
        return Raise(rec.exc);
      }
      var (i, freq) := rec.value;
      ReadStep(rs, k, i, freq);
      nDistinct := AddOccurrence(tf, pTerm, nDistinct, i, freq, ReadIndices(rs[..k]), ReadFreqs(rs[..k]));
    }
    assert rs[..|d|] == rs;
    return Ok((tf, pTerm, nDistinct));
  }

  /** A line that raises after lines that all read is the first failure. */
  lemma FailsAt(rs: seq<Reading>, k: nat)
    requires k < |rs| && AllRead(rs[..k]) && rs[k].Raise?
    ensures FirstFailure(rs, k) && !AllRead(rs)
  {
    assert forall j | 0 <= j < k :: rs[..k][j] == rs[j];
  }

  /** Reading one more line that reads. */
  lemma ReadStep(rs: seq<Reading>, k: nat, i: nat, x: real)
    requires k < |rs| && AllRead(rs[..k]) && rs[k] == Ok((i, x))
    ensures AllRead(rs[..k + 1])
    ensures ReadIndices(rs[..k + 1]) == ReadIndices(rs[..k]) + [i]
    ensures ReadFreqs(rs[..k + 1]) == ReadFreqs(rs[..k]) + [x]
  {
    assert ReadIndices(rs[..k + 1]) == ReadIndices(rs[..k]) + [i];
    assert ReadFreqs(rs[..k + 1]) == ReadFreqs(rs[..k]) + [x];
  }

  /** Every index read is an index of the vocabulary. */
  lemma LineIndicesBounded(vocab: map<Key, nat>, d: seq<string>)
    requires (forall t | t in vocab :: vocab[t] < |vocab|) && Known(vocab, d)
    ensures forall k | 0 <= k < |d| :: LineIndices(vocab, d)[k] < |vocab|
  {
    forall k | 0 <= k < |d| ensures LineIndices(vocab, d)[k] < |vocab| {
      assert DocumentRecords(vocab, d)[k] == DocumentRecord(vocab, d[k], k);
    }
  }

  /** The document model is finite exactly at the indices of the lines
      read and `log 0` elsewhere, whatever the frequencies; with every
      frequency positive, `n_distinct` is the number of distinct keys, that
      is the number of positive entries of `tf`. */
  lemma DocumentModelSupport(num: Numerics, d: seq<string>, vocab: map<Key, nat>)
    requires (forall t | t in vocab :: vocab[t] < |vocab|) && Known(vocab, d) && d != []
    ensures var idx, ws := LineIndices(vocab, d), LineFreqs(vocab, d);
      && (forall i | 0 <= i < |vocab| :: TouchedLogProb(num, idx, ws, |vocab|)[i].Finite? <==> i in idx)
      && (forall i | 0 <= i < |vocab| :: TouchedLogProb(num, idx, ws, |vocab|)[i].NegInf? <==> i !in idx)
      && ((forall k | 0 <= k < |ws| :: ws[k] > 0.0) ==> Touches(idx, ws) == CountPositive(TermFreq(idx, ws, |vocab|)))
  {
    var idx, ws := LineIndices(vocab, d), LineFreqs(vocab, d);
    TouchedSupport(num, idx, ws, |vocab|);
    if forall k | 0 <= k < |ws| :: ws[k] > 0.0 {
      LineIndicesBounded(vocab, d);
      TouchesCountsDistinct(idx, ws, |vocab|);
    }
  }

  // ---------------------------------------------------------------------
  // `EM(tf, p_corpus, p_term, w_unigrams, w_bigrams, n_iter)`, lines 55-74

  /** `EM(...)`: `p_corpus += log2(1 - w_unigrams - w_bigrams)` in place on
      the caller's array; `tf` is logged into a new array; then `n_iter`
      rounds whose first `p_term += log2(w_unigrams)` updates the caller's
      `p_term` in place. `log2(w_bigrams)` is computed and never used. With
      no round, the caller's `p_term` itself is returned. */
  method EM(num: Numerics, tf: array<real>, pCorpus: array<LogP>, pTerm: array<LogP>,
            wUnigrams: real, wBigrams: real, nIter: int)
    returns (r: Outcome<array<LogP>>)
    requires tf.Length == pCorpus.Length == pTerm.Length
    requires pCorpus != pTerm
    modifies pCorpus, pTerm
    ensures tf[..] == old(tf[..])
    ensures pCorpus[..] == Shift(old(pCorpus[..]), Log(num, 1.0 - wUnigrams - wBigrams))
    ensures nIter <= 0 ==> r == Ok(pTerm) && pTerm[..] == old(pTerm[..])
    ensures nIter > 0 ==> pTerm[..] == Shift(old(pTerm[..]), Log(num, wUnigrams))
    ensures nIter > 0 && pTerm.Length == 0 ==> r == Raise(ValueError)
    ensures nIter > 0 && pTerm.Length > 0 ==>
      r.Ok? && fresh(r.value) &&
      r.value[..] == Iterate(num, LogAll(num, tf[..]), Shift(old(pCorpus[..]), Log(num, 1.0 - wUnigrams - wBigrams)),
                             old(pTerm[..]), Log(num, wUnigrams), nIter)
  {
    ShiftInPlace(pCorpus, Log(num, 1.0 - wUnigrams - wBigrams));
    var logTf := LogArray(num, tf);
    r := Iterations(num, logTf, pCorpus, pTerm, Log(num, wUnigrams), nIter);
  }

  /** `a += c` on a NumPy array: every entry shifted in place. */
  method ShiftInPlace(a: array<LogP>, c: LogP)
    modifies a
    ensures a[..] == Shift(old(a[..]), c)
  {
    forall i | 0 <= i < a.Length {
      a[i] := Add(a[i], c);
    }
  }

  /** The pipeline `corpus_model`, `document_model`, `EM` keeps the support
      of the document: with positive frequencies in the corpus and in the
      document, at least one document line, a positive unigram weight and a
      positive corpus weight `1 - w_unigrams - w_bigrams`, every iterate is
      finite exactly at the indices of the document's keys and `log 0`
      elsewhere. */
  lemma PipelineSupport(num: Numerics, lines: seq<string>, d: seq<string>,
                        wUnigrams: real, wBigrams: real, n: int)
    requires Readable(lines) && forall k | 0 <= k < |lines| :: RecordFreqs(lines)[k] >= 1
    requires var vocab := FirstSeen(RecordKeys(lines));
      Known(vocab, d) && d != [] && forall k | 0 <= k < |d| :: LineFreqs(vocab, d)[k] > 0.0
    requires 0.0 < wUnigrams && 0.0 < 1.0 - wUnigrams - wBigrams
    ensures
      var keys, freqs := RecordKeys(lines), RecordFreqs(lines);
      var vocab := FirstSeen(keys);
      var idx, ws := LineIndices(vocab, d), LineFreqs(vocab, d);
      IndexedBy(Tally(keys, freqs), |vocab|) &&
      var pc := CorpusLogProb(num, Tally(keys, freqs), |vocab|);
      var v := Iterate(num, LogAll(num, TermFreq(idx, ws, |vocab|)), Shift(pc, Log(num, 1.0 - wUnigrams - wBigrams)),
                       TouchedLogProb(num, idx, ws, |vocab|), Log(num, wUnigrams), n);
      |v| == |vocab| &&
      forall i | 0 <= i < |vocab| :: (v[i].Finite? <==> i in idx) && (v[i] == NegInf <==> i !in idx)
  {
    var keys, freqs := RecordKeys(lines), RecordFreqs(lines);
    var vocab := FirstSeen(keys);
    FirstSeenIsDense(keys);
    CorpusModelFinite(num, keys, freqs);
    var idx := LineIndices(vocab, d);
    LineIndicesBounded(vocab, d);
    TouchedEMSupport(num, idx, LineFreqs(vocab, d), CorpusLogProb(num, Tally(keys, freqs), |vocab|),
                     Log(num, 1.0 - wUnigrams - wBigrams), Log(num, wUnigrams), n);
  }
}
